/** The converter as it runs: one object per song whose fields are the
    variables the handlers share (the open section, the text accumulator,
    the metadata and the output), handler methods that update them in
    place, and the loop that appends each construct's markup to the output.
    Each handler method is proved to do what the corresponding pure
    definition of the other modules says; the text handler, which has no
    pure counterpart of its own, is specified by the append it makes, and
    the song line's accumulator is tied to `TextTokens` in `Dispatch`. */
module Converter {
  import opened Text
  import opened LineRender
  import opened Handlers
  import opened Document

  class Pass {
    const wrapChords: bool
    var state: SongState
    var textBuffer: string
    var title: string
    var artist: string
    var output: string

    /** The state of the pass as the pure model sees it. */
    ghost function Current(): Doc
      reads this
    {
      Doc(state, title, artist, output)
    }

    /** A fresh pass: no section open, default metadata, no output and an
        empty text accumulator. */
    constructor(wrapChords: bool)
      ensures this.wrapChords == wrapChords
      ensures Current() == Initial && textBuffer == ""
    {
      this.wrapChords := wrapChords;
      state := None;
      textBuffer := "";
      title := DefaultTitle;
      artist := DefaultArtist;
      output := "";
    }

    /** An empty line closes an open verse and renders a line break. */
    method HandleEmptyLine() returns (html: string)
      modifies this`state
      ensures old(state) == Verse ==> state == None && html == DivClose + "\n" + LineBreak
      ensures old(state) != Verse ==> state == old(state) && html == LineBreak
      ensures (state, html) == EmptyLineHandler(old(state))
    {
      if state == Verse {
        state := None;
        html := DivClose + "\n" + LineBreak;
      } else {
        html := LineBreak;
      }
    }

    /** A lyric-text token is recorded in the accumulator. */
    method HandleText(t: string)
      modifies this`textBuffer
      ensures textBuffer == old(textBuffer) + t
    {
      textBuffer := textBuffer + t;
    }

    /** A song line reads and clears the accumulator, opens a verse when no
        section is open, and renders its boxes one after the other. */
    method HandleSongLine(boxes: seq<Box>) returns (line: string)
      modifies this`state, this`textBuffer
      ensures textBuffer == ""
      ensures old(state) == None ==> state == Verse
      ensures old(state) != None ==> state == old(state)
      ensures (state, line) == SongLineHandler(old(state), boxes, wrapChords, LineHasText(old(textBuffer)))
    {
      var lineHasText := |Strip(textBuffer)| > 0;
      textBuffer := "";
      var head := "";
      if state == None {
        state := Verse;
        head := VerseOpen;
      }
      var body := RenderBoxes(boxes, lineHasText);
      line := head + (SonglineOpen + body + DivClose);
      assert old(state) != None ==> line == SonglineOpen + body + DivClose;
    }

    /** The chord boxes of a line, one after the other, each in its
        chordbox container. */
    method RenderBoxes(boxes: seq<Box>, lineHasText: bool) returns (body: string)
      ensures body == BoxesHtml(boxes, wrapChords, lineHasText)
    {
      body := "";
      for i := 0 to |boxes|
        invariant body == BoxesHtml(boxes[..i], wrapChords, lineHasText)
      {
        var cells := BoxCellsHtml(boxes[i], lineHasText);
        assert BoxesHtml(boxes[..i + 1], wrapChords, lineHasText)
            == BoxesHtml(boxes[..i], wrapChords, lineHasText) + BoxHtml(boxes[i], wrapChords, lineHasText) by {
          assert boxes[..i + 1][..i] == boxes[..i];
        }
        body := body + (ChordboxOpen + cells + DivClose);
      }
      assert boxes[..|boxes|] == boxes;
    }

    /** The cells of one box, rendered: a chord cell for a chord (its name
        alone unless chords are wrapped), then a text cell when the line has
        text (a non-breaking blank for a chord without text); a text cell
        for text alone; nothing for an empty token. */
    method BoxCellsHtml(item: Box, lineHasText: bool) returns (cells: string)
      ensures cells == CellsHtml(BoxCells(item, wrapChords, lineHasText))
    {
      cells := "";
      match item {
        case ChordGap(c, t) =>
          cells := ChordOpen + ChordLabel(c, wrapChords) + DivClose;
          if lineHasText {
            cells := cells + (TextOpen + Escape(t) + DivClose);
            TwoCells(ChordCell(ChordLabel(c, wrapChords)), TextCell(Escape(t)));
          } else {
            OneCell(ChordCell(ChordLabel(c, wrapChords)));
          }
        case ChordText(c, t) =>
          cells := ChordOpen + ChordLabel(c, wrapChords) + DivClose;
          if lineHasText {
            cells := cells + (TextOpen + Escape(t) + DivClose);
            TwoCells(ChordCell(ChordLabel(c, wrapChords)), TextCell(Escape(t)));
          } else {
            OneCell(ChordCell(ChordLabel(c, wrapChords)));
          }
        case ChordOnly(c) =>
          if |c| > 0 {
            cells := ChordOpen + ChordLabel(c, wrapChords) + DivClose;
            if lineHasText {
              cells := cells + (TextOpen + Nbsp + DivClose);
              TwoCells(ChordCell(ChordLabel(c, wrapChords)), TextCell(Nbsp));
            } else {
              OneCell(ChordCell(ChordLabel(c, wrapChords)));
            }
          }
        case TextOnly(t) =>
          if |t| > 0 {
            cells := TextOpen + Escape(t) + DivClose;
            OneCell(TextCell(Escape(t)));
          }
      }
    }

    /** A section directive closes the open section and opens a chorus or a
        tab for the two start keywords. */
    method HandleEnvDirective(cmd: string) returns (html: string)
      modifies this`state
      ensures old(state) != None ==> StartsWith(html, DivClose)
      ensures (state, html) == EnvHandler(old(state), cmd)
    {
      var token := Lower(Strip(cmd));
      html := "";
      if state != None {
        state := None;
        html := html + DivClose;
        assert html == DivClose;
      }
      if IsChorusStart(token) {
        state := Chorus;
        html := html + ChorusOpen;
      } else if IsTabStart(token) {
        state := Tab;
        html := html + TabOpen;
      }
    }

    /** A metadata directive records the title or the artist and shows it. */
    method HandleMetaDirective(cmd: string, arg: string) returns (html: string)
      modifies this`title, this`artist
      ensures IsTitleKey(Keyword(cmd)) ==> title == arg && artist == old(artist)
      ensures IsArtistKey(Keyword(cmd)) ==> title == old(title) && artist == arg
      ensures (title, artist, html) == MetaHandler(old(title), old(artist), cmd, arg)
    {
      var token := Lower(Strip(cmd));
      MetaKeysDisjoint(token);
      html := "";
      if IsTitleKey(token) {
        title := arg;
        html := html + (TitleOpen + arg + DivClose);
        assert html == TitleOpen + arg + DivClose;
      } else if IsArtistKey(token) {
        artist := arg;
        html := html + (ArtistOpen + arg + DivClose);
        assert html == ArtistOpen + arg + DivClose;
      }
    }

    /** What the grammar does on recognising one construct: a song line's
        text tokens reach the accumulator first, in line order, then the
        construct's handler runs. Only boxes that carry a lyric-text token
        call the text handler; the blank run after a chord has no handler.
        The output itself is not touched. */
    method Dispatch(c: Construct) returns (html: string)
      requires textBuffer == ""
      modifies this`state, this`textBuffer, this`title, this`artist
      ensures textBuffer == ""
      ensures (Current(), html) == Handle(old(Current()), c, wrapChords)
    {
      match c {
        case EmptyLine =>
          html := HandleEmptyLine();
        case SongLine(bs) =>
          for i := 0 to |bs|
            invariant textBuffer == TextTokens(bs[..i])
            invariant state == old(state) && title == old(title) && artist == old(artist)
          {
            assert bs[..i + 1][..i] == bs[..i];
            if bs[i].ChordText? || bs[i].TextOnly? {
              HandleText(bs[i].text);
            } else {
              assert TextTokens(bs[..i + 1]) == TextTokens(bs[..i]) + "";
            }
          }
          assert bs[..|bs|] == bs;
          html := HandleSongLine(bs);
        case Meta(cmd, arg) =>
          html := HandleMetaDirective(cmd, arg);
        case Form(cmd, arg) =>
          html := FormHandler(cmd, arg);
        case Env(cmd) =>
          html := HandleEnvDirective(cmd);
      }
    }

    /** Every construct in document order is dispatched and its markup
        appended to the output, followed by a line feed. */
    method Run(song: seq<Construct>)
      requires textBuffer == ""
      modifies this`state, this`textBuffer, this`title, this`artist, this`output
      ensures textBuffer == ""
      ensures Current() == RunFrom(old(Current()), song, wrapChords)
    {
      ghost var start := Current();
      for i := 0 to |song|
        invariant textBuffer == ""
        invariant Current() == RunFrom(start, song[..i], wrapChords)
      {
        var html := Dispatch(song[i]);
        output := output + html + "\n";
        assert song[..i + 1][..i] == song[..i];
      }
      assert song[..|song|] == song;
    }
  }

  /** Converts one song: the rendered fragment, the title and the artist.
      The title and the artist are those of the last directive that set
      them, or the defaults when none did. */
  method ChordproToHtml(song: seq<Construct>, wrapChords: bool) returns (output: string, title: string, artist: string)
    ensures output == Convert(song, wrapChords).output
    ensures title == LastSet(song, TitleField, DefaultTitle)
    ensures artist == LastSet(song, ArtistField, DefaultArtist)
  {
    var pass := new Pass(wrapChords);
    pass.Run(song);
    MetadataIsLastDirective(song, wrapChords);
    output, title, artist := pass.output, pass.title, pass.artist;
  }
}
