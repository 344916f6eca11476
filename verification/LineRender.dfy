/** Rendering of one song line: chord boxes, the cells inside them, and the
    per-line text accumulator that decides whether text cells and alignment
    placeholders are emitted. */
module LineRender {
  import opened Text

  const DivClose := "</div>"
  const Nbsp := "&nbsp;"
  const SonglineOpen := "<div class=\"songline\">"
  const ChordboxOpen := "<div class=\"chordbox\">"
  const ChordOpen := "<div class=\"chord\">"
  const TextOpen := "<div class=\"text\">"

  /** One chord box of a tokenised line, one variant per alternative of the
      line grammar, tried in this order: a chord followed by a run of blanks,
      a chord glued to lyric text, a chord alone, lyric text alone. A chord
      keeps its square brackets. */
  datatype Box =
    | ChordGap(chord: string, text: string)
    | ChordText(chord: string, text: string)
    | ChordOnly(chord: string)
    | TextOnly(text: string)

  /** A cell inside a chord box: a chord label, or already-escaped text. */
  datatype Cell = ChordCell(name: string) | TextCell(html: string)

  /** What a box contributes to the text accumulator: only lyric-text tokens
      are recorded, the blank run after a chord is not. */
  function TokenText(b: Box): string
  {
    match b
    case ChordText(_, t) => t
    case TextOnly(t) => t
    case _ => ""
  }

  /** The accumulator after every text token of the line has been appended,
      in line order. */
  function TextTokens(bs: seq<Box>): string
  {
    if bs == [] then "" else TextTokens(bs[..|bs| - 1]) + TokenText(bs[|bs| - 1])
  }

  /** The `line_has_text` test: the accumulator is not blank once stripped. */
  predicate LineHasText(buffer: string)
  {
    |Strip(buffer)| > 0
  }

  lemma {:induction false} TextTokensAllSpace(bs: seq<Box>)
    ensures AllSpace(TextTokens(bs)) <==> forall i :: 0 <= i < |bs| ==> AllSpace(TokenText(bs[i]))
  {
    if bs != [] {
      var init := bs[..|bs| - 1];
      TextTokensAllSpace(init);
      AllSpaceAppend(TextTokens(init), TokenText(bs[|bs| - 1]));
      assert forall i :: 0 <= i < |init| ==> init[i] == bs[i];
    }
  }

  /** A line has text exactly when some box carries a lyric-text token with
      a non-blank character. */
  lemma LineHasTextIff(bs: seq<Box>)
    ensures LineHasText(TextTokens(bs)) <==> exists i :: 0 <= i < |bs| && !AllSpace(TokenText(bs[i]))
  {
    StripEmptyIff(TextTokens(bs));
    TextTokensAllSpace(bs);
  }

  /** `s[1:-1]`: everything but the first and the last character, and
      nothing when there are fewer than two. */
  function Inner(s: string): (r: string)
    ensures |s| >= 2 ==> s == [s[0]] + r + [s[|s| - 1]]
    ensures |s| < 2 ==> r == []
  {
    if |s| >= 2 then s[1..|s| - 1] else []
  }

  /** The label of a chord cell: the whole token when chords are shown
      wrapped in brackets, the token without its brackets otherwise. */
  function ChordLabel(chord: string, wrapChords: bool): string
  {
    if wrapChords then chord else Inner(chord)
  }

  /** A bracketed chord shows its name alone unless chords are wrapped. */
  lemma ChordLabelOfBracketed(name: string)
    ensures ChordLabel("[" + name + "]", false) == name
    ensures ChordLabel("[" + name + "]", true) == "[" + name + "]"
  {
    var s := "[" + name + "]";
    assert s[1..|s| - 1] == name;
  }

  /** Lyric text with every blank made non-breaking. */
  function Escape(t: string): (r: string)
    ensures ' ' !in r
    ensures ' ' !in t ==> r == t
  {
    ReplaceChar(t, ' ', Nbsp)
  }

  /** Text without '&' is recovered from its escaped form. */
  lemma EscapeRoundTrip(t: string)
    requires '&' !in t
    ensures Restore(Escape(t), ' ', Nbsp) == t
  {
    ReplaceCharRoundTrip(t, ' ', Nbsp);
  }

  /** The cells of one box, given whether its line has text. */
  function BoxCells(b: Box, wrapChords: bool, lineHasText: bool): seq<Cell>
  {
    match b
    case ChordGap(c, t) =>
      [ChordCell(ChordLabel(c, wrapChords))] + (if lineHasText then [TextCell(Escape(t))] else [])
    case ChordText(c, t) =>
      [ChordCell(ChordLabel(c, wrapChords))] + (if lineHasText then [TextCell(Escape(t))] else [])
    case ChordOnly(c) =>
      if |c| > 0 then [ChordCell(ChordLabel(c, wrapChords))] + (if lineHasText then [TextCell(Nbsp)] else [])
      else []
    case TextOnly(t) =>
      if |t| > 0 then [TextCell(Escape(t))] else []
  }

  /** A box with a chord shows the chord first, then exactly one text cell
      when the line has text and none otherwise: its escaped text, or a
      non-breaking blank for a chord alone. */
  lemma ChordBoxCells(b: Box, wrapChords: bool, lineHasText: bool)
    requires b.ChordGap? || b.ChordText? || (b.ChordOnly? && |b.chord| > 0)
    ensures var cells := BoxCells(b, wrapChords, lineHasText);
      1 <= |cells| <= 2 && cells[0] == ChordCell(ChordLabel(b.chord, wrapChords))
      && (|cells| == 2 <==> lineHasText)
      && (lineHasText ==> cells[1] == TextCell(if b.ChordOnly? then Nbsp else Escape(b.text)))
  {
  }

  /** The cells of a whole line, box after box. */
  function LineCells(bs: seq<Box>, wrapChords: bool, lineHasText: bool): seq<Cell>
  {
    if bs == [] then []
    else LineCells(bs[..|bs| - 1], wrapChords, lineHasText) + BoxCells(bs[|bs| - 1], wrapChords, lineHasText)
  }

  /** Every chord cell is directly followed by a text cell. */
  predicate Paired(cells: seq<Cell>)
  {
    forall i :: 0 <= i < |cells| && cells[i].ChordCell? ==> i + 1 < |cells| && cells[i + 1].TextCell?
  }

  lemma PairedAppend(a: seq<Cell>, b: seq<Cell>)
    requires Paired(a) && Paired(b)
    ensures Paired(a + b)
  {
    forall i | 0 <= i < |a + b| && (a + b)[i].ChordCell?
      ensures i + 1 < |a + b| && (a + b)[i + 1].TextCell?
    {
      if i < |a| {
        assert a[i] == (a + b)[i];
        assert (a + b)[i + 1] == a[i + 1];
      } else {
        assert b[i - |a|] == (a + b)[i];
        assert (a + b)[i + 1] == b[i + 1 - |a|];
      }
    }
  }

  /** Column alignment: on a line that has text, every chord cell, whether
      its box carries text, blanks or nothing, has a text cell beside it. */
  lemma {:induction false} ChordCellsPaired(bs: seq<Box>, wrapChords: bool)
    ensures Paired(LineCells(bs, wrapChords, true))
  {
    if bs != [] {
      ChordCellsPaired(bs[..|bs| - 1], wrapChords);
      PairedAppend(LineCells(bs[..|bs| - 1], wrapChords, true), BoxCells(bs[|bs| - 1], wrapChords, true));
    }
  }

  /** A line made only of chords (possibly followed by blanks) has no text,
      so it renders chord cells and no text cell at all. */
  lemma {:induction false} ChordOnlyLineHasNoTextCells(bs: seq<Box>, wrapChords: bool)
    requires forall i :: 0 <= i < |bs| ==> bs[i].ChordGap? || bs[i].ChordOnly?
    ensures TextTokens(bs) == "" && !LineHasText(TextTokens(bs))
    ensures forall i :: 0 <= i < |LineCells(bs, wrapChords, false)| ==> LineCells(bs, wrapChords, false)[i].ChordCell?
  {
    if bs != [] {
      var init := bs[..|bs| - 1];
      var last := bs[|bs| - 1];
      assert forall i :: 0 <= i < |init| ==> init[i] == bs[i];
      ChordOnlyLineHasNoTextCells(init, wrapChords);
      assert TokenText(last) == "";
      assert TextTokens(bs) == "" + "";
      var a: seq<Cell> := LineCells(init, wrapChords, false);
      var b: seq<Cell> := BoxCells(last, wrapChords, false);
      assert forall i :: 0 <= i < |b| ==> b[i].ChordCell?;
      forall i | 0 <= i < |a + b| ensures (a + b)[i].ChordCell? {
        if i < |a| { assert (a + b)[i] == a[i]; } else { assert (a + b)[i] == b[i - |a|]; }
      }
    }
  }

  /** The number of text cells among `cells`. */
  function TextCellCount(cells: seq<Cell>): nat
  {
    if cells == [] then 0
    else TextCellCount(cells[..|cells| - 1]) + (if cells[|cells| - 1].TextCell? then 1 else 0)
  }

  lemma {:induction false} TextCellCountAppend(a: seq<Cell>, b: seq<Cell>)
    ensures TextCellCount(a + b) == TextCellCount(a) + TextCellCount(b)
  {
    if b != [] {
      var init := b[..|b| - 1];
      assert (a + b)[..|a + b| - 1] == a + init;
      TextCellCountAppend(a, init);
    } else {
      assert a + b == a;
    }
  }

  /** The number of boxes that are lyric text alone and not empty. */
  function TextOnlyCount(bs: seq<Box>): nat
  {
    if bs == [] then 0
    else TextOnlyCount(bs[..|bs| - 1]) + (if bs[|bs| - 1].TextOnly? && |bs[|bs| - 1].text| > 0 then 1 else 0)
  }

  /** On a line without text no chord gets a text cell: the only text cells
      left are those of boxes of text alone, one each, such as the run of
      blanks that indents a chord line. */
  lemma {:induction false} NoTextLineTextCells(bs: seq<Box>, wrapChords: bool)
    ensures TextCellCount(LineCells(bs, wrapChords, false)) == TextOnlyCount(bs)
  {
    if bs != [] {
      var last := bs[|bs| - 1];
      NoTextLineTextCells(bs[..|bs| - 1], wrapChords);
      TextCellCountAppend(LineCells(bs[..|bs| - 1], wrapChords, false), BoxCells(last, wrapChords, false));
      var b := BoxCells(last, wrapChords, false);
      if b != [] {
        assert b[..|b| - 1] == [] by { assert |b| == 1; }
      }
    }
  }

  /** An indented chord line: the blank run before the chord is a box of
      text alone, the line has no text, and yet the blanks show as a text
      cell of non-breaking blanks before the chord. */
  lemma IndentedChordLine(blanks: string, name: string)
    requires |blanks| > 0 && AllSpace(blanks)
    ensures var bs := [TextOnly(blanks), ChordOnly("[" + name + "]")];
      !LineHasText(TextTokens(bs))
      && LineCells(bs, false, false) == [TextCell(Escape(blanks)), ChordCell(name)]
  {
    var bs := [TextOnly(blanks), ChordOnly("[" + name + "]")];
    assert bs[..1] == [TextOnly(blanks)] && bs[..1][..0] == [];
    assert TextTokens(bs) == blanks by {
      assert TextTokens(bs[..1]) == "" + blanks;
      assert TextTokens(bs) == TextTokens(bs[..1]) + "";
    }
    StripEmptyIff(blanks);
    ChordLabelOfBracketed(name);
    assert LineCells(bs[..1], false, false) == [] + [TextCell(Escape(blanks))];
  }

  predicate NoBlankText(cells: seq<Cell>)
  {
    forall i :: 0 <= i < |cells| && cells[i].TextCell? ==> ' ' !in cells[i].html
  }

  /** No text cell holds a raw blank: blanks are rendered non-breaking so
      the columns of a line keep their width. */
  lemma {:induction false} TextCellsHaveNoBlanks(bs: seq<Box>, wrapChords: bool, lineHasText: bool)
    ensures NoBlankText(LineCells(bs, wrapChords, lineHasText))
  {
    if bs != [] {
      TextCellsHaveNoBlanks(bs[..|bs| - 1], wrapChords, lineHasText);
      var a: seq<Cell> := LineCells(bs[..|bs| - 1], wrapChords, lineHasText);
      var b: seq<Cell> := BoxCells(bs[|bs| - 1], wrapChords, lineHasText);
      assert ' ' !in Nbsp;
      forall i | 0 <= i < |a + b| && (a + b)[i].TextCell? ensures ' ' !in (a + b)[i].html {
        if i < |a| { assert (a + b)[i] == a[i]; } else { assert (a + b)[i] == b[i - |a|]; }
      }
    }
  }

  function CellHtml(c: Cell): string
  {
    match c
    case ChordCell(name) => ChordOpen + name + DivClose
    case TextCell(html) => TextOpen + html + DivClose
  }

  function CellsHtml(cells: seq<Cell>): string
  {
    if cells == [] then "" else CellHtml(cells[0]) + CellsHtml(cells[1..])
  }

  /** One chord box: its cells inside a chordbox container. */
  function BoxHtml(b: Box, wrapChords: bool, lineHasText: bool): string
  {
    ChordboxOpen + CellsHtml(BoxCells(b, wrapChords, lineHasText)) + DivClose
  }

  function BoxesHtml(bs: seq<Box>, wrapChords: bool, lineHasText: bool): string
  {
    if bs == [] then ""
    else BoxesHtml(bs[..|bs| - 1], wrapChords, lineHasText) + BoxHtml(bs[|bs| - 1], wrapChords, lineHasText)
  }

  /** The songline container around the boxes of a line. */
  function SonglineHtml(bs: seq<Box>, wrapChords: bool, lineHasText: bool): string
  {
    SonglineOpen + BoxesHtml(bs, wrapChords, lineHasText) + DivClose
  }
}
