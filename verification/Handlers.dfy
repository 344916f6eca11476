/** The handlers the grammar calls for each recognised construct: the
    section state machine (empty lines, song lines and section directives)
    and the dispatch of metadata and comment directives. */
module Handlers {
  import opened Text
  import opened LineRender

  /** The open section of the song. `Bridge` is part of the enumeration but
      no handler ever enters it. */
  datatype SongState = None | Verse | Chorus | Tab | Bridge

  const VerseOpen := "<div class=\"verse\">"
  const ChorusOpen := "<div class=\"chorus\">"
  const TabOpen := "<div class=\"tab\">"
  const LineBreak := "<br>"
  const TitleOpen := "<div class=\"title\">"
  const ArtistOpen := "<div class=\"artist\">"
  const CommentOpen := "<div class=\"comment\">"
  const CommentBoxOpen := "<div class=\"commentbox\">"
  const DefaultTitle := "Unknown Title"
  const DefaultArtist := "Unknown Artist"

  /** A directive's command as the handlers compare it: stripped, then
      lower-cased. */
  function Keyword(cmd: string): string
  {
    Lower(Strip(cmd))
  }

  predicate IsChorusStart(k: string) { k == "start_of_chorus" || k == "soc" }
  predicate IsTabStart(k: string) { k == "start_of_tab" || k == "sot" }
  predicate IsTitleKey(k: string) { k == "title" || k == "t" }
  predicate IsArtistKey(k: string) { k == "artist" || k == "a" }
  predicate IsCommentKey(k: string) { k == "comment" || k == "c" }
  predicate IsCommentBoxKey(k: string) { k == "comment_box" || k == "cb" }

  /** The commands the directive grammar accepts are lower-case words with
      underscores, already in the form the handlers compare, so normalising
      them changes nothing. */
  lemma KeywordOfCanonical(k: string)
    requires forall i :: 0 <= i < |k| ==> 'a' <= k[i] <= 'z' || k[i] == '_'
    ensures Keyword(k) == k
  {
    LowerOfLowerAscii(k);
    if k != [] {
      assert !IsSpace(k[0]) && !IsSpace(k[|k| - 1]);
    }
    assert TrimStart(k) == k;
    assert TrimEnd(k) == k;
  }

  lemma LowerOfLowerAscii(s: string)
    requires forall i :: 0 <= i < |s| ==> 'a' <= s[i] <= 'z' || s[i] == '_'
    ensures Lower(s) == s
  {
    forall i | 0 <= i < |s| ensures Lower(s)[i] == s[i] {
    }
  }

  /** An empty line closes an open verse; any other state is kept. */
  function EmptyLineHandler(s: SongState): (SongState, string)
  {
    if s == Verse then (None, DivClose + "\n" + LineBreak) else (s, LineBreak)
  }

  /** A song line opens a verse when no section is open, then renders its
      boxes. */
  function SongLineHandler(s: SongState, bs: seq<Box>, wrapChords: bool, lineHasText: bool): (SongState, string)
  {
    if s == None then (Verse, VerseOpen + SonglineHtml(bs, wrapChords, lineHasText))
    else (s, SonglineHtml(bs, wrapChords, lineHasText))
  }

  /** A song line renders one songline container, preceded by a verse
      opening exactly when no section was open, which it then opens. */
  lemma SongLineShape(s: SongState, bs: seq<Box>, wrapChords: bool, lineHasText: bool)
    ensures var (t, h) := SongLineHandler(s, bs, wrapChords, lineHasText);
      var line := SonglineHtml(bs, wrapChords, lineHasText);
      (t == if s == None then Verse else s)
      && h == (if s == None then VerseOpen else "") + line
      && StartsWith(line, SonglineOpen)
      && |line| >= |DivClose| && line[|line| - |DivClose|..] == DivClose
  {
    var line := SonglineHtml(bs, wrapChords, lineHasText);
    assert line[..|SonglineOpen|] == SonglineOpen;
    assert line[|line| - |DivClose|..] == DivClose;
    if s != None {
      assert "" + line == line;
    }
  }

  /** A section directive closes whatever section is open, then opens a
      chorus or a tab for the two start keywords; every other section
      keyword (the end forms) leaves no section open. */
  function EnvHandler(s: SongState, cmd: string): (SongState, string)
  {
    var k := Keyword(cmd);
    var close := if s != None then DivClose else "";
    if IsChorusStart(k) then (Chorus, close + ChorusOpen)
    else if IsTabStart(k) then (Tab, close + TabOpen)
    else (None, close)
  }

  /** A metadata directive records its argument as the title or the artist
      and shows it; an unknown command changes and shows nothing. */
  function MetaHandler(title: string, artist: string, cmd: string, arg: string): (string, string, string)
  {
    var k := Keyword(cmd);
    if IsTitleKey(k) then (arg, artist, TitleOpen + arg + DivClose)
    else if IsArtistKey(k) then (title, arg, ArtistOpen + arg + DivClose)
    else (title, artist, "")
  }

  /** A comment directive shows its argument with each line feed made an
      explicit line break; an unknown command shows nothing. */
  function FormHandler(cmd: string, arg: string): (r: string)
    ensures '\n' !in r
    ensures r == "" <==> !IsCommentKey(Keyword(cmd)) && !IsCommentBoxKey(Keyword(cmd))
    ensures IsCommentKey(Keyword(cmd)) ==> StartsWith(r, CommentOpen)
    ensures IsCommentBoxKey(Keyword(cmd)) ==> StartsWith(r, CommentBoxOpen)
  {
    var k := Keyword(cmd);
    CommentKeysDisjoint(k);
    if IsCommentKey(k) then
      var body := ReplaceChar(arg, '\n', LineBreak);
      Container(CommentOpen, body);
      CommentOpen + body + DivClose
    else if IsCommentBoxKey(k) then
      var body := ReplaceChar(arg, '\n', LineBreak);
      Container(CommentBoxOpen, body);
      CommentBoxOpen + body + DivClose
    else ""
  }

  lemma MetaKeysDisjoint(k: string)
    ensures !(IsTitleKey(k) && IsArtistKey(k))
  {
    if IsTitleKey(k) {
      assert k[0] == 't';
    }
  }

  lemma CommentKeysDisjoint(k: string)
    ensures !(IsCommentKey(k) && IsCommentBoxKey(k))
  {
    if IsCommentKey(k) {
      assert |k| <= 7;
    }
  }

  /** A container without line feeds in its opening tag and body starts
      with that tag and has no line feed at all. */
  lemma Container(open: string, body: string)
    requires '\n' !in open && '\n' !in body
    ensures var r := open + body + DivClose; |r| >= |open| && r[..|open|] == open && '\n' !in r
  {
    var r := open + body + DivClose;
    assert r[..|open|] == open;
    assert '\n' !in DivClose;
  }

  /** A comment without '<' is read back from what it shows. */
  lemma CommentRoundTrip(cmd: string, arg: string)
    requires IsCommentKey(Keyword(cmd)) && '<' !in arg
    ensures var r := FormHandler(cmd, arg);
      |r| >= |CommentOpen| + |DivClose|
      && Restore(r[|CommentOpen|..|r| - |DivClose|], '\n', LineBreak) == arg
  {
    var r := FormHandler(cmd, arg);
    var body := ReplaceChar(arg, '\n', LineBreak);
    assert r[|CommentOpen|..|r| - |DivClose|] == body;
    ReplaceCharRoundTrip(arg, '\n', LineBreak);
  }
}
