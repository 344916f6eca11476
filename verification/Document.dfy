/** One pass over a song, as a fold of the handlers over the constructs the
    grammar recognised, in document order; and what the pass guarantees:
    the metadata it returns, how the output grows, and how section blocks
    are opened and closed. */
module Document {
  import opened Text
  import opened LineRender
  import opened Handlers

  /** A construct the grammar recognised, tried in this order at each
      position: an empty line, a song line of one or more boxes, then a
      metadata, comment or section directive. */
  datatype Construct =
    | EmptyLine
    | SongLine(boxes: seq<Box>)
    | Meta(cmd: string, arg: string)
    | Form(cmd: string, arg: string)
    | Env(cmd: string)

  /** The per-song state of a pass: the open section, the metadata, and the
      output fragment. */
  datatype Doc = Doc(state: SongState, title: string, artist: string, output: string)

  const Initial := Doc(None, DefaultTitle, DefaultArtist, "")

  /** What the handler of `c` renders, with the state and metadata it leaves
      (the output is not yet extended). A song line's text test reads the
      text tokens of that line alone. */
  function Handle(d: Doc, c: Construct, wrapChords: bool): (Doc, string)
  {
    match c
    case EmptyLine =>
      var (s, h) := EmptyLineHandler(d.state);
      (d.(state := s), h)
    case SongLine(bs) =>
      var (s, h) := SongLineHandler(d.state, bs, wrapChords, LineHasText(TextTokens(bs)));
      (d.(state := s), h)
    case Meta(cmd, arg) =>
      var (t, a, h) := MetaHandler(d.title, d.artist, cmd, arg);
      (d.(title := t, artist := a), h)
    case Form(cmd, arg) =>
      (d, FormHandler(cmd, arg))
    case Env(cmd) =>
      var (s, h) := EnvHandler(d.state, cmd);
      (d.(state := s), h)
  }

  /** One step of the pass: the rendered markup and a line feed are appended. */
  function Step(d: Doc, c: Construct, wrapChords: bool): Doc
  {
    var (e, h) := Handle(d, c, wrapChords);
    e.(output := d.output + h + "\n")
  }

  function RunFrom(d: Doc, cs: seq<Construct>, wrapChords: bool): Doc
  {
    if cs == [] then d
    else Step(RunFrom(d, cs[..|cs| - 1], wrapChords), cs[|cs| - 1], wrapChords)
  }

  /** The whole conversion of one song. */
  function Convert(cs: seq<Construct>, wrapChords: bool): Doc
  {
    RunFrom(Initial, cs, wrapChords)
  }

  /** The markup each construct renders to, in order. */
  function Renders(d: Doc, cs: seq<Construct>, wrapChords: bool): seq<string>
  {
    if cs == [] then []
    else
      var init := cs[..|cs| - 1];
      Renders(d, init, wrapChords) + [Handle(RunFrom(d, init, wrapChords), cs[|cs| - 1], wrapChords).1]
  }

  /** Each render followed by a line feed, concatenated. */
  function Joined(hs: seq<string>): string
  {
    if hs == [] then "" else Joined(hs[..|hs| - 1]) + hs[|hs| - 1] + "\n"
  }

  /** The output is the starting output followed by every construct's render
      and a line feed, in document order: nothing else is added, and in
      particular no block still open at the end is closed. */
  lemma {:induction false} OutputIsJoinedRenders(d: Doc, cs: seq<Construct>, wrapChords: bool)
    ensures |Renders(d, cs, wrapChords)| == |cs|
    ensures RunFrom(d, cs, wrapChords).output == d.output + Joined(Renders(d, cs, wrapChords))
  {
    if cs != [] {
      var init := cs[..|cs| - 1];
      OutputIsJoinedRenders(d, init, wrapChords);
      var prev := RunFrom(d, init, wrapChords);
      var h := Handle(prev, cs[|cs| - 1], wrapChords).1;
      var hs := Renders(d, cs, wrapChords);
      var before := Renders(d, init, wrapChords);
      assert hs == before + [h];
      assert hs[..|hs| - 1] == before;
      assert RunFrom(d, cs, wrapChords).output == prev.output + h + "\n";
      assert Joined(hs) == Joined(before) + h + "\n";
      assert d.output + Joined(before) + h + "\n" == d.output + (Joined(before) + h + "\n");
    }
  }

  /** The output only grows: the output after a prefix of the constructs is
      a prefix of the final output. */
  lemma {:induction false} OutputGrows(cs: seq<Construct>, i: nat, wrapChords: bool)
    requires i <= |cs|
    ensures StartsWith(Convert(cs, wrapChords).output, Convert(cs[..i], wrapChords).output)
  {
    if i < |cs| {
      var init := cs[..|cs| - 1];
      OutputGrows(init, i, wrapChords);
      assert init[..i] == cs[..i];
      var a := Convert(cs[..i], wrapChords).output;
      var b := Convert(init, wrapChords).output;
      var c := Convert(cs, wrapChords).output;
      assert StartsWith(c, b);
      assert c[..|a|] == b[..|a|];
    } else {
      assert cs[..i] == cs;
    }
  }

  lemma HandleAvoidsBridge(d: Doc, c: Construct, wrapChords: bool)
    requires d.state != Bridge
    ensures Handle(d, c, wrapChords).0.state != Bridge
  {
    match c
    case EmptyLine =>
    case SongLine(bs) =>
    case Meta(cmd, arg) =>
    case Form(cmd, arg) =>
    case Env(cmd) =>
  }

  /** No step ever enters `Bridge` from another state. */
  lemma {:induction false} NeverBridgeFrom(d: Doc, cs: seq<Construct>, wrapChords: bool)
    requires d.state != Bridge
    ensures RunFrom(d, cs, wrapChords).state != Bridge
  {
    if cs != [] {
      NeverBridgeFrom(d, cs[..|cs| - 1], wrapChords);
      HandleAvoidsBridge(RunFrom(d, cs[..|cs| - 1], wrapChords), cs[|cs| - 1], wrapChords);
    }
  }

  /** A pass never reaches the `Bridge` state. */
  lemma NeverBridge(cs: seq<Construct>, wrapChords: bool)
    ensures Convert(cs, wrapChords).state in {None, Verse, Chorus, Tab}
  {
    NeverBridgeFrom(Initial, cs, wrapChords);
  }

  datatype Field = TitleField | ArtistField

  predicate SetsField(c: Construct, f: Field)
  {
    c.Meta? && (if f == TitleField then IsTitleKey(Keyword(c.cmd)) else IsArtistKey(Keyword(c.cmd)))
  }

  /** Reference definition of the returned metadata: the argument of the
      last directive that sets the field, or the default when none does. */
  function LastSet(cs: seq<Construct>, f: Field, default: string): string
  {
    if cs == [] then default
    else if SetsField(cs[|cs| - 1], f) then cs[|cs| - 1].arg
    else LastSet(cs[..|cs| - 1], f, default)
  }

  /** One step sets a field to the directive's argument exactly when the
      construct is a directive for that field, and keeps it otherwise. */
  lemma StepMetadata(d: Doc, c: Construct, wrapChords: bool)
    ensures Step(d, c, wrapChords).title == if SetsField(c, TitleField) then c.arg else d.title
    ensures Step(d, c, wrapChords).artist == if SetsField(c, ArtistField) then c.arg else d.artist
  {
    match c
    case EmptyLine =>
    case SongLine(bs) =>
    case Meta(cmd, arg) =>
      MetaKeysDisjoint(Keyword(cmd));
    case Form(cmd, arg) =>
    case Env(cmd) =>
  }

  lemma {:induction false} MetadataFrom(d: Doc, cs: seq<Construct>, wrapChords: bool)
    ensures RunFrom(d, cs, wrapChords).title == LastSet(cs, TitleField, d.title)
    ensures RunFrom(d, cs, wrapChords).artist == LastSet(cs, ArtistField, d.artist)
  {
    if cs != [] {
      var init := cs[..|cs| - 1];
      MetadataFrom(d, init, wrapChords);
      StepMetadata(RunFrom(d, init, wrapChords), cs[|cs| - 1], wrapChords);
    }
  }

  /** The title and artist a pass returns are those of the last title and
      artist directives, and the defaults when there are none. */
  lemma MetadataIsLastDirective(cs: seq<Construct>, wrapChords: bool)
    ensures Convert(cs, wrapChords).title == LastSet(cs, TitleField, DefaultTitle)
    ensures Convert(cs, wrapChords).artist == LastSet(cs, ArtistField, DefaultArtist)
  {
    MetadataFrom(Initial, cs, wrapChords);
  }

  lemma {:induction false} LastSetAbsent(cs: seq<Construct>, f: Field, default: string)
    requires forall i :: 0 <= i < |cs| ==> !SetsField(cs[i], f)
    ensures LastSet(cs, f, default) == default
  {
    if cs != [] {
      LastSetAbsent(cs[..|cs| - 1], f, default);
    }
  }

  lemma {:induction false} LastSetAppend(a: seq<Construct>, b: seq<Construct>, f: Field, default: string)
    requires forall i :: 0 <= i < |b| ==> !SetsField(b[i], f)
    ensures LastSet(a + b, f, default) == LastSet(a, f, default)
  {
    if b != [] {
      var init := b[..|b| - 1];
      assert (a + b)[..|a + b| - 1] == a + init;
      assert (a + b)[|a + b| - 1] == b[|b| - 1];
      LastSetAppend(a, init, f, default);
    } else {
      assert a + b == a;
    }
  }

  /** A later title directive overwrites an earlier one: the title returned
      is the argument of the last one. */
  lemma LaterTitleWins(before: seq<Construct>, cmd: string, arg: string, after: seq<Construct>, wrapChords: bool)
    requires IsTitleKey(Keyword(cmd))
    requires forall i :: 0 <= i < |after| ==> !SetsField(after[i], TitleField)
    ensures Convert(before + [Meta(cmd, arg)] + after, wrapChords).title == arg
  {
    MetadataIsLastDirective(before + [Meta(cmd, arg)] + after, wrapChords);
    LastSetAppend(before + [Meta(cmd, arg)], after, TitleField, DefaultTitle);
  }

  /** Without any title or artist directive the defaults are returned. */
  lemma DefaultMetadata(cs: seq<Construct>, wrapChords: bool)
    requires forall i :: 0 <= i < |cs| ==> !cs[i].Meta?
    ensures Convert(cs, wrapChords).title == DefaultTitle
    ensures Convert(cs, wrapChords).artist == DefaultArtist
  {
    MetadataIsLastDirective(cs, wrapChords);
    LastSetAbsent(cs, TitleField, DefaultTitle);
    LastSetAbsent(cs, ArtistField, DefaultArtist);
  }

  /** A render closes a block when it starts with the closing tag. */
  predicate ClosesBlock(h: string)
  {
    StartsWith(h, DivClose)
  }

  function AfterClose(h: string): string
  {
    if ClosesBlock(h) then h[|DivClose|..] else h
  }

  /** A render opens a block when, after any closing tag, it starts with a
      verse, chorus or tab opening tag. */
  predicate OpensBlock(h: string)
  {
    var r := AfterClose(h);
    StartsWith(r, VerseOpen) || StartsWith(r, ChorusOpen) || StartsWith(r, TabOpen)
  }

  /** The number of blocks a state has open. */
  function Depth(s: SongState): nat
  {
    if s == None then 0 else 1
  }

  lemma Differs(s: string, p: string, i: nat)
    requires i < |s| && i < |p| && s[i] != p[i]
    ensures !StartsWith(s, p)
  {
  }

  /** A tag that begins `<div class="` followed by a class whose first
      letters are not those of verse, chorus or tab. Position 1 is the `d`
      of `div`, and positions 12 and 13 are the first two letters of the
      class name, just after the eleven characters of `<div class="`; the
      first letters of the class are what tell `VerseOpen`, `ChorusOpen`
      and `TabOpen` apart from every other tag, and the `d` what tells any
      opening tag apart from `DivClose`. */
  predicate PlainTag(h: string)
  {
    |h| > 13 && h[1] == 'd' && h[12] != 'v'
    && (h[12] != 'c' || h[13] != 'h')
    && (h[12] != 't' || h[13] != 'a')
  }

  /** The tags of song lines, metadata and comments are plain. */
  lemma PlainTags()
    ensures PlainTag(SonglineOpen) && PlainTag(TitleOpen) && PlainTag(ArtistOpen)
    ensures PlainTag(CommentOpen) && PlainTag(CommentBoxOpen)
  {
  }

  /** A render that begins with a plain tag neither closes nor opens a
      block. */
  lemma PlainDiv(h: string)
    requires PlainTag(h)
    ensures !ClosesBlock(h) && !OpensBlock(h)
  {
    Differs(h, DivClose, 1);
    if h[12] == 'c' { Differs(h, ChorusOpen, 13); } else { Differs(h, ChorusOpen, 12); }
    if h[12] == 't' { Differs(h, TabOpen, 13); } else { Differs(h, TabOpen, 12); }
    Differs(h, VerseOpen, 12);
  }

  /** A container `open + body + close` whose opening tag is plain is
      itself plain. */
  lemma PlainContainer(open: string, body: string, close: string)
    requires PlainTag(open)
    ensures !ClosesBlock(open + body + close) && !OpensBlock(open + body + close)
  {
    var h := open + body + close;
    assert h[1] == open[1] && h[12] == open[12] && h[13] == open[13];
    PlainDiv(h);
  }

  /** What a render does to the block structure, given the states before
      and after it: it closes a block exactly when `closes`, it opens one
      only into a new open state that nothing was left open under, and the
      depth of the new state accounts for both. */
  predicate MarkersAgree(before: SongState, after: SongState, h: string, closes: bool)
  {
    (ClosesBlock(h) <==> closes)
    && (OpensBlock(h) <==> after != None && (before == None || ClosesBlock(h)))
    && Depth(after) + (if ClosesBlock(h) then 1 else 0) == Depth(before) + (if OpensBlock(h) then 1 else 0)
  }

  lemma EmptyLineMarkers(s: SongState)
    ensures var (t, h) := EmptyLineHandler(s); MarkersAgree(s, t, h, s == Verse)
  {
    var (t, h) := EmptyLineHandler(s);
    if s == Verse {
      assert StartsWith(h, DivClose);
      assert AfterClose(h) == "\n" + LineBreak;
      Differs(AfterClose(h), VerseOpen, 0);
      Differs(AfterClose(h), ChorusOpen, 0);
      Differs(AfterClose(h), TabOpen, 0);
    } else {
      assert h == LineBreak;
    }
  }

  lemma SongLineMarkers(s: SongState, bs: seq<Box>, wrapChords: bool, lineHasText: bool)
    ensures var (t, h) := SongLineHandler(s, bs, wrapChords, lineHasText); MarkersAgree(s, t, h, false)
  {
    var body := SonglineHtml(bs, wrapChords, lineHasText);
    if s == None {
      assert SongLineHandler(s, bs, wrapChords, lineHasText) == (Verse, VerseOpen + body);
      OpenTag(VerseOpen, body);
    } else {
      assert SongLineHandler(s, bs, wrapChords, lineHasText) == (s, body);
      PlainTags();
      PlainContainer(SonglineOpen, BoxesHtml(bs, wrapChords, lineHasText), DivClose);
      PlainAgrees(s, body);
    }
  }

  /** The empty render neither closes nor opens a block. */
  lemma EmptyRender()
    ensures !ClosesBlock("") && !OpensBlock("")
  {
    assert AfterClose("") == "";
  }

  /** A render that neither closes nor opens a block and leaves the state
      alone agrees with the block structure. */
  lemma PlainAgrees(s: SongState, h: string)
    requires !ClosesBlock(h) && !OpensBlock(h)
    ensures MarkersAgree(s, s, h, false)
  {
  }

  /** A render that starts with the opening tag of a section opens a block
      and closes none. */
  lemma OpenTag(open: string, rest: string)
    requires open == VerseOpen || open == ChorusOpen || open == TabOpen
    ensures var h := open + rest; !ClosesBlock(h) && AfterClose(h) == h && OpensBlock(h)
  {
    var h := open + rest;
    assert h[1] == open[1];
    Differs(h, DivClose, 1);
    assert h[..|open|] == open;
  }

  /** A render that starts with the closing tag closes a block, and what
      follows the tag is what is looked at for an opening. */
  lemma CloseThen(rest: string)
    ensures ClosesBlock(DivClose + rest) && AfterClose(DivClose + rest) == rest
  {
    var h := DivClose + rest;
    assert h[..|DivClose|] == DivClose;
    assert h[|DivClose|..] == rest;
  }

  /** A section render: the closing tag when a section was open, then the
      opening tag of the new section, if any. */
  lemma EnvAgrees(s: SongState, t: SongState, open: string)
    requires t == None <==> open == ""
    requires open == "" || open == ChorusOpen || open == TabOpen
    ensures MarkersAgree(s, t, (if s != None then DivClose else "") + open, s != None)
  {
    var h := (if s != None then DivClose else "") + open;
    if open != "" {
      OpenTag(open, "");
      assert open + "" == open;
    } else {
      EmptyRender();
    }
    if s != None {
      CloseThen(open);
    } else {
      assert h == open;
    }
  }

  lemma EnvMarkers(s: SongState, cmd: string)
    ensures var (t, h) := EnvHandler(s, cmd); MarkersAgree(s, t, h, s != None)
  {
    var k := Keyword(cmd);
    var close := if s != None then DivClose else "";
    if IsChorusStart(k) {
      assert EnvHandler(s, cmd) == (Chorus, close + ChorusOpen);
      EnvAgrees(s, Chorus, ChorusOpen);
    } else if IsTabStart(k) {
      assert EnvHandler(s, cmd) == (Tab, close + TabOpen);
      EnvAgrees(s, Tab, TabOpen);
    } else {
      assert EnvHandler(s, cmd) == (None, close);
      assert close + "" == close;
      EnvAgrees(s, None, "");
    }
  }

  lemma MetaMarkers(s: SongState, title: string, artist: string, cmd: string, arg: string)
    ensures MarkersAgree(s, s, MetaHandler(title, artist, cmd, arg).2, false)
  {
    var h := MetaHandler(title, artist, cmd, arg).2;
    var k := Keyword(cmd);
    if IsTitleKey(k) {
      assert h == TitleOpen + arg + DivClose;
      PlainTags();
      PlainContainer(TitleOpen, arg, DivClose);
    } else if IsArtistKey(k) {
      assert h == ArtistOpen + arg + DivClose;
      PlainTags();
      PlainContainer(ArtistOpen, arg, DivClose);
    } else {
      assert h == "";
      EmptyRender();
    }
    PlainAgrees(s, h);
  }

  lemma FormMarkers(s: SongState, cmd: string, arg: string)
    ensures MarkersAgree(s, s, FormHandler(cmd, arg), false)
  {
    var h := FormHandler(cmd, arg);
    var k := Keyword(cmd);
    var body := ReplaceChar(arg, '\n', LineBreak);
    if IsCommentKey(k) {
      assert h == CommentOpen + body + DivClose;
      PlainTags();
      PlainContainer(CommentOpen, body, DivClose);
    } else if IsCommentBoxKey(k) {
      CommentKeysDisjoint(k);
      assert h == CommentBoxOpen + body + DivClose;
      PlainTags();
      PlainContainer(CommentBoxOpen, body, DivClose);
    } else {
      assert h == "";
      EmptyRender();
    }
    PlainAgrees(s, h);
  }

  /** How one step moves the block structure: it closes a block only when
      one is open and the construct is a section directive or an empty line
      ending a verse; it opens one only when none is left open before it;
      and the depth of the new state accounts for both. */
  lemma StepMarkers(d: Doc, c: Construct, wrapChords: bool)
    ensures var (e, h) := Handle(d, c, wrapChords);
      MarkersAgree(d.state, e.state, h, d.state != None && (c.Env? || (c.EmptyLine? && d.state == Verse)))
  {
    match c
    case EmptyLine => EmptyLineMarkers(d.state);
    case SongLine(bs) => SongLineMarkers(d.state, bs, wrapChords, LineHasText(TextTokens(bs)));
    case Meta(cmd, arg) => MetaMarkers(d.state, d.title, d.artist, cmd, arg);
    case Form(cmd, arg) => FormMarkers(d.state, cmd, arg);
    case Env(cmd) => EnvMarkers(d.state, cmd);
  }

  function CountClosing(hs: seq<string>): nat
  {
    if hs == [] then 0 else CountClosing(hs[..|hs| - 1]) + (if ClosesBlock(hs[|hs| - 1]) then 1 else 0)
  }

  function CountOpening(hs: seq<string>): nat
  {
    if hs == [] then 0 else CountOpening(hs[..|hs| - 1]) + (if OpensBlock(hs[|hs| - 1]) then 1 else 0)
  }

  /** Blocks never nest and are never closed twice: over any pass the
      renders open exactly as many blocks as they close, plus one when a
      block is still open at the end (it is left open). */
  lemma {:induction false} BlocksBalanced(cs: seq<Construct>, wrapChords: bool)
    ensures CountOpening(Renders(Initial, cs, wrapChords))
         == CountClosing(Renders(Initial, cs, wrapChords)) + Depth(Convert(cs, wrapChords).state)
  {
    if cs != [] {
      var init := cs[..|cs| - 1];
      BlocksBalanced(init, wrapChords);
      var hs := Renders(Initial, cs, wrapChords);
      assert hs[..|hs| - 1] == Renders(Initial, init, wrapChords);
      StepMarkers(Convert(init, wrapChords), cs[|cs| - 1], wrapChords);
    }
  }

  /** One section directive as a step. */
  lemma EnvStep(d: Doc, cmd: string, wrapChords: bool)
    ensures Step(d, Env(cmd), wrapChords)
         == d.(state := EnvHandler(d.state, cmd).0, output := d.output + EnvHandler(d.state, cmd).1 + "\n")
  {
  }

  /** Two constructs run one after the other. */
  lemma RunTwo(d: Doc, a: Construct, b: Construct, wrapChords: bool)
    ensures RunFrom(d, [a, b], wrapChords) == Step(Step(d, a, wrapChords), b, wrapChords)
  {
    var cs := [a, b];
    assert cs[..1] == [a] && [a][..0] == [];
    assert RunFrom(d, [a], wrapChords) == Step(RunFrom(d, [], wrapChords), a, wrapChords);
  }

  /** A chorus opened and at once ended (say `{soc}` then `{eoc}`) renders
      its opening tag directly followed by its closing tag, and leaves no
      section open. */
  lemma EmptyChorus(d: Doc, start: string, end: string, wrapChords: bool)
    requires IsChorusStart(Keyword(start))
    requires !IsChorusStart(Keyword(end)) && !IsTabStart(Keyword(end))
    ensures var r := RunFrom(d, [Env(start), Env(end)], wrapChords);
      r.state == None
      && r.output == d.output + (if d.state != None then DivClose else "") + ChorusOpen + "\n" + DivClose + "\n"
  {
    var close := if d.state != None then DivClose else "";
    RunTwo(d, Env(start), Env(end), wrapChords);
    EnvStep(d, start, wrapChords);
    assert EnvHandler(d.state, start) == (Chorus, close + ChorusOpen);
    var first := Step(d, Env(start), wrapChords);
    assert first.state == Chorus && first.output == d.output + (close + ChorusOpen) + "\n";
    EnvStep(first, end, wrapChords);
    assert EnvHandler(Chorus, end) == (None, DivClose);
    assert first.output + DivClose + "\n" == d.output + close + ChorusOpen + "\n" + DivClose + "\n";
  }

  lemma EscapeTrailingBlank(w: string)
    requires ' ' !in w
    ensures Escape(w + " ") == w + Nbsp
  {
    ReplaceCharAppend(w, " ", ' ', Nbsp);
    assert ReplaceChar(" ", ' ', Nbsp) == Nbsp + ReplaceChar([], ' ', Nbsp);
  }

  lemma OneCell(c: Cell)
    ensures CellsHtml([c]) == CellHtml(c)
  {
    assert [c][1..] == [];
    assert CellHtml(c) + "" == CellHtml(c);
  }

  lemma TwoCells(c: Cell, t: Cell)
    ensures CellsHtml([c, t]) == CellHtml(c) + CellHtml(t)
  {
    var cs := [c, t];
    assert cs[1..] == [t] && cs[1..][1..] == [];
    assert CellsHtml([t]) == CellHtml(t) + "";
    assert CellHtml(t) + "" == CellHtml(t);
  }

  /** A box of a bracketed chord glued to text, on a line that has text. */
  lemma ChordTextBox(name: string, text: string)
    ensures BoxHtml(ChordText("[" + name + "]", text), false, true)
         == ChordboxOpen + ((ChordOpen + name + DivClose) + (TextOpen + Escape(text) + DivClose)) + DivClose
  {
    ChordLabelOfBracketed(name);
    var cells := BoxCells(ChordText("[" + name + "]", text), false, true);
    assert cells == [ChordCell(name), TextCell(Escape(text))];
    TwoCells(ChordCell(name), TextCell(Escape(text)));
  }

  lemma TwoWordsHaveText(c1: string, w1: string, c2: string, w2: string)
    requires w1 != [] && !IsSpace(w1[0])
    ensures LineHasText(TextTokens([ChordText(c1, w1 + " "), ChordText(c2, w2)]))
  {
    var bs := [ChordText(c1, w1 + " "), ChordText(c2, w2)];
    assert bs[..1] == [bs[0]] && bs[..1][..0] == [];
    var tokens := TextTokens(bs);
    assert TextTokens(bs[..1]) == TextTokens(bs[..1][..0]) + (w1 + " ");
    assert tokens == TextTokens(bs[..1]) + w2;
    assert tokens == "" + (w1 + " ") + w2;
    assert tokens[0] == w1[0];
    StripEmptyIff(tokens);
  }

  lemma OneBoxHtml(b: Box, wrapChords: bool, lineHasText: bool)
    ensures BoxesHtml([b], wrapChords, lineHasText) == BoxHtml(b, wrapChords, lineHasText)
  {
    var one := [b];
    assert one[..0] == [];
  }

  lemma TwoBoxesHtml(b1: Box, b2: Box, wrapChords: bool, lineHasText: bool)
    ensures BoxesHtml([b1, b2], wrapChords, lineHasText)
         == BoxHtml(b1, wrapChords, lineHasText) + BoxHtml(b2, wrapChords, lineHasText)
  {
    var bs := [b1, b2];
    assert bs[..1] == [b1];
    OneBoxHtml(b1, wrapChords, lineHasText);
  }

  /** A song that starts with a title directive: the title div is the first
      output, the title is set and the artist keeps its default. */
  lemma TitleFirst(arg: string, wrapChords: bool)
    ensures RunFrom(Initial, [Meta("title", arg)], wrapChords)
         == Doc(None, arg, DefaultArtist, TitleOpen + arg + DivClose + "\n")
  {
    KeywordOfCanonical("title");
    var cs := [Meta("title", arg)];
    assert cs[..0] == [];
    assert RunFrom(Initial, cs[..0], wrapChords) == Initial;
    assert "" + (TitleOpen + arg + DivClose) + "\n" == TitleOpen + arg + DivClose + "\n";
  }

  lemma LineFromNone(d: Doc, bs: seq<Box>, wrapChords: bool)
    requires d.state == None
    ensures Step(d, SongLine(bs), wrapChords)
         == d.(state := Verse, output := d.output + (VerseOpen + SonglineHtml(bs, wrapChords, LineHasText(TextTokens(bs)))) + "\n")
  {
    var h := VerseOpen + SonglineHtml(bs, wrapChords, LineHasText(TextTokens(bs)));
    assert Handle(d, SongLine(bs), wrapChords) == (d.(state := Verse), h);
  }

  /** The songline of two bracketed chords, each glued to a word, the
      first word followed by a blank, with chords unwrapped. */
  lemma TwoChordLine(c1: string, w1: string, c2: string, w2: string)
    requires w1 != [] && !IsSpace(w1[0]) && ' ' !in w1 && ' ' !in w2
    ensures var bs := [ChordText("[" + c1 + "]", w1 + " "), ChordText("[" + c2 + "]", w2)];
      SonglineHtml(bs, false, LineHasText(TextTokens(bs)))
      == SonglineOpen
         + ((ChordboxOpen + ((ChordOpen + c1 + DivClose) + (TextOpen + (w1 + Nbsp) + DivClose)) + DivClose)
            + (ChordboxOpen + ((ChordOpen + c2 + DivClose) + (TextOpen + w2 + DivClose)) + DivClose))
         + DivClose
  {
    var b1 := ChordText("[" + c1 + "]", w1 + " ");
    var b2 := ChordText("[" + c2 + "]", w2);
    TwoWordsHaveText("[" + c1 + "]", w1, "[" + c2 + "]", w2);
    EscapeTrailingBlank(w1);
    ChordTextBox(c1, w1 + " ");
    ChordTextBox(c2, w2);
    var bs := [b1, b2];
    assert LineHasText(TextTokens(bs));
    TwoBoxesHtml(b1, b2, false, true);
    assert BoxesHtml(bs, false, true) == BoxHtml(b1, false, true) + BoxHtml(b2, false, true);
    assert Escape(w2) == w2;
  }

  /** A title directive followed by one line of two chords, each glued to a
      word, with chords unwrapped (the shape of "{title: Test}" then
      "[C]Hello [G]world"). The title is the argument exactly as written,
      the blank after the colon included; the blank after the first word
      becomes non-breaking; the verse the line opens is still open at the
      end. */
  lemma TitleThenChordLine(arg: string, c1: string, w1: string, c2: string, w2: string)
    requires w1 != [] && !IsSpace(w1[0]) && ' ' !in w1 && ' ' !in w2
    ensures var bs := [ChordText("[" + c1 + "]", w1 + " "), ChordText("[" + c2 + "]", w2)];
      Convert([Meta("title", arg), SongLine(bs)], false)
      == Doc(Verse, arg, DefaultArtist,
             TitleOpen + arg + DivClose + "\n"
             + (VerseOpen
                + (SonglineOpen
                   + ((ChordboxOpen + ((ChordOpen + c1 + DivClose) + (TextOpen + (w1 + Nbsp) + DivClose)) + DivClose)
                      + (ChordboxOpen + ((ChordOpen + c2 + DivClose) + (TextOpen + w2 + DivClose)) + DivClose))
                   + DivClose))
             + "\n")
  {
    var bs := [ChordText("[" + c1 + "]", w1 + " "), ChordText("[" + c2 + "]", w2)];
    var cs := [Meta("title", arg), SongLine(bs)];
    TitleFirst(arg, false);
    var first := RunFrom(Initial, [Meta("title", arg)], false);
    assert cs[..|cs| - 1] == [Meta("title", arg)];
    LineFromNone(first, bs, false);
    TwoChordLine(c1, w1, c2, w2);
  }
}
