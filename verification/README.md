# chordpro2html, modelled in Dafny

`chordpro2html` converts one song written in a ChordPro-like notation into an
HTML fragment and returns it together with the song's title and artist. The
grammar recognises, at each position of the song, an empty line, a song line
(a run of chord boxes), or one of three kinds of directive in braces: a
metadata directive (`{title: …}`, `{artist: …}`), a comment directive
(`{comment: …}`, `{comment_box: …}`) or a section directive (`{soc}`,
`{eoc}`, `{sot}`, `{eot}` and their long forms). Each recognised construct
calls a handler that returns a piece of HTML. The handlers share the open
section (none, verse, chorus, tab or bridge), a text accumulator, and the
title and artist. The pass appends each piece and a line feed to the output.

The project models that pass after tokenisation:

- `Text.dfy` holds the host-language string operations the handlers use:
  `strip()`, `lower()`, `replace()` and the `[1:-1]` slice.
- `LineRender.dfy` renders one song line.
  - A line is a sequence of `Box` values: a chord with blanks after it, a
    chord glued to text, a chord alone, or text alone.
  - The accumulator decides whether text cells and `&nbsp;` placeholder
    cells are emitted.
- `Handlers.dfy` holds the section state machine and the handlers for the
  three directive kinds, as functions.
- `Document.dfy` holds the pure model of a pass.
  - A pass is a fold of the handlers over a sequence of `Construct` values.
  - Its lemmas cover the output, the returned metadata, the section blocks
    and the unreachable `Bridge` state.
- `Converter.dfy` is the converter as the source writes it.
  - Class `Pass` has the shared variables as fields.
  - Its handler methods update those fields in place.
  - The song-line method renders its boxes in a loop.
  - The output loop appends each render.
  - Each handler method is proved equal to the pure definition above. The
    text handler has no pure counterpart: it is specified by the append it
    makes, and `Dispatch` ties the accumulator to the line's text tokens.
  - `ChordproToHtml` returns the three results.

The command-line flag for showing chords with their brackets is the
parameter `wrapChords`.

Two behaviours of the code are easy to misread, and the model follows the
code in both:

- The grammar sets pyparsing's default whitespace to nothing, and the
  argument of a directive is everything up to `}`. So `{title: Test}` sets
  the title to `" Test"`, blank included, and shows that string.
- The blank between a word and the next chord belongs to the word's text
  token. So `[C]Hello [G]world` renders the text cells `Hello&nbsp;` and
  `world`. A line whose text tokens are all blank has no text, so no chord
  gets a text cell. A run of blanks on its own, as in an indented chord
  line, still shows as a text cell of `&nbsp;`s before the chord.

`Document.TitleThenChordLine` states the second case exactly, and
`LineRender.IndentedChordLine` the indented chord line.

## Model

| member | source | states |
|---|---|---|
| Text.TrimStartSpec | chopro-epub.py:134 | what `strip()` removes at the front is whitespace, and what is left is a suffix that is empty or starts with a non-space |
| Text.TrimEndSpec | chopro-epub.py:134 | what `strip()` removes at the back is whitespace, and what is left is a prefix that is empty or ends with a non-space |
| Text.TrimStartEmptyIff | chopro-epub.py:79 | stripping the front leaves nothing exactly when the string is all whitespace |
| Text.TrimEndEmptyIff | chopro-epub.py:79 | stripping the back leaves nothing exactly when the string is all whitespace |
| Text.StripEmptyIff | chopro-epub.py:79 | `s.strip()` is empty exactly when every character of `s` is whitespace |
| Text.LowerChar | chopro-epub.py:134 | a lower-cased character is never an ASCII capital |
| Text.Lower | chopro-epub.py:134 | `lower()` keeps the length |
| Text.LowerIdempotent | chopro-epub.py:134 | lower-casing twice is the same as lower-casing once |
| Text.ReplaceChar | chopro-epub.py:155 | a string without the replaced character comes back unchanged, and the result has none of it when the replacement has none |
| Text.ReplaceCharLength | chopro-epub.py:155 | each occurrence of the replaced character adds the replacement's length minus one |
| Text.ReplaceCharAppend | chopro-epub.py:100 | replacing distributes over concatenation |
| Text.ReplaceCharRoundTrip | chopro-epub.py:155 | replacing can be undone whenever the input has no copy of the replacement's first character |
| LineRender.TextTokensAllSpace | chopro-epub.py:127-130 | the accumulator is all blank exactly when every text token of the line is |
| LineRender.LineHasTextIff | chopro-epub.py:79 | a line has text exactly when one of its boxes holds a text token with a non-blank character; a chord's trailing blank run is never counted |
| LineRender.Inner | chopro-epub.py:96 | `s[1:-1]` is `s` without its first and last characters, and is empty when `s` has fewer than two |
| LineRender.ChordLabelOfBracketed | chopro-epub.py:93-96 | the chord `[name]` shows as `name` when chords are not wrapped and as `[name]` when they are |
| LineRender.Escape | chopro-epub.py:100 | escaped text has no blank, and text without blanks is unchanged |
| LineRender.EscapeRoundTrip | chopro-epub.py:116 | text without `&` is recovered from its escaped form |
| LineRender.ChordBoxCells | chopro-epub.py:92-111 | a chord box shows its chord first; it then has one text cell exactly when the line has text, holding the escaped text or `&nbsp;` for a chord alone |
| LineRender.ChordCellsPaired | chopro-epub.py:97-111 | on a line with text, every chord cell is directly followed by a text cell, so the chords stay aligned with the lyrics |
| LineRender.ChordOnlyLineHasNoTextCells | chopro-epub.py:79-111 | a line of chords, with or without blanks after them, has an empty accumulator and no text, and renders only chord cells |
| LineRender.NoTextLineTextCells | chopro-epub.py:97-117 | on a line without text, the text cells are exactly one per non-empty box of text alone; no chord box contributes one |
| LineRender.IndentedChordLine | chopro-epub.py:114-117 | a line of blanks then a chord has no text, yet renders the blanks as an escaped text cell before the chord cell |
| LineRender.TextCellsHaveNoBlanks | chopro-epub.py:100-116 | no text cell of any line holds a raw blank |
| Handlers.KeywordOfCanonical | chopro-epub.py:196-197 | the lower-case commands the grammar accepts are unchanged by `strip().lower()` |
| Handlers.SongLineShape | chopro-epub.py:83-124 | a song line opens a verse exactly when no section is open and keeps any other state; its render is the verse tag in that case, then one songline container |
| Handlers.FormHandler | chopro-epub.py:150-162 | a comment or comment box shows as a div of that class with no line feed left; any other command shows nothing |
| Handlers.CommentRoundTrip | chopro-epub.py:154-156 | the comment text is read back from the comment div when it has no `<` |
| Document.OutputIsJoinedRenders | chopro-epub.py:239-240 | the output is each construct's render plus a line feed, in document order, and nothing else; no open block is closed at the end |
| Document.OutputGrows | chopro-epub.py:239-240 | the output after any prefix of the song is a prefix of the final output |
| Document.HandleAvoidsBridge | chopro-epub.py:69-148 | no handler moves into `Bridge` |
| Document.NeverBridgeFrom | chopro-epub.py:132-148 | from a state other than `Bridge`, no sequence of constructs reaches `Bridge` |
| Document.NeverBridge | chopro-epub.py:63 | a pass only ever ends in none, verse, chorus or tab |
| Document.StepMetadata | chopro-epub.py:164-177 | one construct sets the title or the artist to its argument exactly when it is a directive for that field |
| Document.MetadataFrom | chopro-epub.py:164-177 | after any run, each field holds the argument of the last directive that set it, or its starting value |
| Document.MetadataIsLastDirective | chopro-epub.py:59-60 | the returned title and artist are those of the last title and artist directives, or the defaults |
| Document.LaterTitleWins | chopro-epub.py:169-171 | a later title directive overwrites an earlier one |
| Document.DefaultMetadata | chopro-epub.py:59-60 | a song without metadata directives returns "Unknown Title" and "Unknown Artist" |
| Document.EmptyLineMarkers | chopro-epub.py:69-75 | an empty line closes a block exactly when a verse is open, opens none, and moves the state to match |
| Document.SongLineMarkers | chopro-epub.py:83-87 | a song line closes no block and opens a verse block exactly when no section is open |
| Document.EnvMarkers | chopro-epub.py:137-146 | a section directive closes a block exactly when a section is open, then opens one exactly when it enters chorus or tab |
| Document.MetaMarkers | chopro-epub.py:168-177 | a metadata render neither opens nor closes a block |
| Document.FormMarkers | chopro-epub.py:153-162 | a comment render neither opens nor closes a block |
| Document.StepMarkers | chopro-epub.py:69-177 | one step closes a block only when one is open and the construct is a section directive or an empty line after a verse; it opens one only after any open one is closed; the open depth stays consistent |
| Document.BlocksBalanced | chopro-epub.py:239-243 | over a whole pass the renders open as many blocks as they close, plus one if a section is still open at the end |
| Document.EmptyChorus | chopro-epub.py:137-146 | a chorus start followed by a chorus end renders the chorus opening tag, then its closing tag, and leaves no section open |
| Document.EscapeTrailingBlank | chopro-epub.py:100 | a word followed by one blank escapes to the word followed by `&nbsp;` |
| Document.ChordTextBox | chopro-epub.py:92-102 | a bracketed chord glued to text, on a line with text, renders a chord cell with the bare name, then the escaped text cell |
| Document.TwoWordsHaveText | chopro-epub.py:79 | a line whose first word starts with a non-blank has text |
| Document.TitleFirst | chopro-epub.py:169-171 | a leading title directive sets the title to its argument, keeps the default artist and opens no section |
| Document.LineFromNone | chopro-epub.py:83-87 | a song line with no section open appends the verse opening tag and the songline, and enters the verse |
| Document.TwoChordLine | chopro-epub.py:87-124 | `[c1]w1 [c2]w2` without wrapping renders the two chord names, `w1&nbsp;` and `w2` in two chordboxes |
| Document.TitleThenChordLine | chopro-epub.py:239-240 | `{title: arg}` then `[c1]w1 [c2]w2` returns the title `arg` and renders the title div, then a verse left open around that songline |
| Converter.Pass.constructor | chopro-epub.py:59-65 | a pass starts with no section open, the default metadata, an empty accumulator and no output |
| Converter.Pass.HandleEmptyLine | chopro-epub.py:69-75 | an empty line closes an open verse with `</div>\n<br>`; any other state is kept and `<br>` is returned |
| Converter.Pass.HandleText | chopro-epub.py:127-130 | a text token is appended to the accumulator |
| Converter.Pass.HandleSongLine | chopro-epub.py:77-125 | the accumulator is read and cleared, a verse is opened when none is, and the render equals the pure song-line handler |
| Converter.Pass.RenderBoxes | chopro-epub.py:88-124 | the box loop yields the boxes' chordbox containers in line order |
| Converter.Pass.BoxCellsHtml | chopro-epub.py:92-121 | the cells of one box match the pure cell model, including the empty unhandled case |
| Converter.Pass.HandleEnvDirective | chopro-epub.py:132-148 | a section directive starts with `</div>` when a section was open, and enters chorus, tab or none as its keyword says |
| Converter.Pass.HandleMetaDirective | chopro-epub.py:164-177 | a title or artist directive sets only that field; an unknown command changes nothing and shows nothing |
| Converter.Pass.Dispatch | chopro-epub.py:221-233 | a song line's text tokens reach the accumulator first, then the handler; the accumulator is empty again after each construct |
| Converter.Pass.Run | chopro-epub.py:239-240 | the loop over the constructs leaves the pass in the state of the pure fold |
| Converter.ChordproToHtml | chopro-epub.py:58-243 | the returned fragment is the pure fold's output; the title and artist are those of the last directives that set them |

## Left out

- The pyparsing grammar is not modelled. That covers `searchString` skipping unmatched text, `SkipTo`, line starts and ends, and the chord and lyric character sets (chopro-epub.py:180-237). The model starts from the sequence of recognised constructs, and `Box`'s four variants follow the four alternatives of a chord box.
- Parse actions that fire inside an alternative the parser later abandons are not modelled. For example, a text token on a line that then fails to end would leave text in the accumulator for the next line. The model feeds each song line's text tokens only when that line is recognised.
- Whether the tokeniser reports one more empty line at the very end of an input that ends in a line feed is part of the grammar, which is not modelled; `Document.TitleThenChordLine` is stated for the constructs it lists, and an extra trailing `EmptyLine` would close the open verse as `Document.EmptyLineMarkers` says.
- The `logging.info` calls in the unhandled branches are not modelled; those branches emit nothing.
- Command-line parsing is left out; `args.wrap_chords` is the parameter `wrapChords`.
- Reading song files, the existence checks and assembling and writing the epub (chopro-epub.py:250-311) are I/O and library glue, and are left out.
- Removing punctuation from output file names and the per-song HTML skeleton (chopro-epub.py:55, 246, 275, 282) are packaging, and are left out.
- Text.LowerChar and Text.Lower: only ASCII and Latin-1 capitals are lowered. The commands the grammar accepts are lower-case ASCII, so nothing the handlers compare is affected.
