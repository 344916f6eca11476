/** String operations of the host language that the converter relies on:
    whitespace classification and stripping, lower-casing, and replacing
    every occurrence of one character by a string. */
module Text {

  /** The characters the host language counts as whitespace when it strips
      a string: the ASCII control whitespace, the information separators,
      NEL, NBSP and the Unicode space separators. */
  predicate IsSpace(c: char)
  {
    c == ' ' || ('\t' <= c <= '\r') || ('\U{1C}' <= c <= '\U{1F}')
    || c == '\U{85}' || c == '\U{A0}' || c == '\U{1680}'
    || ('\U{2000}' <= c <= '\U{200A}') || c == '\U{2028}' || c == '\U{2029}'
    || c == '\U{202F}' || c == '\U{205F}' || c == '\U{3000}'
  }

  predicate AllSpace(s: string)
  {
    forall i :: 0 <= i < |s| ==> IsSpace(s[i])
  }

  predicate StartsWith(s: string, prefix: string)
  {
    |prefix| <= |s| && s[..|prefix|] == prefix
  }

  /** Drops the leading whitespace. */
  function TrimStart(s: string): (r: string)
    ensures |r| <= |s|
  {
    if s != [] && IsSpace(s[0]) then TrimStart(s[1..]) else s
  }

  /** What is left is a suffix of `s` that is empty or starts with a
      non-space, and everything dropped is space. */
  lemma {:induction false} TrimStartSpec(s: string)
    ensures var r := TrimStart(s);
      r == s[|s| - |r|..] && AllSpace(s[..|s| - |r|]) && (r == [] || !IsSpace(r[0]))
  {
    if s != [] && IsSpace(s[0]) {
      TrimStartSpec(s[1..]);
      var r := TrimStart(s[1..]);
      assert s[1..][|s| - 1 - |r|..] == s[|s| - |r|..];
      assert s[..|s| - |r|] == [s[0]] + s[1..][..|s| - 1 - |r|];
    }
  }

  /** Drops the trailing whitespace. */
  function TrimEnd(s: string): (r: string)
    ensures |r| <= |s|
  {
    if s != [] && IsSpace(s[|s| - 1]) then TrimEnd(s[..|s| - 1]) else s
  }

  /** What is left is a prefix of `s` that is empty or ends with a
      non-space, and everything dropped is space. */
  lemma {:induction false} TrimEndSpec(s: string)
    ensures var r := TrimEnd(s);
      r == s[..|r|] && AllSpace(s[|r|..]) && (r == [] || !IsSpace(r[|r| - 1]))
  {
    if s != [] && IsSpace(s[|s| - 1]) {
      var init := s[..|s| - 1];
      TrimEndSpec(init);
      var r := TrimEnd(init);
      assert init[..|r|] == s[..|r|];
      assert s[|r|..] == init[|r|..] + [s[|s| - 1]];
    }
  }

  /** `s.strip()` with no argument. */
  function Strip(s: string): string
  {
    TrimEnd(TrimStart(s))
  }

  lemma TrimStartEmptyIff(s: string)
    ensures TrimStart(s) == [] <==> AllSpace(s)
  {
    TrimStartSpec(s);
    var t := TrimStart(s);
    if t == [] {
      assert s[..|s|] == s;
    } else {
      assert t[0] == s[|s| - |t|];
    }
  }

  lemma TrimEndEmptyIff(s: string)
    ensures TrimEnd(s) == [] <==> AllSpace(s)
  {
    TrimEndSpec(s);
    var t := TrimEnd(s);
    if t == [] {
      assert s[|t|..] == s;
    } else {
      assert t[|t| - 1] == s[|t| - 1];
    }
  }

  /** Stripping leaves nothing exactly when every character is whitespace. */
  lemma StripEmptyIff(s: string)
    ensures Strip(s) == [] <==> AllSpace(s)
  {
    TrimStartSpec(s);
    TrimStartEmptyIff(s);
    TrimEndEmptyIff(TrimStart(s));
  }

  lemma AllSpaceAppend(a: string, b: string)
    ensures AllSpace(a + b) <==> AllSpace(a) && AllSpace(b)
  {
    if AllSpace(a + b) {
      forall i | 0 <= i < |a| ensures IsSpace(a[i]) {
        assert a[i] == (a + b)[i];
      }
      forall i | 0 <= i < |b| ensures IsSpace(b[i]) {
        assert b[i] == (a + b)[|a| + i];
      }
    }
  }

  /** The lower-case form of one character: ASCII capitals and the Latin-1
      capitals (U+00C0 to U+00DE, except the multiplication sign) move down
      by 32; every other character is its own lower case here. */
  function LowerChar(c: char): (r: char)
    ensures !('A' <= r <= 'Z')
  {
    if 'A' <= c <= 'Z' || ('\U{C0}' <= c <= '\U{DE}' && c != '\U{D7}')
    then (c as int + 32) as char
    else c
  }

  /** `s.lower()`, character by character. */
  function Lower(s: string): (r: string)
    ensures |r| == |s|
  {
    seq(|s|, i requires 0 <= i < |s| => LowerChar(s[i]))
  }

  /** Lower-casing twice is lower-casing once. */
  lemma LowerIdempotent(s: string)
    ensures Lower(Lower(s)) == Lower(s)
  {
    forall i | 0 <= i < |s| ensures Lower(Lower(s))[i] == Lower(s)[i] {
      LowerCharIdempotent(s[i]);
    }
  }

  lemma LowerCharIdempotent(c: char)
    ensures LowerChar(LowerChar(c)) == LowerChar(c)
  {
  }

  /** `s.replace(c, r)` for a one-character pattern `c`: every occurrence of
      `c` is replaced by `r`, every other character is kept in place. */
  function ReplaceChar(s: string, c: char, r: string): (t: string)
    ensures c !in s ==> t == s
    ensures c !in r ==> c !in t
  {
    if s == [] then []
    else (if s[0] == c then r else [s[0]]) + ReplaceChar(s[1..], c, r)
  }

  /** The number of positions of `s` that hold `c`. */
  function Occurrences(s: string, c: char): nat
  {
    if s == [] then 0 else (if s[0] == c then 1 else 0) + Occurrences(s[1..], c)
  }

  lemma MulSucc(m: nat, k: int)
    ensures (m + 1) * k == m * k + k
  {
  }

  /** Each occurrence of `c` grows the string by |r| - 1 characters. */
  lemma {:induction false} ReplaceCharLength(s: string, c: char, r: string)
    ensures |ReplaceChar(s, c, r)| == |s| + Occurrences(s, c) * (|r| - 1)
  {
    if s != [] {
      ReplaceCharLength(s[1..], c, r);
      var m := Occurrences(s[1..], c);
      var k := |r| - 1;
      var rest := ReplaceChar(s[1..], c, r);
      assert |rest| == |s| - 1 + m * k;
      if s[0] == c {
        assert ReplaceChar(s, c, r) == r + rest;
        assert Occurrences(s, c) == m + 1;
        MulSucc(m, k);
      } else {
        assert ReplaceChar(s, c, r) == [s[0]] + rest;
        assert Occurrences(s, c) == m;
      }
    }
  }

  /** Replacing distributes over concatenation. */
  lemma {:induction false} ReplaceCharAppend(a: string, b: string, c: char, r: string)
    ensures ReplaceChar(a + b, c, r) == ReplaceChar(a, c, r) + ReplaceChar(b, c, r)
  {
    if a != [] {
      var head := if a[0] == c then r else [a[0]];
      assert (a + b)[0] == a[0];
      assert (a + b)[1..] == a[1..] + b;
      ReplaceCharAppend(a[1..], b, c, r);
      assert ReplaceChar(a + b, c, r) == head + (ReplaceChar(a[1..], c, r) + ReplaceChar(b, c, r));
      assert ReplaceChar(a, c, r) == head + ReplaceChar(a[1..], c, r);
    } else {
      assert a + b == b;
    }
  }

  /** Reads a replaced string back: each occurrence of `r` becomes `c`. */
  function Restore(t: string, c: char, r: string): string
    requires |r| > 0
  {
    if t == [] then []
    else if StartsWith(t, r) then [c] + Restore(t[|r|..], c, r)
    else [t[0]] + Restore(t[1..], c, r)
  }

  /** Replacing loses nothing when the input never contains the first
      character of the replacement: restoring gives the input back. */
  lemma {:induction false} ReplaceCharRoundTrip(s: string, c: char, r: string)
    requires |r| > 0 && r[0] !in s
    ensures Restore(ReplaceChar(s, c, r), c, r) == s
  {
    if s != [] {
      var rest := ReplaceChar(s[1..], c, r);
      assert r[0] !in s[1..] by {
        assert forall x :: x in s[1..] ==> x in s;
      }
      ReplaceCharRoundTrip(s[1..], c, r);
      if s[0] == c {
        var t := r + rest;
        assert StartsWith(t, r) && t[|r|..] == rest;
      } else {
        var t := [s[0]] + rest;
        assert t[0] == s[0] != r[0];
        assert !StartsWith(t, r);
        assert t[1..] == rest;
      }
    }
  }
}
