/**
 * String primitives of the JavaScript runtime that the lyric engine relies on:
 * `trim`, `split` on one character, `join`, `startsWith`/`endsWith` and a global
 * replace of a literal pattern. Strings are sequences of characters.
 */
module Text {

  /** The characters `String.prototype.trim` removes: ECMAScript WhiteSpace
      (tab, vertical tab, form feed, space, no-break space, BOM and the Zs
      category) and LineTerminator (LF, CR, line and paragraph separators). */
  predicate IsWhitespace(c: char)
  {
    || c == '\t' || c == '\U{B}' || c == '\U{C}' || c == ' '
    || c == '\U{A0}' || c == '\U{FEFF}' || c == '\U{1680}'
    || ('\U{2000}' <= c <= '\U{200A}') || c == '\U{202F}' || c == '\U{205F}' || c == '\U{3000}'
    || c == '\n' || c == '\r' || c == '\U{2028}' || c == '\U{2029}'
  }

  predicate AllWhitespace(s: string)
  {
    forall i :: 0 <= i < |s| ==> IsWhitespace(s[i])
  }

  function TrimStart(s: string): (r: string)
    ensures |r| <= |s|
  {
    if |s| > 0 && IsWhitespace(s[0]) then TrimStart(s[1..]) else s
  }

  function TrimEnd(s: string): (r: string)
    ensures |r| <= |s|
  {
    if |s| > 0 && IsWhitespace(s[|s| - 1]) then TrimEnd(s[..|s| - 1]) else s
  }

  /** `s.trim()` */
  function Trim(s: string): string
  {
    TrimEnd(TrimStart(s))
  }

  /** `s.startsWith(c)` for a one-character argument. */
  predicate StartsWithChar(s: string, c: char)
  {
    |s| > 0 && s[0] == c
  }

  /** `s.endsWith(c)` for a one-character argument. */
  predicate EndsWithChar(s: string, c: char)
  {
    |s| > 0 && s[|s| - 1] == c
  }

  predicate StartsWith(s: string, p: string)
  {
    |p| <= |s| && s[..|p|] == p
  }

  predicate EndsWith(s: string, p: string)
  {
    |p| <= |s| && s[|s| - |p|..] == p
  }

  /** `s.split(c)` for a one-character separator: the maximal runs between
      separators, including the empty ones at either end. */
  function Split(s: string, c: char): (r: seq<string>)
    ensures |r| >= 1
    ensures forall k :: 0 <= k < |r| ==> NoChar(r[k], c)
  {
    if s == [] then [""]
    else if s[0] == c then [""] + Split(s[1..], c)
    else
      var rest := Split(s[1..], c);
      [[s[0]] + rest[0]] + rest[1..]
  }

  /** `lines.join(sep)` */
  function Join(lines: seq<string>, sep: string): string
  {
    if |lines| == 0 then ""
    else if |lines| == 1 then lines[0]
    else lines[0] + sep + Join(lines[1..], sep)
  }

  /** `s.replace(/pat/g, rep)` for a literal, non-empty pattern: matches are
      taken leftmost first and never overlap. */
  function ReplaceAll(s: string, pat: string, rep: string): string
    requires |pat| > 0
    decreases |s|
  {
    if |s| == 0 then ""
    else if StartsWith(s, pat) then rep + ReplaceAll(s[|pat|..], pat, rep)
    else [s[0]] + ReplaceAll(s[1..], pat, rep)
  }

  predicate NoChar(s: string, c: char)
  {
    forall j :: 0 <= j < |s| ==> s[j] != c
  }

  // ---------------------------------------------------------------- lemmas

  /** `TrimStart` keeps a suffix that does not start with whitespace. */
  lemma {:induction false} TrimStartShape(s: string)
    ensures TrimStart(s) == s[|s| - |TrimStart(s)|..]
    ensures TrimStart(s) == [] || !IsWhitespace(TrimStart(s)[0])
  {
    if |s| > 0 && IsWhitespace(s[0]) {
      TrimStartShape(s[1..]);
      assert s[1..][|s| - 1 - |TrimStart(s)|..] == s[|s| - |TrimStart(s)|..];
    }
  }

  /** `TrimEnd` keeps a prefix that does not end with whitespace. */
  lemma {:induction false} TrimEndShape(s: string)
    ensures TrimEnd(s) == s[..|TrimEnd(s)|]
    ensures TrimEnd(s) == [] || !IsWhitespace(TrimEnd(s)[|TrimEnd(s)| - 1])
  {
    if |s| > 0 && IsWhitespace(s[|s| - 1]) {
      TrimEndShape(s[..|s| - 1]);
      assert s[..|s| - 1][..|TrimEnd(s)|] == s[..|TrimEnd(s)|];
    }
  }

  /** What `TrimStart` drops is whitespace. */
  lemma {:induction false} TrimStartDropsWhitespace(s: string)
    ensures AllWhitespace(s[..|s| - |TrimStart(s)|])
  {
    if |s| > 0 && IsWhitespace(s[0]) {
      TrimStartDropsWhitespace(s[1..]);
      var k := |s| - |TrimStart(s)|;
      forall i | 0 <= i < k ensures IsWhitespace(s[..k][i]) {
        if i > 0 { assert s[..k][i] == s[1..][..k - 1][i - 1]; }
      }
    }
  }

  /** What `TrimEnd` drops is whitespace. */
  lemma {:induction false} TrimEndDropsWhitespace(s: string)
    ensures AllWhitespace(s[|TrimEnd(s)|..])
  {
    if |s| > 0 && IsWhitespace(s[|s| - 1]) {
      var s' := s[..|s| - 1];
      TrimEndDropsWhitespace(s');
      var k := |TrimEnd(s)|;
      forall i | 0 <= i < |s| - k ensures IsWhitespace(s[k..][i]) {
        if i < |s| - 1 - k { assert s[k..][i] == s'[k..][i]; }
      }
    }
  }

  /** A string trims to the empty string exactly when it is all whitespace. */
  lemma TrimEmptyIff(s: string)
    ensures Trim(s) == "" <==> AllWhitespace(s)
  {
    var t := TrimStart(s);
    TrimStartDropsWhitespace(s);
    TrimStartShape(s);
    TrimEndShape(t);
    if Trim(s) == "" {
      TrimEndDropsWhitespace(t);
      assert t[0..] == t;
      assert t == [];
      assert s[..|s|] == s;
    } else {
      var r := Trim(s);
      assert !IsWhitespace(r[0]);
      assert r[0] == t[0] == s[|s| - |t|];
    }
  }

  /** Trimming keeps the characters between the first and the last
      non-whitespace character: the result is a contiguous infix. */
  lemma TrimInfix(s: string) returns (lo: nat)
    ensures lo + |Trim(s)| <= |s| && Trim(s) == s[lo..lo + |Trim(s)|]
    ensures AllWhitespace(s[..lo]) && AllWhitespace(s[lo + |Trim(s)|..])
  {
    var t := TrimStart(s);
    lo := |s| - |t|;
    var r := TrimEnd(t);
    TrimStartShape(s);
    TrimEndShape(t);
    TrimStartDropsWhitespace(s);
    TrimEndDropsWhitespace(t);
    assert t == s[lo..];
    assert r == t[..|r|];
    assert r == s[lo..lo + |r|];
    assert s[lo + |r|..] == t[|r|..];
  }

  /** Trimming is idempotent. */
  lemma TrimIdempotent(s: string)
    ensures Trim(Trim(s)) == Trim(s)
  {
    var r := Trim(s);
    TrimStartShape(s);
    TrimEndShape(TrimStart(s));
    if r != [] {
      assert !IsWhitespace(r[0]);
      assert TrimStart(r) == r;
      assert !IsWhitespace(r[|r| - 1]);
    }
  }

  /** The trim of a string that holds a non-whitespace character is not empty. */
  lemma TrimNonEmpty(s: string, i: nat)
    requires i < |s| && !IsWhitespace(s[i])
    ensures Trim(s) != ""
  {
    TrimEmptyIff(s);
  }

  lemma AllWhitespaceConcat(a: string, b: string)
    ensures AllWhitespace(a + b) <==> AllWhitespace(a) && AllWhitespace(b)
  {
    if AllWhitespace(a) && AllWhitespace(b) {
      forall i | 0 <= i < |a + b| ensures IsWhitespace((a + b)[i]) {
        if i < |a| { assert (a + b)[i] == a[i]; } else { assert (a + b)[i] == b[i - |a|]; }
      }
    }
    if AllWhitespace(a + b) {
      forall i | 0 <= i < |a| ensures IsWhitespace(a[i]) { assert a[i] == (a + b)[i]; }
      forall i | 0 <= i < |b| ensures IsWhitespace(b[i]) { assert b[i] == (a + b)[|a| + i]; }
    }
  }

  /** Whitespace glued to the end does not change the trimmed text. */
  lemma TrimAppendWhitespace(s: string, w: string)
    requires AllWhitespace(w)
    ensures Trim(s + w) == Trim(s)
  {
    if AllWhitespace(s) {
      AllWhitespaceConcat(s, w);
      TrimEmptyIff(s);
      TrimEmptyIff(s + w);
    } else {
      var i :| 0 <= i < |s| && !IsWhitespace(s[i]);
      TrimStartAppend(s, w, i);
      TrimEndAppendWhitespace(TrimStart(s), w);
    }
  }

  /** When `a` holds a non-whitespace character (at `i`), trimming the start
      of `a + b` only looks at `a`. */
  lemma {:induction false} TrimStartAppend(a: string, b: string, i: nat)
    requires i < |a| && !IsWhitespace(a[i])
    ensures TrimStart(a + b) == TrimStart(a) + b
  {
    if IsWhitespace(a[0]) {
      assert a[1..][i - 1] == a[i];
      calc {
        TrimStart(a + b);
        { assert (a + b)[0] == a[0]; }
        TrimStart((a + b)[1..]);
        { assert (a + b)[1..] == a[1..] + b; }
        TrimStart(a[1..] + b);
        { TrimStartAppend(a[1..], b, i - 1); }
        TrimStart(a[1..]) + b;
      }
    } else {
      assert (a + b)[0] == a[0];
    }
  }

  lemma {:induction false} TrimEndAppendWhitespace(a: string, w: string)
    requires AllWhitespace(w)
    ensures TrimEnd(a + w) == TrimEnd(a)
    decreases |w|
  {
    if w == [] {
      assert a + w == a;
    } else {
      var aw := a + w;
      var w' := w[..|w| - 1];
      assert aw[|aw| - 1] == w[|w| - 1];
      assert IsWhitespace(aw[|aw| - 1]);
      assert aw[..|aw| - 1] == a + w';
      assert TrimEnd(aw) == TrimEnd(aw[..|aw| - 1]);
      assert AllWhitespace(w') by {
        forall i | 0 <= i < |w'| ensures IsWhitespace(w'[i]) { assert w'[i] == w[i]; }
      }
      TrimEndAppendWhitespace(a, w');
    }
  }

  /** A replacement no longer than the pattern never lengthens the text, and
      a non-empty one keeps a non-empty text non-empty. */
  lemma {:induction false} ReplaceAllShorter(s: string, pat: string, rep: string)
    requires 0 < |rep| <= |pat|
    ensures |ReplaceAll(s, pat, rep)| <= |s|
    ensures ReplaceAll(s, pat, rep) == "" <==> s == ""
    decreases |s|
  {
    if |s| > 0 {
      if StartsWith(s, pat) {
        ReplaceAllShorter(s[|pat|..], pat, rep);
      } else {
        ReplaceAllShorter(s[1..], pat, rep);
      }
    }
  }

  /** `Join(Split(s, c), [c])` gives back `s`. */
  lemma {:induction false} JoinSplit(s: string, c: char)
    ensures Join(Split(s, c), [c]) == s
  {
    JoinSplitIsReplace(s, c, [c]);
    ReplaceSelf(s, c);
  }

  lemma {:induction false} ReplaceSelf(s: string, c: char)
    ensures ReplaceAll(s, [c], [c]) == s
    decreases |s|
  {
    if s != [] { ReplaceSelf(s[1..], c); }
  }

  /** Splitting on `c` and joining with `rep` is the same as replacing every
      `c` by `rep`. */
  lemma {:induction false} JoinSplitIsReplace(s: string, c: char, rep: string)
    ensures Join(Split(s, c), rep) == ReplaceAll(s, [c], rep)
    decreases |s|
  {
    if s != [] {
      var rest := Split(s[1..], c);
      JoinSplitIsReplace(s[1..], c, rep);
      if s[0] == c {
        assert StartsWith(s, [c]);
      } else {
        assert !StartsWith(s, [c]);
        JoinConsFirst([s[0]], rest, rep);
      }
    }
  }

  /** Prepending to the first line prepends to the joined text. */
  lemma JoinConsFirst(a: string, lines: seq<string>, sep: string)
    requires |lines| >= 1
    ensures Join([a + lines[0]] + lines[1..], sep) == a + Join(lines, sep)
  {
    var l' := [a + lines[0]] + lines[1..];
    assert l'[1..] == lines[1..];
  }

  /** Splitting a joined text gives back the lines, provided no line holds
      the separator. */
  lemma {:induction false} SplitJoin(lines: seq<string>, c: char)
    requires |lines| >= 1
    requires forall k :: 0 <= k < |lines| ==> NoChar(lines[k], c)
    ensures Split(Join(lines, [c]), c) == lines
    decreases |lines|, |lines[0]|
  {
    if |lines| == 1 {
      SplitNoSep(lines[0], c);
    } else if lines[0] == "" {
      var rest := lines[1..];
      SplitJoin(rest, c);
      assert Join(lines, [c]) == [c] + Join(rest, [c]);
      assert ([c] + Join(rest, [c]))[1..] == Join(rest, [c]);
      assert lines == [""] + rest;
    } else {
      var l0 := lines[0];
      var shorter := [l0[1..]] + lines[1..];
      assert shorter[1..] == lines[1..];
      SplitJoin(shorter, c);
      var j := Join(lines, [c]);
      JoinConsFirst([l0[0]], shorter, [c]);
      assert [l0[0]] + l0[1..] == l0;
      assert j == [l0[0]] + Join(shorter, [c]);
      assert j[0] == l0[0] != c;
      assert j[1..] == Join(shorter, [c]);
      assert Split(j, c) == [[l0[0]] + shorter[0]] + shorter[1..];
    }
  }

  /** A text holding the separator splits into at least two pieces. */
  lemma {:induction false} SplitHasSep(s: string, c: char, i: nat)
    requires i < |s| && s[i] == c
    ensures |Split(s, c)| > 1
    decreases |s|
  {
    if s[0] != c {
      SplitHasSep(s[1..], c, i - 1);
    }
  }

  /** `split` yields a single piece exactly when the separator is absent. */
  lemma SplitSingleIff(s: string, c: char)
    ensures |Split(s, c)| == 1 <==> NoChar(s, c)
  {
    if NoChar(s, c) {
      SplitNoSep(s, c);
    } else {
      var i :| 0 <= i < |s| && s[i] == c;
      SplitHasSep(s, c, i);
    }
  }

  lemma {:induction false} SplitNoSep(s: string, c: char)
    requires NoChar(s, c)
    ensures Split(s, c) == [s]
    decreases |s|
  {
    if s != [] {
      SplitNoSep(s[1..], c);
      assert [s[0]] + s[1..] == s;
    }
  }

  /** A field without the separator, then the separator: the field comes off
      first and the rest is split on its own. */
  lemma {:induction false} SplitConcat(a: string, c: char, b: string)
    requires NoChar(a, c)
    ensures Split(a + [c] + b, c) == [a] + Split(b, c)
    decreases |a|
  {
    var s := a + [c] + b;
    if a == [] {
      assert s == [c] + b && s[1..] == b;
    } else {
      assert s[0] == a[0] && s[1..] == a[1..] + [c] + b;
      SplitConcat(a[1..], c, b);
      assert [a[0]] + a[1..] == a;
    }
  }
}
