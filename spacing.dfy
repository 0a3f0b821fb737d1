/**
 * The spacing convention of the lyric editor: text that enters the editor
 * (a paste, or lyrics generated by the assistant) has its CRLF line endings
 * normalised and every line break doubled; text that leaves it (copy) has
 * every pair of line breaks collapsed back into one.
 */
module Spacing {
  import opened Text
  import opened Wrappers

  /** `raw.replace(/\r\n/g, '\n')` */
  function NormalizeLineEndings(raw: string): string
  {
    ReplaceAll(raw, "\r\n", "\n")
  }

  /** `s.replace(/\n/g, '\n\n')`: every line break doubled. */
  function DoubleSpace(s: string): string
  {
    ReplaceAll(s, "\n", "\n\n")
  }

  /** `s.replace(/\n\n/g, '\n')`: pairs of line breaks collapsed, scanning
      left to right. */
  function Compress(s: string): (r: string)
    ensures |r| <= |s|
    ensures r == "" <==> s == ""
  {
    ReplaceAllShorter(s, "\n\n", "\n");
    ReplaceAll(s, "\n\n", "\n")
  }

  /** The text a paste stores as the original buffer:
      `normalized.split('\n').join('\n\n')`. */
  function PastedText(raw: string): (r: string)
    ensures r == DoubleSpace(NormalizeLineEndings(raw))
  {
    var normalized := NormalizeLineEndings(raw);
    JoinSplitIsReplace(normalized, '\n', "\n\n");
    Join(Split(normalized, '\n'), "\n\n")
  }

  /** The original buffer after generated lyrics arrive: `None` when the
      generator gave nothing (null or the empty string), otherwise the
      double-spaced lyrics, appended after a blank line when the buffer
      already holds text. What copying the result gives back is stated by
      `CopyAfterAppend`. */
  function AppendGenerated(original: string, generated: Option<string>): (r: Option<string>)
    ensures r.None? <==> generated == None || generated == Some("")
    ensures r.Some? ==> StartsWith(r.value, original)
    ensures r.Some? ==> EndsWith(r.value, DoubleSpace(NormalizeLineEndings(generated.value)))
    ensures r.Some? && original != "" ==>
      |r.value| == |original| + 2 + |DoubleSpace(NormalizeLineEndings(generated.value))|
      && r.value[|original|..|original| + 2] == "\n\n"
    ensures r.Some? && original == "" ==> r.value == DoubleSpace(NormalizeLineEndings(generated.value))
  {
    if generated.None? || generated.value == "" then None
    else
      var spaced := DoubleSpace(NormalizeLineEndings(generated.value));
      Some(if original != "" then original + "\n\n" + spaced else spaced)
  }

  function NewlineCount(s: string): nat
  {
    if s == [] then 0 else (if s[0] == '\n' then 1 else 0) + NewlineCount(s[1..])
  }

  // ---------------------------------------------------------------- lemmas

  /** One step of `DoubleSpace`, by the first character. */
  lemma DoubleSpaceCons(s: string)
    requires s != []
    ensures DoubleSpace(s) == (if s[0] == '\n' then "\n\n" else [s[0]]) + DoubleSpace(s[1..])
  {
    assert StartsWith(s, "\n") <==> s[0] == '\n';
  }

  /** Compressing a doubled text gives back exactly the text, whatever it
      holds (blank lines included). */
  lemma {:induction false} CompressDoubleSpace(s: string)
    ensures Compress(DoubleSpace(s)) == s
    decreases |s|
  {
    if s != [] {
      DoubleSpaceCons(s);
      var d := DoubleSpace(s);
      var rest := DoubleSpace(s[1..]);
      CompressDoubleSpace(s[1..]);
      if s[0] == '\n' {
        assert StartsWith(d, "\n\n");
        assert d[2..] == rest;
      } else {
        assert d[0] == s[0];
        assert !StartsWith(d, "\n\n");
        assert d[1..] == rest;
      }
      assert s == [s[0]] + s[1..];
    }
  }

  /** A text without line breaks is copied as it is. */
  lemma {:induction false} CompressNoBreak(s: string)
    requires NoChar(s, '\n')
    ensures Compress(s) == s
    decreases |s|
  {
    if s != [] {
      assert s[0] != '\n';
      assert |s| >= 2 ==> s[..2][0] == s[0];
      CompressNoBreak(s[1..]);
      assert s == [s[0]] + s[1..];
    }
  }

  /** Copy after paste: compressing the pasted text gives the pasted text
      with CRLF normalised. */
  lemma CopyAfterPaste(raw: string)
    ensures Compress(PastedText(raw)) == NormalizeLineEndings(raw)
  {
    CompressDoubleSpace(NormalizeLineEndings(raw));
  }

  /** Doubling distributes over concatenation. */
  lemma {:induction false} DoubleSpaceConcat(a: string, b: string)
    ensures DoubleSpace(a + b) == DoubleSpace(a) + DoubleSpace(b)
    decreases |a|
  {
    if a == [] {
      assert a + b == b;
    } else {
      DoubleSpaceCons(a);
      DoubleSpaceCons(a + b);
      assert (a + b)[0] == a[0];
      assert (a + b)[1..] == a[1..] + b;
      DoubleSpaceConcat(a[1..], b);
    }
  }

  /** Copying after generated lyrics arrived in a pasted buffer: a null or
      empty answer leaves nothing to store; any other answer copies back as
      the pasted text, one line break and the normalised lyrics, or as the
      normalised lyrics alone when the buffer was empty. */
  lemma CopyAfterAppend(pasted: string, generated: Option<string>)
    ensures AppendGenerated(DoubleSpace(pasted), generated).None? <==> generated == None || generated == Some("")
    ensures generated.Some? && generated.value != "" ==>
      Compress(AppendGenerated(DoubleSpace(pasted), generated).value)
      == (if pasted == "" then "" else pasted + "\n") + NormalizeLineEndings(generated.value)
  {
    if generated.Some? && generated.value != "" {
      var g := NormalizeLineEndings(generated.value);
      if pasted == "" {
        assert DoubleSpace(pasted) == "";
        CompressDoubleSpace(g);
        assert "" + g == g;
      } else {
        DoubleSpaceCons(pasted);
        assert DoubleSpace(pasted) != "";
        DoubleSpaceConcat(pasted + "\n", g);
        DoubleSpaceConcat(pasted, "\n");
        DoubleSpaceCons("\n");
        assert DoubleSpace("") == "";
        assert DoubleSpace("\n") == "\n\n";
        assert DoubleSpace(pasted + "\n" + g) == DoubleSpace(pasted) + "\n\n" + DoubleSpace(g);
        CompressDoubleSpace(pasted + "\n" + g);
      }
    }
  }

  /** Doubling adds one character per line break. */
  lemma {:induction false} DoubleSpaceCounts(s: string)
    ensures |DoubleSpace(s)| == |s| + NewlineCount(s)
    ensures NewlineCount(DoubleSpace(s)) == 2 * NewlineCount(s)
    decreases |s|
  {
    if s != [] {
      DoubleSpaceCons(s);
      DoubleSpaceCounts(s[1..]);
      NewlineCountConcat(if s[0] == '\n' then "\n\n" else [s[0]], DoubleSpace(s[1..]));
    }
  }

  lemma {:induction false} NewlineCountConcat(a: string, b: string)
    ensures NewlineCount(a + b) == NewlineCount(a) + NewlineCount(b)
    decreases |a|
  {
    if a == [] {
      assert a + b == b;
    } else {
      assert (a + b)[1..] == a[1..] + b;
      NewlineCountConcat(a[1..], b);
    }
  }

  /** Doubling is not idempotent: applied twice to a text with a line break it
      adds more line breaks again. */
  lemma DoubleSpaceNotIdempotent(s: string)
    requires NewlineCount(s) > 0
    ensures DoubleSpace(DoubleSpace(s)) != DoubleSpace(s)
  {
    DoubleSpaceCounts(s);
    DoubleSpaceCounts(DoubleSpace(s));
  }
}
