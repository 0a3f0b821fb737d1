/**
 * The structure/content merge used when the hiragana view is copied: the
 * original text supplies the layout (tag lines and blank lines) and the
 * hiragana text supplies the words, matched line by line in order.
 */
module Merge {
  import opened Text
  import opened Wrappers

  /** How a structure line is treated, judged on its trimmed form. */
  datatype LineKind = TagLine | BlankLine | TextLine

  /** `trimmed.startsWith('[') && trimmed.endsWith(']')` */
  predicate IsTag(trimmed: string)
  {
    StartsWithChar(trimmed, '[') && EndsWithChar(trimmed, ']')
  }

  function Classify(line: string): LineKind
  {
    var t := Trim(line);
    if IsTag(t) then TagLine else if t == "" then BlankLine else TextLine
  }

  /** The filter applied to each trimmed content line: `l && !l.startsWith('[')`. */
  predicate KeepContent(trimmed: string)
  {
    trimmed != "" && !StartsWithChar(trimmed, '[')
  }

  /** The queue of content lines: lines trimmed, then the empty ones and the
      ones that start with `[` dropped, in order. */
  function QueueOf(lines: seq<string>): (q: seq<string>)
    ensures |q| <= |lines|
    ensures forall k :: 0 <= k < |q| ==> KeepContent(q[k])
  {
    if lines == [] then []
    else
      var t := Trim(lines[0]);
      (if KeepContent(t) then [t] else []) + QueueOf(lines[1..])
  }

  function ContentQueue(contentText: string): seq<string>
  {
    QueueOf(Split(contentText, '\n'))
  }

  /** Number of text lines among `lines`. */
  function TextCount(lines: seq<string>): nat
  {
    if lines == [] then 0
    else TextCount(lines[..|lines| - 1]) + (if Classify(lines[|lines| - 1]) == TextLine then 1 else 0)
  }

  /** The line emitted for a structure line, given the number `k` of text
      lines before it. */
  function MergedLine(line: string, queue: seq<string>, k: nat): string
  {
    match Classify(line)
    case TagLine => Trim(line)
    case BlankLine => ""
    case TextLine => if k < |queue| then queue[k] else ""
  }

  /** The merged lines, position by position: the k-th text line of the
      structure receives the k-th queued content line. */
  function MergedLines(lines: seq<string>, queue: seq<string>): (out: seq<string>)
    ensures |out| == |lines|
  {
    seq(|lines|, i requires 0 <= i < |lines| => MergedLine(lines[i], queue, TextCount(lines[..i])))
  }

  function MergeResult(structureText: string, contentText: string): string
  {
    Join(MergedLines(Split(structureText, '\n'), ContentQueue(contentText)), "\n")
  }

  /** `mergeStructureAndContent`: one pass over the structure lines with a
      cursor into the content queue. */
  method MergeStructureAndContent(structureText: string, contentText: string) returns (merged: string)
    ensures merged == MergeResult(structureText, contentText)
  {
    var structureLines := Split(structureText, '\n');
    var contentLines := ContentQueue(contentText);
    var contentIndex := 0;
    var out: seq<string> := [];
    for i := 0 to |structureLines|
      invariant contentIndex == TextCount(structureLines[..i])
      invariant out == MergedLines(structureLines[..i], contentLines)
    {
      var line := structureLines[i];
      var trimmed := Trim(line);
      var emitted: string;
      TextCountSnoc(structureLines, i);
      MergedLinesSnoc(structureLines, contentLines, i);
      if StartsWithChar(trimmed, '[') && EndsWithChar(trimmed, ']') {
        emitted := trimmed;
      } else if trimmed == "" {
        emitted := "";
      } else {
        // contentLines[contentIndex] is undefined past the end of the queue
        var content: Option<string> :=
          if contentIndex < |contentLines| then Some(contentLines[contentIndex]) else None;
        assert content.Some? ==> KeepContent(content.value);
        emitted := if content.Some? && content.value != "" then content.value else "";
        contentIndex := contentIndex + 1;
      }
      out := out + [emitted];
    }
    assert structureLines[..|structureLines|] == structureLines;
    merged := Join(out, "\n");
  }

  /** Extending the structure by one line extends the merged lines by the
      line emitted for it. */
  lemma MergedLinesSnoc(lines: seq<string>, queue: seq<string>, i: nat)
    requires i < |lines|
    ensures MergedLines(lines[..i + 1], queue)
         == MergedLines(lines[..i], queue) + [MergedLine(lines[i], queue, TextCount(lines[..i]))]
  {
    var a := MergedLines(lines[..i + 1], queue);
    var b := MergedLines(lines[..i], queue) + [MergedLine(lines[i], queue, TextCount(lines[..i]))];
    forall j | 0 <= j < i + 1 ensures a[j] == b[j] {
      assert lines[..i + 1][..j] == lines[..j];
      if j < i {
        assert lines[..i][..j] == lines[..j];
      }
    }
  }

  lemma TextCountSnoc(lines: seq<string>, i: nat)
    requires i < |lines|
    ensures TextCount(lines[..i + 1]) == TextCount(lines[..i]) + (if Classify(lines[i]) == TextLine then 1 else 0)
  {
    assert lines[..i + 1][..i] == lines[..i];
  }

  /** The merged lines that sit at text positions of the structure. */
  function AtTextLines(lines: seq<string>, out: seq<string>): seq<string>
    requires |out| == |lines|
  {
    if lines == [] then []
    else
      var n := |lines| - 1;
      AtTextLines(lines[..n], out[..n]) + (if Classify(lines[n]) == TextLine then [out[n]] else [])
  }

  /** The first `n` queue entries, padded with empty strings once the queue
      runs out. */
  function Padded(queue: seq<string>, n: nat): (r: seq<string>)
    ensures |r| == n
  {
    seq(n, k requires 0 <= k < n => if k < |queue| then queue[k] else "")
  }

  // ---------------------------------------------------------------- lemmas

  lemma TrimNoChar(s: string, c: char)
    requires NoChar(s, c)
    ensures NoChar(Trim(s), c)
  {
    var lo := TrimInfix(s);
    forall j | 0 <= j < |Trim(s)| ensures Trim(s)[j] != c {
      assert Trim(s)[j] == s[lo + j];
    }
  }

  /** Every queued content line comes from one line of the content text, so
      it holds no line break. */
  lemma {:induction false} QueueNoNewline(lines: seq<string>)
    requires forall j :: 0 <= j < |lines| ==> NoChar(lines[j], '\n')
    ensures forall k :: 0 <= k < |QueueOf(lines)| ==> NoChar(QueueOf(lines)[k], '\n')
  {
    if lines != [] {
      TrimNoChar(lines[0], '\n');
      QueueNoNewline(lines[1..]);
    }
  }

  /** Splitting the copied text at line breaks gives back the merged lines. */
  lemma MergeSplitsBack(structureText: string, contentText: string)
    ensures Split(MergeResult(structureText, contentText), '\n')
         == MergedLines(Split(structureText, '\n'), ContentQueue(contentText))
  {
    var lines := Split(structureText, '\n');
    var q := ContentQueue(contentText);
    QueueNoNewline(Split(contentText, '\n'));
    var merged := MergedLines(lines, q);
    forall i | 0 <= i < |merged| ensures NoChar(merged[i], '\n') {
      TrimNoChar(lines[i], '\n');
      assert merged[i] == MergedLine(lines[i], q, TextCount(lines[..i]));
    }
    SplitJoin(merged, '\n');
  }

  /** The copied text has exactly one line per structure line: tag lines come
      out trimmed, blank lines come out empty, and the k-th text line becomes
      the k-th queued content line, or empty once the queue is exhausted. */
  lemma MergeLineByLine(structureText: string, contentText: string, i: nat)
    requires i < |Split(structureText, '\n')|
    ensures |Split(MergeResult(structureText, contentText), '\n')| == |Split(structureText, '\n')|
    ensures var line := Split(structureText, '\n')[i];
            var k := TextCount(Split(structureText, '\n')[..i]);
            var q := ContentQueue(contentText);
            Split(MergeResult(structureText, contentText), '\n')[i] ==
              match Classify(line)
              case TagLine => Trim(line)
              case BlankLine => ""
              case TextLine => if k < |q| then q[k] else ""
  {
    MergeSplitsBack(structureText, contentText);
  }

  /** Read in order, the merged text lines are the content queue, padded with
      empty lines when the queue is shorter than the number of text lines. */
  lemma {:induction false} MergeAlignment(lines: seq<string>, queue: seq<string>)
    ensures AtTextLines(lines, MergedLines(lines, queue)) == Padded(queue, TextCount(lines))
    decreases |lines|
  {
    if lines != [] {
      var n := |lines| - 1;
      var out := MergedLines(lines, queue);
      assert lines[..n][..n] == lines[..n];
      assert out[..n] == MergedLines(lines[..n], queue) by {
        forall i | 0 <= i < n ensures out[..n][i] == MergedLines(lines[..n], queue)[i] {
          assert lines[..n][..i] == lines[..i];
        }
      }
      MergeAlignment(lines[..n], queue);
      var k := TextCount(lines[..n]);
      if Classify(lines[n]) == TextLine {
        assert out[n] == MergedLine(lines[n], queue, k);
        assert Padded(queue, k + 1) == Padded(queue, k) + [out[n]];
      }
    }
  }

  /** When the content supplies exactly one line per structure text line, the
      merged text lines are the whole queue, in order. */
  lemma MergeExactSupply(lines: seq<string>, queue: seq<string>)
    requires |queue| == TextCount(lines)
    ensures AtTextLines(lines, MergedLines(lines, queue)) == queue
  {
    MergeAlignment(lines, queue);
  }

  /** The two classifications differ on an unclosed bracket: `[abc` is a text
      line of the structure, yet it is dropped from the content queue. */
  lemma UnclosedBracketAsymmetry()
    ensures Classify("[abc") == TextLine
    ensures ContentQueue("[abc") == []
  {
    assert TrimStart("[abc") == "[abc";
    assert TrimEnd("[abc") == "[abc";
    assert Split("[abc", '\n') == ["[abc"] by { SplitNoSep("[abc", '\n'); }
  }
}
