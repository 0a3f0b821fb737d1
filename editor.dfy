/**
 * The lyric editor: two text buffers (the original lyrics and their hiragana
 * reading), a tab that says which one the editor shows, tag insertion at the
 * caret, paste, generated lyrics, clear and copy.
 */
module Editor {
  import opened Text
  import opened Wrappers
  import opened Spacing
  import opened Merge

  datatype Tab = Original | Hiragana

  /** What the paste button gets from the browser: no clipboard reading API, a
      read that was rejected (permission denied), or the text read. */
  datatype ClipboardRead = NoClipboardApi | ReadDenied | ReadText(text: string)

  /** The copy buttons: the lyric editor's, or one beside a generated prompt. */
  datatype CopyButton = LyricsCopy | PromptCopy

  // ------------------------------------------------------------ tag splice

  function Clamp(i: int, len: nat): (r: nat)
    ensures r <= len
  {
    if i < 0 then 0 else if i > len then len else i
  }

  /** `String.prototype.substring(a, b)`: both bounds clamped to the text,
      and swapped when the first exceeds the second. */
  function Substring(s: string, a: int, b: int): string
  {
    var lo := Clamp(a, |s|);
    var hi := Clamp(b, |s|);
    if lo <= hi then s[lo..hi] else s[hi..lo]
  }

  /** `text.substring(0, start) + tag + text.substring(end)` */
  function SpliceTag(text: string, start: int, end: int, tag: string): string
  {
    Substring(text, 0, start) + tag + Substring(text, end, |text|)
  }

  /** For a caret selection `[start, end)` of the text: the selection is
      replaced by the tag, what precedes and what follows it are unchanged, and
      the tag occupies `[start, start + |tag|)`, the range then selected. */
  lemma SpliceSpec(text: string, start: int, end: int, tag: string)
    requires 0 <= start <= end <= |text|
    ensures var r := SpliceTag(text, start, end, tag);
      && r == text[..start] + tag + text[end..]
      && |r| == |text| - (end - start) + |tag|
      && r[..start] == text[..start]
      && r[start..start + |tag|] == tag
      && r[start + |tag|..] == text[end..]
  {
    var r := SpliceTag(text, start, end, tag);
    assert r == text[..start] + tag + text[end..];
    assert r[..start] == text[..start];
    assert r[start..start + |tag|] == tag;
    assert r[start + |tag|..] == text[end..];
  }

  /** Splicing the replaced text back over the selected tag restores the
      text. */
  lemma SpliceUndo(text: string, start: int, end: int, tag: string)
    requires 0 <= start <= end <= |text|
    ensures SpliceTag(SpliceTag(text, start, end, tag), start, start + |tag|, text[start..end]) == text
  {
    SpliceSpec(text, start, end, tag);
    var r := SpliceTag(text, start, end, tag);
    SpliceSpec(r, start, start + |tag|, text[start..end]);
    assert text == text[..start] + text[start..end] + text[end..];
  }

  // ------------------------------------------------------------ copy

  /** The lines of a double-spaced text: an empty line after every line but
      the last. */
  function Interleave(lines: seq<string>): (r: seq<string>)
    requires |lines| >= 1
    ensures |r| == 2 * |lines| - 1
  {
    if |lines| == 1 then lines else [lines[0], ""] + Interleave(lines[1..])
  }

  lemma {:induction false} JoinInterleave(lines: seq<string>)
    requires |lines| >= 1
    ensures Join(Interleave(lines), "\n") == Join(lines, "\n\n")
    decreases |lines|
  {
    if |lines| == 1 {
      assert Interleave(lines) == lines;
    } else {
      JoinInterleave(lines[1..]);
      var rest := Interleave(lines[1..]);
      assert ([lines[0], ""] + rest)[1..] == [""] + rest;
      assert ([""] + rest)[1..] == rest;
    }
  }

  /** Splitting a double-spaced text gives its lines interleaved with empty
      lines. */
  lemma SplitDoubleSpace(s: string)
    ensures Split(DoubleSpace(s), '\n') == Interleave(Split(s, '\n'))
  {
    var lines := Split(s, '\n');
    JoinSplitIsReplace(s, '\n', "\n\n");
    JoinInterleave(lines);
    InterleaveNoChar(lines, '\n');
    SplitJoin(Interleave(lines), '\n');
  }

  lemma {:induction false} InterleaveAt(lines: seq<string>, j: nat)
    requires j < |lines|
    ensures Interleave(lines)[2 * j] == lines[j]
    ensures j + 1 < |lines| ==> Interleave(lines)[2 * j + 1] == ""
  {
    if j > 0 {
      InterleaveAt(lines[1..], j - 1);
    }
  }

  lemma BlankIsBlank()
    ensures Classify("") == BlankLine
  {
    assert TrimStart("") == "";
  }

  lemma TextCountPair(il: seq<string>, k: nat, line: string)
    requires k + 1 < |il| && il[k] == line && il[k + 1] == ""
    ensures TextCount(il[..k + 2]) == TextCount(il[..k]) + (if Classify(line) == TextLine then 1 else 0)
  {
    BlankIsBlank();
    TextCountSnoc(il, k);
    TextCountSnoc(il, k + 1);
  }

  lemma {:induction false} TextCountInterleave(lines: seq<string>, j: nat)
    requires j < |lines|
    ensures TextCount(Interleave(lines)[..2 * j]) == TextCount(lines[..j])
  {
    if j > 0 {
      var il := Interleave(lines);
      TextCountInterleave(lines, j - 1);
      InterleaveAt(lines, j - 1);
      BlankIsBlank();
      TextCountPair(il, 2 * (j - 1), lines[j - 1]);
      TextCountSnoc(lines, j - 1);
    }
  }

  lemma MergedInterleaveEven(lines: seq<string>, q: seq<string>, i: nat, j: nat)
    requires j < |lines| && i == 2 * j
    ensures MergedLines(Interleave(lines), q)[i] == Interleave(MergedLines(lines, q))[i]
  {
    var il := Interleave(lines);
    var m := MergedLines(lines, q);
    InterleaveAt(lines, j);
    InterleaveAt(m, j);
    TextCountInterleave(lines, j);
    var line := il[i];
    var k := TextCount(il[..i]);
    assert line == lines[j] && k == TextCount(lines[..j]);
    assert MergedLines(il, q)[i] == MergedLine(line, q, k);
    assert m[j] == MergedLine(line, q, k);
  }

  lemma MergedInterleaveOdd(lines: seq<string>, q: seq<string>, i: nat, j: nat)
    requires j + 1 < |lines| && i == 2 * j + 1
    ensures MergedLines(Interleave(lines), q)[i] == Interleave(MergedLines(lines, q))[i]
  {
    var il := Interleave(lines);
    InterleaveAt(lines, j);
    InterleaveAt(MergedLines(lines, q), j);
    BlankMerged(q, TextCount(il[..i]));
    assert MergedLines(il, q)[i] == MergedLine(il[i], q, TextCount(il[..i]));
  }

  lemma BlankMerged(q: seq<string>, k: nat)
    ensures MergedLine("", q, k) == ""
  {
    BlankIsBlank();
  }

  lemma Halve(i: nat) returns (j: nat)
    ensures i == 2 * j || i == 2 * j + 1
  {
    j := i / 2;
  }

  lemma MergedInterleave(lines: seq<string>, q: seq<string>)
    requires |lines| >= 1
    ensures MergedLines(Interleave(lines), q) == Interleave(MergedLines(lines, q))
  {
    var a := MergedLines(Interleave(lines), q);
    var b := Interleave(MergedLines(lines, q));
    forall i | 0 <= i < |a| ensures a[i] == b[i] {
      var j := Halve(i);
      if i == 2 * j {
        MergedInterleaveEven(lines, q, i, j);
      } else {
        MergedInterleaveOdd(lines, q, i, j);
      }
    }
  }

  lemma {:induction false} InterleaveNoChar(lines: seq<string>, c: char)
    requires |lines| >= 1
    requires forall k :: 0 <= k < |lines| ==> NoChar(lines[k], c)
    ensures forall k :: 0 <= k < |Interleave(lines)| ==> NoChar(Interleave(lines)[k], c)
  {
    if |lines| > 1 {
      InterleaveNoChar(lines[1..], c);
      var rest := Interleave(lines[1..]);
      forall k | 2 <= k < |Interleave(lines)| ensures NoChar(Interleave(lines)[k], c) {
        assert Interleave(lines)[k] == rest[k - 2];
      }
    }
  }

  /** Copying the merged hiragana view of a double-spaced original gives the
      merge against the single-spaced original: the blank lines that doubling
      inserted vanish again, and the content alignment is the same. */
  lemma CopyMergeOfDoubleSpaced(s: string, contentText: string)
    ensures Compress(MergeResult(DoubleSpace(s), contentText)) == MergeResult(s, contentText)
  {
    var lines := Split(s, '\n');
    var q := ContentQueue(contentText);
    var m := MergedLines(lines, q);
    SplitDoubleSpace(s);
    MergedInterleave(lines, q);
    JoinInterleave(m);
    MergeSplitsBack(s, contentText);
    JoinSplitIsReplace(MergeResult(s, contentText), '\n', "\n\n");
    CompressDoubleSpace(MergeResult(s, contentText));
  }

  // ------------------------------------------------------------ the session

  /** The editor state: the two buffers, the active tab, whether the text area
      is in edit mode, and the keywords field of the lyric generator. */
  class Session {
    var activeTab: Tab
    var originalText: string
    var hiraganaText: string
    var isEditing: bool
    var lyricKeywords: string

    constructor ()
      ensures activeTab == Original && originalText == "" && hiraganaText == ""
      ensures !isEditing && lyricKeywords == ""
    {
      activeTab := Original;
      originalText := "";
      hiraganaText := "";
      isEditing := false;
      lyricKeywords := "";
    }

    /** `currentText`: the buffer of the active tab. */
    function CurrentText(): string
      reads this
    {
      if activeTab == Original then originalText else hiraganaText
    }

    /** `setCurrentText`: writes the active buffer and nothing else. */
    method SetCurrentText(text: string)
      modifies this
      ensures CurrentText() == text
      ensures activeTab == old(activeTab) && isEditing == old(isEditing) && lyricKeywords == old(lyricKeywords)
      ensures activeTab == Original ==> hiraganaText == old(hiraganaText)
      ensures activeTab == Hiragana ==> originalText == old(originalText)
    {
      if activeTab == Original {
        originalText := text;
      } else {
        hiraganaText := text;
      }
    }

    method SelectTab(tab: Tab)
      modifies this
      ensures activeTab == tab
      ensures originalText == old(originalText) && hiraganaText == old(hiraganaText)
      ensures isEditing == old(isEditing) && lyricKeywords == old(lyricKeywords)
    {
      activeTab := tab;
    }

    /** `processText`: the pasted text, CRLF normalised and double-spaced,
        becomes the original buffer; `converted` is the hiragana reading the
        converter returned for it. The active tab is kept. */
    method ProcessText(rawText: string, converted: string)
      modifies this
      ensures originalText == DoubleSpace(NormalizeLineEndings(rawText))
      ensures hiraganaText == converted
      ensures !isEditing
      ensures activeTab == old(activeTab) && lyricKeywords == old(lyricKeywords)
    {
      var spacedText := PastedText(rawText);
      originalText := spacedText;
      isEditing := false;
      hiraganaText := converted;
    }

    /** `handleNativePaste`: an empty clipboard text changes nothing. */
    method NativePaste(text: string, converted: string)
      modifies this
      ensures text == "" ==> originalText == old(originalText) && hiraganaText == old(hiraganaText)
                             && isEditing == old(isEditing)
      ensures text != "" ==> originalText == DoubleSpace(NormalizeLineEndings(text)) && hiraganaText == converted
                             && !isEditing
      ensures activeTab == old(activeTab) && lyricKeywords == old(lyricKeywords)
    {
      if text != "" {
        ProcessText(text, converted);
      }
    }

    /** `handlePasteButton`: without a clipboard reading API the text area is
        put in edit mode; a rejected read is caught and changes nothing; a text
        read is processed as a paste. */
    method PasteButton(clipboard: ClipboardRead, converted: string)
      modifies this
      ensures clipboard.NoClipboardApi? ==>
        isEditing && originalText == old(originalText) && hiraganaText == old(hiraganaText)
      ensures clipboard.ReadDenied? ==>
        isEditing == old(isEditing) && originalText == old(originalText) && hiraganaText == old(hiraganaText)
      ensures clipboard.ReadText? ==> originalText == DoubleSpace(NormalizeLineEndings(clipboard.text))
                                      && hiraganaText == converted && !isEditing
      ensures activeTab == old(activeTab) && lyricKeywords == old(lyricKeywords)
    {
      match clipboard
      case NoClipboardApi =>
        isEditing := true;
      case ReadDenied =>
      case ReadText(text) =>
        ProcessText(text, converted);
    }

    /** `handleGenerateLyrics`: `generated` is the generator's answer (`None`
        for null), `converted` the hiragana reading of the new original text.
        Blank keywords change nothing; an empty answer is reported as a
        failure and changes nothing. */
    method GenerateLyrics(generated: Option<string>, converted: string) returns (failed: bool)
      modifies this
      ensures AllWhitespace(old(lyricKeywords)) ==>
        !failed && originalText == old(originalText) && hiraganaText == old(hiraganaText)
        && lyricKeywords == old(lyricKeywords)
      ensures !AllWhitespace(old(lyricKeywords)) ==>
        && (failed <==> AppendGenerated(old(originalText), generated).None?)
        && (failed ==> originalText == old(originalText) && hiraganaText == old(hiraganaText)
                       && lyricKeywords == old(lyricKeywords))
        && (!failed ==> originalText == AppendGenerated(old(originalText), generated).value
                        && hiraganaText == converted && lyricKeywords == "")
      ensures activeTab == old(activeTab) && isEditing == old(isEditing)
    {
      TrimEmptyIff(lyricKeywords);
      failed := false;
      if Trim(lyricKeywords) == "" {
        return;
      }
      var newText := AppendGenerated(originalText, generated);
      if newText.Some? {
        originalText := newText.value;
        lyricKeywords := "";
        hiraganaText := converted;
      } else {
        failed := true;
      }
    }

    /** `handleClear`: with the user's confirmation, empties the active buffer
        and puts the text area in edit mode; nothing happens when all buffers
        are already empty. */
    method Clear(confirmed: bool)
      modifies this
      ensures old(originalText) == "" && old(hiraganaText) == "" ==>
        originalText == "" && hiraganaText == "" && isEditing == old(isEditing)
      ensures !confirmed ==>
        originalText == old(originalText) && hiraganaText == old(hiraganaText) && isEditing == old(isEditing)
      ensures confirmed && (old(originalText) != "" || old(hiraganaText) != "") ==>
        CurrentText() == "" && isEditing
        && (activeTab == Original ==> hiraganaText == old(hiraganaText))
        && (activeTab == Hiragana ==> originalText == old(originalText))
      ensures activeTab == old(activeTab) && lyricKeywords == old(lyricKeywords)
    {
      if CurrentText() == "" && originalText == "" && hiraganaText == "" {
        return;
      }
      if confirmed {
        if activeTab == Original {
          originalText := "";
        } else {
          hiraganaText := "";
        }
        isEditing := true;
      }
    }

    /** `handleInsertTag`: the tag replaces the caret selection of the active
        buffer; the returned range is the selection set afterwards. */
    method InsertTag(tag: string, start: int, end: int) returns (newStart: int, newEnd: int)
      modifies this
      ensures CurrentText() == SpliceTag(old(CurrentText()), start, end, tag)
      ensures newStart == start && newEnd == start + |tag|
      ensures activeTab == old(activeTab) && isEditing == old(isEditing) && lyricKeywords == old(lyricKeywords)
      ensures activeTab == Original ==> hiraganaText == old(hiraganaText)
      ensures activeTab == Hiragana ==> originalText == old(originalText)
    {
      var text := CurrentText();
      var before := Substring(text, 0, start);
      var after := Substring(text, end, |text|);
      var newText := before + tag + after;
      SetCurrentText(newText);
      newStart := start;
      newEnd := start + |tag|;
    }

    /** `handleCopy`: the hiragana tab copies the merge of the original's
        structure with the hiragana content (when there is an original text),
        any other view copies the text shown; then double line breaks are
        collapsed. */
    function CopiedText(shown: string): string
      reads this
    {
      Compress(if activeTab == Hiragana && originalText != "" then MergeResult(originalText, hiraganaText) else shown)
    }

    /** The copy each button evidently means: the lyric button copies as
        `CopiedText` does, a prompt button copies the prompt (collapsed),
        whatever the lyric tab shows. */
    function CopiedTextFor(button: CopyButton, shown: string): string
      reads this
    {
      match button
      case LyricsCopy => CopiedText(shown)
      case PromptCopy => Compress(shown)
    }
  }

  // ------------------------------------------------------------ sessions

  /** After a paste, copying the original tab gives back the pasted text with
      CRLF normalised. */
  lemma CopyOriginalAfterPaste(s: Session, raw: string)
    requires s.activeTab == Original && s.originalText == DoubleSpace(NormalizeLineEndings(raw))
    ensures s.CopiedTextFor(LyricsCopy, s.CurrentText()) == NormalizeLineEndings(raw)
  {
    CompressDoubleSpace(NormalizeLineEndings(raw));
  }

  /** After a paste, copying the hiragana tab gives the merge of the
      normalised pasted text with the hiragana content. */
  lemma CopyHiraganaAfterPaste(s: Session, raw: string)
    requires s.activeTab == Hiragana && NormalizeLineEndings(raw) != ""
    requires s.originalText == DoubleSpace(NormalizeLineEndings(raw))
    ensures s.CopiedTextFor(LyricsCopy, s.CurrentText()) == MergeResult(NormalizeLineEndings(raw), s.hiraganaText)
  {
    var n := NormalizeLineEndings(raw);
    DoubleSpaceCons(n);
    CopyMergeOfDoubleSpaced(n, s.hiraganaText);
  }

  /** As written, the prompt buttons share `handleCopy` with the lyric button,
      so on the hiragana tab with an original text they copy the merged lyrics
      instead of the prompt: with original `a` and no hiragana text, the
      prompt `p` is copied as the empty string. */
  lemma PromptCopyAsWritten(s: Session)
    requires s.activeTab == Hiragana && s.originalText == "a" && s.hiraganaText == ""
    ensures s.CopiedText("p") == ""
    ensures s.CopiedText("p") != Compress("p")
  {
    assert Split("", '\n') == [""];
    assert "a"[0] == 'a';
    SplitNoSep("a", '\n');
    assert Trim("") == "";
    assert ContentQueue("") == [];
    assert MergedLines(["a"], []) == [""];
    assert MergeResult("a", "") == "";
    assert Compress("") == "";
    CompressNoBreak("p");
  }

  /** With the copy made per button, a prompt copies the same whatever the
      editor's state, and a one-line prompt copies as itself; the lyric button
      keeps the tab-dependent merge. */
  lemma PromptCopyCorrected(s: Session, t: Session, prompt: string)
    ensures s.CopiedTextFor(PromptCopy, prompt) == t.CopiedTextFor(PromptCopy, prompt)
    ensures NoChar(prompt, '\n') ==> s.CopiedTextFor(PromptCopy, prompt) == prompt
    ensures s.CopiedTextFor(LyricsCopy, prompt) == s.CopiedText(prompt)
  {
    if NoChar(prompt, '\n') {
      CompressNoBreak(prompt);
    }
  }
}
