/**
 * The section parser of the creation view: the lyric text is cut into
 * titled sections at every line that holds a bracketed tag.
 */
module Sections {
  import opened Text
  import opened Wrappers

  datatype Section = Section(title: string, content: string)

  const IntroTitle := "Intro/Start"
  const WholeSongTitle := "Whole Song"

  // ------------------------------------------------ the tag regex /\[(.*?)\]/

  /** The characters the regex `.` does not match. */
  predicate IsLineTerminator(c: char)
  {
    c == '\n' || c == '\r' || c == '\U{2028}' || c == '\U{2029}'
  }

  /** No `]` and no line terminator in `s[i..j]`, so `.*?` can span it. */
  predicate Plain(s: string, i: nat, j: nat)
    requires i <= j <= |s|
  {
    forall k :: i <= k < j ==> s[k] != ']' && !IsLineTerminator(s[k])
  }

  /** `/\[(.*?)\]/` matches with its brackets at `open` and `close`. */
  predicate MatchesAt(s: string, open: nat, close: nat)
  {
    open < close < |s| && s[open] == '[' && s[close] == ']' && Plain(s, open + 1, close)
  }

  /** The lazy `.*?` followed by `]`, starting at `i`: the first `]` at or after
      `i`, if no line terminator is met before it. */
  function CloseFrom(s: string, i: nat): (r: Option<nat>)
    requires i <= |s|
    ensures r.Some? ==> i <= r.value < |s| && s[r.value] == ']'
    decreases |s| - i
  {
    if i == |s| then None
    else if s[i] == ']' then Some(i)
    else if IsLineTerminator(s[i]) then None
    else CloseFrom(s, i + 1)
  }

  /** The leftmost match starting at or after `p`, as bracket positions. */
  function FindTag(s: string, p: nat): (r: Option<(nat, nat)>)
    requires p <= |s|
    ensures r.Some? ==> p <= r.value.0 < r.value.1 < |s| && s[r.value.0] == '['
    decreases |s| - p
  {
    if p == |s| then None
    else if s[p] == '[' && CloseFrom(s, p + 1).Some? then Some((p, CloseFrom(s, p + 1).value))
    else FindTag(s, p + 1)
  }

  /** `CloseFrom` finds the first `]` reachable without crossing a line
      terminator, and finds none exactly when no `]` is reachable. */
  lemma {:induction false} CloseFromSpec(s: string, i: nat)
    requires i <= |s|
    ensures CloseFrom(s, i).Some? ==> Plain(s, i, CloseFrom(s, i).value)
    ensures CloseFrom(s, i).None? ==> forall c :: i <= c < |s| && s[c] == ']' ==> !Plain(s, i, c)
    decreases |s| - i
  {
    if i < |s| && s[i] != ']' && !IsLineTerminator(s[i]) {
      CloseFromSpec(s, i + 1);
      if CloseFrom(s, i).None? {
        forall c | i <= c < |s| && s[c] == ']' ensures !Plain(s, i, c) {
          if Plain(s, i, c) { assert Plain(s, i + 1, c); }
        }
      }
    }
  }

  /** `FindTag` returns the leftmost match; its closing bracket is the first
      `]` after the opening one. */
  lemma {:induction false} FindTagSpec(s: string, p: nat)
    requires p <= |s|
    ensures FindTag(s, p).Some? ==> MatchesAt(s, FindTag(s, p).value.0, FindTag(s, p).value.1)
    ensures FindTag(s, p).Some? ==> forall c :: FindTag(s, p).value.0 < c < FindTag(s, p).value.1 ==> s[c] != ']'
    ensures FindTag(s, p).Some? ==> forall o, c :: p <= o < FindTag(s, p).value.0 && MatchesAt(s, o, c) ==> false
    ensures FindTag(s, p).None? ==> forall o, c :: p <= o && MatchesAt(s, o, c) ==> false
    decreases |s| - p
  {
    if p < |s| {
      CloseFromSpec(s, p + 1);
      if !(s[p] == '[' && CloseFrom(s, p + 1).Some?) {
        FindTagSpec(s, p + 1);
      }
    }
  }

  /** `line.match(/\[(.*?)\]/)?.[1]`: the captured label of the leftmost match. */
  function TagMatch(line: string): Option<string>
  {
    match FindTag(line, 0)
    case Some((o, c)) => Some(line[o + 1..c])
    case None => None
  }

  // ------------------------------------------------ the sections, by segment

  /** The lines before the first tag line, each followed by a line break. */
  function Leading(lines: seq<string>): string
  {
    if lines == [] || TagMatch(lines[0]).Some? then ""
    else lines[0] + "\n" + Leading(lines[1..])
  }

  /** One section per tag line: titled with its label, holding the tag line and
      the lines up to the next tag line, trimmed. */
  function TagSections(lines: seq<string>): seq<Section>
  {
    if lines == [] then []
    else match TagMatch(lines[0])
      case Some(name) =>
        [Section(name, Trim(lines[0] + "\n" + Leading(lines[1..])))] + TagSections(lines[1..])
      case None => TagSections(lines[1..])
  }

  /** The labels of the tag lines, in order. */
  function Labels(lines: seq<string>): seq<string>
  {
    if lines == [] then []
    else (match TagMatch(lines[0]) case Some(l) => [l] case None => []) + Labels(lines[1..])
  }

  function Titles(sections: seq<Section>): seq<string>
  {
    if sections == [] then [] else [sections[0].title] + Titles(sections[1..])
  }

  /** A buffer becomes a section only when it is not blank. */
  function Flush(title: string, buffer: string): seq<Section>
  {
    if Trim(buffer) != "" then [Section(title, Trim(buffer))] else []
  }

  /** The sections of a text: the untagged opening, if not blank, then one
      section per tag line. */
  function SectionsOf(text: string): seq<Section>
  {
    if text == "" then []
    else
      var lines := Split(text, '\n');
      Flush(IntroTitle, Leading(lines)) + TagSections(lines)
  }

  /** The parser reads the original text, or the hiragana text when the
      original is empty (`originalText || hiraganaText`). */
  function SourceText(originalText: string, hiraganaText: string): string
  {
    if originalText != "" then originalText else hiraganaText
  }

  /** `parseLyricSections` */
  method ParseLyricSections(originalText: string, hiraganaText: string) returns (sections: seq<Section>)
    ensures sections == SectionsOf(SourceText(originalText, hiraganaText))
    ensures sections == [] <==> AllWhitespace(SourceText(originalText, hiraganaText))
    ensures forall k :: 0 <= k < |sections| ==> Trimmed(sections[k])
  {
    var text := SourceText(originalText, hiraganaText);
    SectionsEmptyIff(text);
    SectionContentsTrimmed(text);
    TrimEmptyIff(text);
    if text == "" {
      return [];
    }
    sections := ScanLines(Split(text, '\n'));
    if |sections| == 0 && Trim(text) != "" {
      // unreachable: a text with a non-blank character always yields a section
      sections := sections + [Section(WholeSongTitle, text)];
    }
  }

  /** The state of the scan: the sections emitted so far, and the title and
      buffer of the section being read. */
  datatype ScanState = ScanState(sections: seq<Section>, title: string, content: string)

  /** One line of the scan: a tag line flushes the buffer and opens a section
      of its label, any other line is appended to the buffer. */
  function Step(st: ScanState, line: string): ScanState
  {
    match TagMatch(line)
    case Some(name) => ScanState(st.sections + Flush(st.title, st.content), name, line + "\n")
    case None => ScanState(st.sections, st.title, st.content + line + "\n")
  }

  /** The sections once the last buffer is flushed. */
  function Scan(st: ScanState, rest: seq<string>): seq<Section>
    decreases |rest|
  {
    if rest == [] then st.sections + Flush(st.title, st.content)
    else Scan(Step(st, rest[0]), rest[1..])
  }

  /** The scan of `parseLyricSections`: a buffer of the current section's
      lines, flushed at every tag line and at the end. */
  method ScanLines(lines: seq<string>) returns (sections: seq<Section>)
    ensures sections == Flush(IntroTitle, Leading(lines)) + TagSections(lines)
  {
    sections := [];
    var currentTitle := IntroTitle;
    var currentContent := "";
    ghost var goal := Scan(ScanState([], IntroTitle, ""), lines);
    assert lines[0..] == lines;
    for i := 0 to |lines|
      invariant Scan(ScanState(sections, currentTitle, currentContent), lines[i..]) == goal
    {
      var line := lines[i];
      ghost var st := ScanState(sections, currentTitle, currentContent);
      ScanCons(st, lines, i);
      var m := TagMatch(line);
      if m.Some? {
        if Trim(currentContent) != "" {
          sections := sections + [Section(currentTitle, Trim(currentContent))];
        } else {
          assert sections + [] == sections;
        }
        currentTitle := m.value;
        currentContent := line + "\n";
      } else {
        currentContent := currentContent + line + "\n";
      }
      assert ScanState(sections, currentTitle, currentContent) == Step(st, line);
    }
    assert lines[|lines|..] == [];
    if Trim(currentContent) != "" {
      sections := sections + [Section(currentTitle, Trim(currentContent))];
    } else {
      assert sections + [] == sections;
    }
    ScanPending(ScanState([], IntroTitle, ""), lines);
    assert "" + Leading(lines) == Leading(lines);
  }

  lemma ScanCons(st: ScanState, lines: seq<string>, i: nat)
    requires i < |lines|
    ensures Scan(st, lines[i..]) == Scan(Step(st, lines[i]), lines[i + 1..])
  {
    assert lines[i..][0] == lines[i] && lines[i..][1..] == lines[i + 1..];
  }

  /** What a scan still owes once it reaches `rest` with the buffer `content`
      open under `title`. */
  function Pending(title: string, content: string, rest: seq<string>): seq<Section>
  {
    Flush(title, content + Leading(rest)) + TagSections(rest)
  }

  /** The scan adds to what it has emitted the opening buffer of the rest,
      then one section per tag line of the rest. */
  lemma {:induction false} ScanPending(st: ScanState, rest: seq<string>)
    ensures Scan(st, rest) == st.sections + Pending(st.title, st.content, rest)
    decreases |rest|
  {
    if rest == [] {
      assert st.content + "" == st.content;
    } else {
      ParseStep(st, rest);
      ScanPending(Step(st, rest[0]), rest[1..]);
    }
  }

  // ---------------------------------------------------------------- lemmas

  /** One line of the scan moves a section from what is owed to what is
      emitted, or a line into the buffer, and leaves the total unchanged. */
  lemma ParseStep(st: ScanState, rest: seq<string>)
    requires rest != []
    ensures var next := Step(st, rest[0]);
      st.sections + Pending(st.title, st.content, rest)
      == next.sections + Pending(next.title, next.content, rest[1..])
  {
    var line := rest[0];
    var after := Leading(rest[1..]);
    match TagMatch(line)
    case Some(name) =>
      assert st.content + Leading(rest) == st.content;
      TagLineNotBlank(line, "\n" + after);
      assert line + ("\n" + after) == line + "\n" + after;
      var flushed := Flush(st.title, st.content);
      var owed := Pending(name, line + "\n", rest[1..]);
      assert Pending(st.title, st.content, rest) == flushed + owed;
      assert st.sections + (flushed + owed) == (st.sections + flushed) + owed;
    case None =>
      assert st.content + Leading(rest) == st.content + line + "\n" + after;
  }

  /** A line the tag regex matches holds a `[`, so no text that contains it is
      blank. */
  lemma TagLineNotBlank(line: string, after: string)
    requires TagMatch(line).Some?
    ensures Trim(line + after) != ""
    ensures StartsWith(Trim(line + after), Trim(line))
  {
    var o := FindTag(line, 0).value.0;
    assert line[o] == '[' && !IsWhitespace('[');
    assert (line + after)[o] == line[o];
    TrimNonEmpty(line + after, o);
    TrimStartAppend(line, after, o);
    TrimEndAppendPrefix(TrimStart(line), after);
  }

  /** What `TrimEnd` keeps of `a` survives when more text is appended. */
  lemma {:induction false} TrimEndAppendPrefix(a: string, b: string)
    ensures StartsWith(TrimEnd(a + b), TrimEnd(a))
    decreases |b|
  {
    TrimEndShape(a);
    if b == [] {
      assert a + b == a;
    } else {
      var ab := a + b;
      if IsWhitespace(ab[|ab| - 1]) {
        assert ab[..|ab| - 1] == a + b[..|b| - 1];
        TrimEndAppendPrefix(a, b[..|b| - 1]);
      } else {
        assert TrimEnd(ab) == ab;
        assert ab[..|TrimEnd(a)|] == a[..|TrimEnd(a)|];
      }
    }
  }

  /** Every section content is trimmed and not empty. */
  lemma SectionContentsTrimmed(text: string)
    ensures forall k :: 0 <= k < |SectionsOf(text)| ==> Trimmed(SectionsOf(text)[k])
  {
    if text != "" {
      var lines := Split(text, '\n');
      TrimIdempotent(Leading(lines));
      TagSectionContentsTrimmed(lines);
    }
  }

  /** A section as the parser emits it: its content trimmed and not empty. */
  predicate Trimmed(sec: Section)
  {
    sec.content != "" && Trim(sec.content) == sec.content
  }

  lemma {:induction false} TagSectionContentsTrimmed(lines: seq<string>)
    ensures forall k :: 0 <= k < |TagSections(lines)| ==> Trimmed(TagSections(lines)[k])
  {
    if lines != [] {
      var rest := TagSections(lines[1..]);
      TagSectionContentsTrimmed(lines[1..]);
      if TagMatch(lines[0]).Some? {
        var head := HeadSectionTrimmed(lines);
        assert TagSections(lines) == [head] + rest;
      }
    }
  }

  lemma HeadSectionTrimmed(lines: seq<string>) returns (head: Section)
    requires lines != [] && TagMatch(lines[0]).Some?
    ensures head == Section(TagMatch(lines[0]).value, Trim(lines[0] + "\n" + Leading(lines[1..])))
    ensures Trimmed(head)
  {
    var after := "\n" + Leading(lines[1..]);
    var buffer := lines[0] + "\n" + Leading(lines[1..]);
    TagLineNotBlank(lines[0], after);
    assert lines[0] + after == buffer;
    TrimIdempotent(buffer);
    head := Section(TagMatch(lines[0]).value, Trim(buffer));
  }

  /** The tag sections are titled with the labels of the tag lines, in order. */
  lemma {:induction false} TagSectionTitles(lines: seq<string>)
    ensures Titles(TagSections(lines)) == Labels(lines)
  {
    if lines != [] {
      TagSectionTitles(lines[1..]);
      if TagMatch(lines[0]).Some? {
        var head := Section(TagMatch(lines[0]).value, Trim(lines[0] + "\n" + Leading(lines[1..])));
        assert ([head] + TagSections(lines[1..]))[1..] == TagSections(lines[1..]);
      }
    }
  }

  /** In source order: "Intro/Start" when the text before the first tag is not
      blank, then one title per tag line, its captured label. */
  lemma SectionTitles(text: string)
    requires text != ""
    ensures Titles(SectionsOf(text))
         == (if Trim(Leading(Split(text, '\n'))) != "" then [IntroTitle] else []) + Labels(Split(text, '\n'))
  {
    var lines := Split(text, '\n');
    TagSectionTitles(lines);
    var f := Flush(IntroTitle, Leading(lines));
    assert (f + TagSections(lines))[|f|..] == TagSections(lines);
  }

  /** Without tag lines, the opening is the whole text plus a line break. */
  lemma {:induction false} LeadingWithoutTags(lines: seq<string>)
    requires |lines| >= 1 && Labels(lines) == []
    ensures Leading(lines) == Join(lines, "\n") + "\n"
  {
    if |lines| > 1 {
      LeadingWithoutTags(lines[1..]);
    }
  }

  lemma {:induction false} NoLabelsNoTagSections(lines: seq<string>)
    requires Labels(lines) == []
    ensures TagSections(lines) == []
  {
    if lines != [] {
      NoLabelsNoTagSections(lines[1..]);
    }
  }

  /** A text without tag lines gives the opening section alone: the text
      trimmed, titled "Intro/Start", unless it is blank. */
  lemma UntaggedText(text: string)
    requires text != "" && Labels(Split(text, '\n')) == []
    ensures SectionsOf(text) == Flush(IntroTitle, text)
  {
    var lines := Split(text, '\n');
    LeadingWithoutTags(lines);
    JoinSplit(text, '\n');
    NoLabelsNoTagSections(lines);
    assert AllWhitespace("\n");
    TrimAppendWhitespace(text, "\n");
  }

  /** A text yields no section exactly when it is empty or blank; so the
      "Whole Song" fallback of the parser is never taken. */
  lemma SectionsEmptyIff(text: string)
    ensures SectionsOf(text) == [] <==> AllWhitespace(text)
  {
    if text != "" {
      var lines := Split(text, '\n');
      TrimEmptyIff(text);
      if Labels(lines) == [] {
        UntaggedText(text);
      } else {
        TagSectionTitles(lines);
        assert AllWhitespace(text) ==> Labels(lines) == [] by {
          if AllWhitespace(text) { AllWhitespaceNoTag(text); }
        }
      }
    }
  }

  lemma TagLineHasBracket(line: string)
    ensures TagMatch(line).Some? ==> !AllWhitespace(line)
  {
    match FindTag(line, 0)
    case Some((o, c)) =>
      assert line[o] == '[';
    case None =>
  }

  /** A blank text has no tag line. */
  lemma AllWhitespaceNoTag(text: string)
    requires AllWhitespace(text)
    ensures Labels(Split(text, '\n')) == []
  {
    JoinSplit(text, '\n');
    var lines := Split(text, '\n');
    forall j | 0 <= j < |lines| ensures TagMatch(lines[j]).None? {
      JoinLineWhitespace(lines, j);
      TagLineHasBracket(lines[j]);
    }
    NoneLabels(lines);
  }

  lemma {:induction false} NoneLabels(lines: seq<string>)
    requires forall j :: 0 <= j < |lines| ==> TagMatch(lines[j]).None?
    ensures Labels(lines) == []
  {
    if lines != [] { NoneLabels(lines[1..]); }
  }

  /** Each line of a blank joined text is blank. */
  lemma {:induction false} JoinLineWhitespace(lines: seq<string>, j: nat)
    requires j < |lines| && AllWhitespace(Join(lines, "\n"))
    ensures AllWhitespace(lines[j])
  {
    if |lines| > 1 {
      AllWhitespaceConcat(lines[0] + "\n", Join(lines[1..], "\n"));
      AllWhitespaceConcat(lines[0], "\n");
      if j > 0 { JoinLineWhitespace(lines[1..], j - 1); }
    }
  }

  /** The tag line at index `j` opens the section of its label, and that
      section's content begins with the trimmed tag line. */
  lemma {:induction false} TagLineOpensSection(lines: seq<string>, j: nat)
    requires j < |lines| && TagMatch(lines[j]).Some?
    ensures |Labels(lines[..j])| < |TagSections(lines)|
    ensures TagSections(lines)[|Labels(lines[..j])|].title == TagMatch(lines[j]).value
    ensures StartsWith(TagSections(lines)[|Labels(lines[..j])|].content, Trim(lines[j]))
  {
    if j == 0 {
      TagLineOpensFirst(lines);
    } else {
      var rest := lines[1..];
      TagLineOpensSection(rest, j - 1);
      assert rest[j - 1] == lines[j];
      LabelsPrefixCons(lines, j);
      TagSectionsShift(lines, |Labels(rest[..j - 1])|);
    }
  }

  /** 1 for a tag line, 0 otherwise. */
  function TagWeight(line: string): nat
  {
    if TagMatch(line).Some? then 1 else 0
  }

  lemma TagLineOpensFirst(lines: seq<string>)
    requires |lines| > 0 && TagMatch(lines[0]).Some?
    ensures |Labels(lines[..0])| == 0 < |TagSections(lines)|
    ensures TagSections(lines)[0].title == TagMatch(lines[0]).value
    ensures StartsWith(TagSections(lines)[0].content, Trim(lines[0]))
  {
    assert lines[..0] == [];
    var after := "\n" + Leading(lines[1..]);
    TagLineNotBlank(lines[0], after);
    assert lines[0] + after == lines[0] + "\n" + Leading(lines[1..]);
  }

  lemma LabelsPrefixCons(lines: seq<string>, j: nat)
    requires 0 < j <= |lines|
    ensures |Labels(lines[..j])| == TagWeight(lines[0]) + |Labels(lines[1..][..j - 1])|
  {
    assert lines[..j][1..] == lines[1..][..j - 1];
    assert lines[..j][0] == lines[0];
  }

  lemma TagSectionsShift(lines: seq<string>, n: nat)
    requires |lines| > 0 && n < |TagSections(lines[1..])|
    ensures |TagSections(lines)| == TagWeight(lines[0]) + |TagSections(lines[1..])|
    ensures TagSections(lines)[TagWeight(lines[0]) + n] == TagSections(lines[1..])[n]
  {
  }

  /** The regex finds a tag exactly when some `[` has a `]` after it with no
      line terminator in between; the label is the text between the leftmost
      such `[` and the first `]` after it. */
  lemma TagMatchSpec(line: string)
    ensures TagMatch(line).Some? <==> exists o: nat, c: nat :: MatchesAt(line, o, c)
    ensures TagMatch(line).Some? ==> exists o: nat, c: nat ::
      && MatchesAt(line, o, c) && TagMatch(line).value == line[o + 1..c]
      && (forall o': nat, c': nat :: o' < o && MatchesAt(line, o', c') ==> false)
      && (forall c' :: o < c' < c ==> line[c'] != ']')
  {
    FindTagSpec(line, 0);
    match FindTag(line, 0)
    case Some((o, c)) =>
      assert MatchesAt(line, o, c);
    case None =>
  }
}
