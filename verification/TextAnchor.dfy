/** The Markdown anchorer: headings by "#" count, fenced blocks skipped. */
module TextAnchor {
  import opened Strings
  import opened Outline
  import opened Ladder

  predicate IsFence(line: string) {
    "```" <= TrimSpace(line)
  }

  function TitleOf(line: string): string {
    TrimSpace(DropHashes(line))
  }

  function HeadingMark(line: string): Option<Mark> {
    if "#" <= line && TitleOf(line) != "" then Some(Mark(|line| - |DropHashes(line)|, TitleOf(line))) else None
  }

  const MARKDOWN := Dialect(IsFence, HeadingMark)

  lemma MarkdownNamesDefinitions()
    ensures NamesDefinitions(MARKDOWN)
  {
  }

  /** A "#" line is never a fence line, so both heading scans of a file see the same fences. */
  lemma HashLineIsNotFence(line: string)
    requires "#" <= line
    ensures !IsFence(line)
  {
    TrimSpaceKeepsFirst(line);
  }

  // ---------- What a heading is ----------

  /** The line starts with `k` times "#", and no more. */
  predicate Hashes(line: string, k: nat) {
    && k <= |line| && (forall i | 0 <= i < k :: line[i] == '#') && (k < |line| ==> line[k] != '#')
  }

  /** Three backticks, with white space before them at most. */
  ghost predicate Backticks(line: string) {
    exists a :: BackticksAfter(line, a)
  }

  predicate BackticksAfter(line: string, a: int) {
    0 <= a <= |line| && Blank(line[..a]) && "```" <= line[a..]
  }

  ghost function FenceLines(lines: seq<string>): nat {
    if lines == [] then 0
    else FenceLines(lines[..|lines| - 1]) + if Backticks(lines[|lines| - 1]) then 1 else 0
  }

  /** Line `n` is a heading: outside fenced blocks, `level` times "#", and a title. */
  ghost predicate TitledAt(lines: seq<string>, n: int, level: nat, title: string) {
    && 1 <= n <= |lines| && FenceLines(lines[..n - 1]) % 2 == 0
    && level > 0 && Hashes(lines[n - 1], level)
    && title != "" && Trimmed(lines[n - 1][level..], title)
  }

  /** The outline of a Markdown file, said of its lines. */
  ghost predicate MarkdownOutline(lines: seq<string>, hs: seq<Heading>) {
    Outlines(hs, |lines|, (n: int, level: nat, title: string) => TitledAt(lines, n, level, title))
  }

  lemma {:induction false} FenceIffBackticks(line: string)
    ensures IsFence(line) <==> Backticks(line)
  {
    var t := TrimSpace(line);
    TrimSpaceIs(line, t);
    hide TrimSpace;
    var a, b :| Around(line, a, t, b);
    if "```" <= t {
      assert line[..|a|] == a && "```" <= line[|a|..];
      assert BackticksAfter(line, |a|);
    }
    if c :| BackticksAfter(line, c) {
      BackticksStart(line, c);
    }
  }

  lemma {:induction false} BackticksStart(line: string, c: nat)
    requires BackticksAfter(line, c)
    ensures "```" <= TrimSpace(line)
  {
    var rest := line[c..];
    var u := TrimRight(rest);
    TrimRightDropsBlanks(rest);
    hide TrimRight, TrimLeft;
    assert rest[0] == rest[1] == rest[2] == '`';
    assert Around(line, line[..c], u, rest[|u|..]);
    TrimSpaceIs(line, u);
  }

  lemma {:induction false} HashesDropped(line: string, k: nat)
    ensures Hashes(line, k) <==> k == |line| - |DropHashes(line)|
    ensures Hashes(line, k) ==> line[k..] == DropHashes(line)
  {
    var r := DropHashes(line);
    assert r != "" ==> line[|line| - |r|] == r[0];
  }

  /** A line opens a heading exactly when it is `k` times "#" and a title, whose level is then `k`. */
  lemma {:induction false} HeadingMarkIs(line: string, level: nat, title: string)
    ensures HeadingMark(line) == Some(Mark(level, title))
            <==> level > 0 && Hashes(line, level) && title != "" && Trimmed(line[level..], title)
  {
    HashesDropped(line, level);
    TrimSpaceIs(DropHashes(line), title);
    hide TrimSpace;
    assert "#" <= line <==> |DropHashes(line)| < |line|;
  }

  lemma {:induction false} FencesAreOdd(lines: seq<string>)
    ensures FenceAfter(MARKDOWN, false, lines) <==> FenceLines(lines) % 2 == 1
  {
    hide Backticks, IsFence;
    if lines != [] {
      FencesAreOdd(lines[..|lines| - 1]);
      FenceIffBackticks(lines[|lines| - 1]);
    }
  }

  lemma {:induction false} OpensIffTitled(lines: seq<string>, n: int, level: nat, title: string)
    ensures OpensAt(MARKDOWN, lines, n, level, title) <==> TitledAt(lines, n, level, title)
  {
    if 1 <= n <= |lines| {
      FencesAreOdd(lines[..n - 1]);
      HeadingMarkIs(lines[n - 1], level, title);
      if "#" <= lines[n - 1] { HashLineIsNotFence(lines[n - 1]); }
      hide HeadingMark, FenceAfter, Trimmed;
    }
  }

  lemma {:induction false} HeadingsAreMarkdown(lines: seq<string>)
    ensures MarkdownOutline(lines, Headings(MARKDOWN, lines))
  {
    forall n, level, title ensures OpensAt(MARKDOWN, lines, n, level, title) <==> TitledAt(lines, n, level, title) {
      OpensIffTitled(lines, n, level, title);
    }
    HeadingsAreOutline(MARKDOWN, lines, (n: int, level: nat, title: string) => TitledAt(lines, n, level, title));
  }

  /** The lines determine the outline. */
  lemma {:induction false} MarkdownOutlineIsUnique(lines: seq<string>, hs: seq<Heading>, hs': seq<Heading>)
    requires MarkdownOutline(lines, hs) && MarkdownOutline(lines, hs')
    ensures hs == hs'
  {
    var opening: Opening := (n: int, level: nat, title: string) => TitledAt(lines, n, level, title);
    hide TitledAt, Outlines;
    forall n, level, title, level', title' | opening(n, level, title) && opening(n, level', title')
      ensures level == level' && title == title'
    {
      OneTitle(lines, n, level, title, level', title');
    }
    OutlineIsUnique(hs, hs', |lines|, opening);
  }

  lemma OneTitle(lines: seq<string>, n: int, level: nat, title: string, level': nat, title': string)
    requires TitledAt(lines, n, level, title) && TitledAt(lines, n, level', title')
    ensures level == level' && title == title'
  {
    HeadingMarkIs(lines[n - 1], level, title);
    HeadingMarkIs(lines[n - 1], level', title');
    hide Hashes, Trimmed, HeadingMark;
  }

  method ParseHeadings(text: string) returns (heads: seq<Heading>)
    ensures heads == Headings(MARKDOWN, SplitLines(text))
    ensures MarkdownOutline(SplitLines(text), heads)
  {
    HeadingsAreMarkdown(SplitLines(text));
    hide MarkdownOutline;
    hide Scanned, Popped, TrimSpace, TrimLeft, TrimRight, DropHashes, SplitLines;
    var lines := SplitLines(text);
    heads := [];
    var stack: seq<Heading> := [];
    var inFence := false;
    ScanStart(MARKDOWN, lines);
    for i := 0 to |lines|
      invariant Scanned(MARKDOWN, lines, i, inFence, heads, stack)
    {
      var n, line := i + 1, lines[i];
      if !OpensHeading(MARKDOWN, inFence, line) {
        ScanSkip(MARKDOWN, lines, i, inFence, heads, stack);
      }
      if "```" <= TrimSpace(line) {
        inFence := !inFence;
        continue;
      }
      if inFence || !("#" <= line) {
        continue;
      }
      var title := TrimSpace(DropHashes(line));
      if title == "" {
        continue;
      }
      var level := |line| - |DropHashes(line)|;
      assert HeadingMark(line) == Some(Mark(level, title));
      var parents := PopToParent(stack, level, MARKDOWN, lines, i, inFence, heads);
      var path := title;
      if |parents| > 0 {
        path := parents[|parents| - 1].path + " > " + title;
      }
      var h := Heading(level, path, n, |lines|);
      ScanOpen(MARKDOWN, lines, i, inFence, heads, stack, parents);
      heads := CloseLast(heads, n) + [h];
      stack := parents + [h];
    }
    ScanEnd(MARKDOWN, lines, inFence, heads, stack);
  }

  method Enclosing(heads: seq<Heading>, line: int) returns (best: Option<Heading>)
    ensures best == Deepest(heads, line)
  {
    best := None;
    for i := 0 to |heads|
      invariant best == Deepest(heads[..i], line)
    {
      var h := heads[i];
      assert heads[..i + 1][..i] == heads[..i];
      if h.start <= line && line <= h.end {
        if best.None? || h.level > best.value.level {
          best := Some(h);
        }
      }
    }
    assert heads[..|heads|] == heads;
  }

  method Compute(text: string, span: Span) returns (a: Anchor)
    ensures a == AnchorAt(MARKDOWN, text, span)
    ensures exists hs :: MarkdownOutline(SplitLines(text), hs) && Anchors(SplitLines(text), hs, span, a)
  {
    hide MarkdownOutline, Anchors;
    AnchorTiers(MARKDOWN, text, span);
    a := Anchor("", NoHash, NoHash, span.byteHash);
    var heads := ParseHeadings(text);
    var h := Enclosing(heads, span.lineStart);
    if h.Some? {
      a := a.(symbolPath := h.value.path, nodeHash := HashNormalized(SectionText(text, h.value.start, h.value.end)));
    }
    a := a.(windowHash := WindowHash(text, span));
  }

  method CollectMatches(heads: seq<Heading>, path: string) returns (matches: seq<Heading>)
    ensures matches == Matches(heads, path)
  {
    matches := [];
    for i := 0 to |heads|
      invariant matches == Matches(heads[..i], path)
    {
      assert heads[..i + 1][..i] == heads[..i];
      if heads[i].path == path {
        matches := matches + [heads[i]];
      }
    }
    assert heads[..|heads|] == heads;
  }

  method Resolve(stored: Anchor, text: string) returns (v: VerdictKind)
    ensures v == VerdictFor(MARKDOWN, stored, text)
  {
    if !stored.Anchored() {
      return Unanchored;
    }
    var heads := ParseHeadings(text);
    var matches := CollectMatches(heads, stored.symbolPath);
    if |matches| == 0 {
      v := Classify(stored, NotFound);
    } else if |matches| == 1 {
      var h := matches[0];
      v := Classify(stored, Found(HashNormalized(SectionText(text, h.start, h.end))));
    } else {
      v := Classify(stored, SeveralFound);
    }
  }

  /** What `Compute` stores of a Markdown file, `Resolve` never finds changed in that file. */
  lemma ComputedStaysValid(text: string, span: Span)
    ensures !(VerdictFor(MARKDOWN, AnchorAt(MARKDOWN, text, span), text) == SemanticChange)
  {
    MarkdownNamesDefinitions();
    SameSourceVerdict(MARKDOWN, text, span);
  }
}
