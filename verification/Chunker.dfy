/** Seeding: a file is cut into chunks at "#" lines and, in long sections, by line count. */
module Chunker {
  import opened Strings
  import opened Outline
  import opened Ladder
  import opened TextAnchor

  const TARGET_LINES := 40

  datatype Chunk = Chunk(ordinal: nat, lineStart: nat, lineEnd: nat, text: string, heading: string,
                         sha: Hash, anchor: Anchor)

  const UNANCHORED := Anchor("", NoHash, NoHash, NoHash)

  // ---------- What a cut is ----------

  /** Inside a fenced block after line `n`. */
  predicate Fenced(lines: seq<string>, n: nat)
    requires n <= |lines|
  {
    FenceAfter(MARKDOWN, false, lines[..n])
  }

  /** Line `n` starts with "#" outside a fence; it need not have a title. */
  predicate HashAt(lines: seq<string>, n: nat)
    requires 1 <= n <= |lines|
  {
    !Fenced(lines, n) && "#" <= lines[n - 1]
  }

  /** No "#" line after the first one, and from the fortieth line on always inside a fence. */
  ghost predicate Uncut(lines: seq<string>, a: nat, b: nat)
    requires b <= |lines|
  {
    && (forall n | a + 1 < n <= b :: !HashAt(lines, n))
    && (forall n | a + TARGET_LINES <= n < b :: Fenced(lines, n))
  }

  /** Lines a+1 to b make one segment: they run to the first place where a segment may end. */
  ghost predicate Segment(lines: seq<string>, a: nat, b: nat) {
    && a < b <= |lines|
    && Uncut(lines, a, b)
    && (b == |lines| || HashAt(lines, b + 1) || (b - a >= TARGET_LINES && !Fenced(lines, b)))
  }

  /** A "#" line outside fenced blocks. */
  ghost predicate HashLine(lines: seq<string>, n: int) {
    1 <= n <= |lines| && FenceLines(lines[..n - 1]) % 2 == 0 && "#" <= lines[n - 1]
  }

  /** A segment ends before the next "#" line outside fenced blocks; or, from its fortieth line on, at the first line
      that is not inside one; or with the file. */
  lemma {:induction false} SegmentIs(lines: seq<string>, a: nat, b: nat)
    ensures Segment(lines, a, b)
            <==> && a < b <= |lines|
                 && (forall n | a + 1 < n <= b :: !HashLine(lines, n))
                 && (forall n | a + 40 <= n < b :: FenceLines(lines[..n]) % 2 == 1)
                 && (b == |lines| || HashLine(lines, b + 1) || (b - a >= 40 && FenceLines(lines[..b]) % 2 == 0))
  {
    hide FenceLines;
    forall n: nat | n <= |lines| ensures Fenced(lines, n) <==> FenceLines(lines[..n]) % 2 == 1 {
      FencesAreOdd(lines[..n]);
    }
    hide Fenced;
    forall n | 1 <= n <= |lines| ensures HashAt(lines, n) <==> HashLine(lines, n) {
      HashAtIs(lines, n);
    }
    hide HashAt, HashLine;
  }

  lemma HashAtIs(lines: seq<string>, n: nat)
    requires 1 <= n <= |lines|
    ensures HashAt(lines, n) <==> HashLine(lines, n)
  {
    FencesAreOdd(lines[..n - 1]);
    HeadingByNext(lines, n - 1);
    if "#" <= lines[n - 1] { HashLineIsNotFence(lines[n - 1]); }
  }

  /** `cuts` divides the first `cuts[|cuts|-1]` lines into segments. */
  ghost predicate Cuts(lines: seq<string>, cuts: seq<nat>) {
    && cuts != [] && cuts[0] == 0
    && forall i | 0 <= i < |cuts| - 1 :: Segment(lines, cuts[i], cuts[i + 1])
  }

  /** A file has exactly one division into segments. */
  lemma {:induction false} CutsAreUnique(lines: seq<string>, cuts: seq<nat>, cuts': seq<nat>, i: nat)
    requires Cuts(lines, cuts) && Cuts(lines, cuts')
    requires i < |cuts| && i < |cuts'|
    ensures cuts[i] == cuts'[i]
  {
    if i > 0 {
      CutsAreUnique(lines, cuts, cuts', i - 1);
      assert Segment(lines, cuts[i - 1], cuts[i - 1 + 1]) && Segment(lines, cuts'[i - 1], cuts'[i - 1 + 1]);
    }
  }

  /** The title of the last titled heading on one of the first `n` lines, or "". */
  function HeadingBy(lines: seq<string>, n: nat): string
    requires n <= |lines|
  {
    var es := Entries(MARKDOWN, false, lines[..n]);
    if es == [] then "" else es[|es| - 1].name
  }

  /** The chunk of lines a+1 to b, if they are not blank. */
  function Emit(chunks: seq<Chunk>, lines: seq<string>, a: nat, b: nat): seq<Chunk>
    requires a < b <= |lines|
  {
    Flush(chunks, lines[a..b], HeadingBy(lines, a + 1), a + 1, b)
  }

  function Flush(chunks: seq<Chunk>, buf: seq<string>, heading: string, start: nat, end: nat): seq<Chunk> {
    var text := TrimSpace(Join(buf, "\n"));
    if text == "" then chunks
    else chunks + [Chunk(|chunks|, start, end, text, heading, Sha(text), UNANCHORED)]
  }

  function ChunksOf(lines: seq<string>, cuts: seq<nat>): seq<Chunk>
    requires Cuts(lines, cuts)
  {
    if |cuts| == 1 then []
    else
      var k := |cuts| - 1;
      assert Segment(lines, cuts[k - 1], cuts[k - 1 + 1]);
      assert Cuts(lines, cuts[..k]);
      Emit(ChunksOf(lines, cuts[..k]), lines, cuts[k - 1], cuts[k])
  }

  lemma {:induction false} AddCut(lines: seq<string>, cuts: seq<nat>, b: nat)
    requires Cuts(lines, cuts) && Segment(lines, cuts[|cuts| - 1], b)
    ensures Cuts(lines, cuts + [b])
    ensures ChunksOf(lines, cuts + [b]) == Emit(ChunksOf(lines, cuts), lines, cuts[|cuts| - 1], b)
  {
    hide Segment;
    var more := cuts + [b];
    forall i | 0 <= i < |more| - 1 ensures Segment(lines, more[i], more[i + 1]) {
      if i < |cuts| - 1 {
        assert Segment(lines, cuts[i], cuts[i + 1]);
      }
    }
    assert more[..|cuts|] == cuts;
  }

  // ---------- The line loop ----------

  /** After `i` lines the buffer holds the lines since the last cut, and `heading` their heading. */
  ghost predicate Chunking(lines: seq<string>, i: nat, cuts: seq<nat>, chunks: seq<Chunk>, buf: seq<string>,
                           heading: string, start: nat, inFence: bool)
  {
    && i <= |lines| && Cuts(lines, cuts) && 1 <= start <= i + 1
    && cuts[|cuts| - 1] + 1 == start
    && chunks == ChunksOf(lines, cuts)
    && inFence == Fenced(lines, i)
    && buf == lines[start - 1..i]
    && heading == HeadingBy(lines, i)
    && Uncut(lines, start - 1, i) && (i - (start - 1) >= TARGET_LINES ==> Fenced(lines, i))
    && (start <= i ==> heading == HeadingBy(lines, start))
  }

  lemma {:induction false} HeadingByNext(lines: seq<string>, i: nat)
    requires i < |lines|
    ensures HeadingBy(lines, i + 1) ==
              if HashAt(lines, i + 1) && TitleOf(lines[i]) != "" then TitleOf(lines[i]) else HeadingBy(lines, i)
    ensures Fenced(lines, i + 1) == (Fenced(lines, i) != IsFence(lines[i]))
  {
    ScanLine(MARKDOWN, lines, i);
    if "#" <= lines[i] {
      HashLineIsNotFence(lines[i]);
    }
  }

  lemma {:induction false} CutBeforeHash(lines: seq<string>, i: nat, cuts: seq<nat>, chunks: seq<Chunk>,
                                         buf: seq<string>, heading: string, start: nat, inFence: bool)
    requires Chunking(lines, i, cuts, chunks, buf, heading, start, inFence)
    requires i < |lines| && HashAt(lines, i + 1) && buf != []
    ensures Chunking(lines, i, cuts + [i], Flush(chunks, buf, heading, start, i), [], heading, i + 1, inFence)
  {
    hide Cuts, ChunksOf, HashAt, Fenced, HeadingBy, Flush;
    assert Segment(lines, start - 1, i);
    AddCut(lines, cuts, i);
  }

  lemma {:induction false} TakeLine(lines: seq<string>, i: nat, cuts: seq<nat>, chunks: seq<Chunk>,
                                    buf: seq<string>, heading: string, start: nat, inFence: bool)
    requires Chunking(lines, i, cuts, chunks, buf, heading, start, inFence) && i < |lines|
    requires HashAt(lines, i + 1) ==> buf == []
    requires |buf| + 1 < TARGET_LINES || Fenced(lines, i + 1)
    ensures Chunking(lines, i + 1, cuts, chunks, buf + [lines[i]], HeadingBy(lines, i + 1), start, Fenced(lines, i + 1))
  {
    hide Cuts, ChunksOf, HashAt, Fenced, HeadingBy, TitleOf, IsFence;
    HeadingByNext(lines, i);
    assert lines[start - 1..i + 1] == lines[start - 1..i] + [lines[i]];
  }

  lemma {:induction false} TakeLineAndCut(lines: seq<string>, i: nat, cuts: seq<nat>, chunks: seq<Chunk>,
                                          buf: seq<string>, heading: string, start: nat, inFence: bool)
    requires Chunking(lines, i, cuts, chunks, buf, heading, start, inFence) && i < |lines|
    requires HashAt(lines, i + 1) ==> buf == []
    requires |buf| + 1 >= TARGET_LINES && !Fenced(lines, i + 1)
    ensures Chunking(lines, i + 1, cuts + [i + 1],
                     Flush(chunks, buf + [lines[i]], HeadingBy(lines, i + 1), start, i + 1),
                     [], HeadingBy(lines, i + 1), i + 2, false)
  {
    hide Cuts, ChunksOf, HashAt, Fenced, HeadingBy, TitleOf, IsFence, Flush;
    HeadingByNext(lines, i);
    assert lines[start - 1..i + 1] == lines[start - 1..i] + [lines[i]];
    assert Segment(lines, start - 1, i + 1);
    AddCut(lines, cuts, i + 1);
    assert HeadingBy(lines, start) == HeadingBy(lines, i + 1);
  }

  lemma {:induction false} CutAtEnd(lines: seq<string>, cuts: seq<nat>, chunks: seq<Chunk>, buf: seq<string>,
                                    heading: string, start: nat, inFence: bool)
    requires Chunking(lines, |lines|, cuts, chunks, buf, heading, start, inFence)
    ensures buf == [] ==> Flush(chunks, buf, heading, start, |lines|) == chunks && cuts[|cuts| - 1] == |lines|
    ensures buf != [] ==> Cuts(lines, cuts + [|lines|])
    ensures buf != [] ==> Flush(chunks, buf, heading, start, |lines|) == ChunksOf(lines, cuts + [|lines|])
  {
    if buf == [] {
      TrimSpaceEmptyIffBlank("");
    } else {
      hide Cuts, ChunksOf, HashAt, Fenced, HeadingBy, Flush;
      assert Segment(lines, start - 1, |lines|);
      AddCut(lines, cuts, |lines|);
    }
  }

  function SpanOf(c: Chunk): Span {
    Span(c.lineStart, c.lineEnd, c.sha)
  }

  /** The chunks of the file's segments, numbered, each anchored at its first line. */
  ghost predicate ChunkedAt(lines: seq<string>, cuts: seq<nat>, chunks: seq<Chunk>) {
    && Cuts(lines, cuts) && cuts[|cuts| - 1] == |lines|
    && |chunks| == |ChunksOf(lines, cuts)|
    && forall i | 0 <= i < |chunks| ::
         chunks[i] == ChunksOf(lines, cuts)[i].(ordinal := i,
           anchor := AnchorAt(MARKDOWN, Join(lines, "\n"), SpanOf(ChunksOf(lines, cuts)[i])))
  }

  /** The chunks of a file given as its lines. */
  method ChunkFile(lines: seq<string>) returns (chunks: seq<Chunk>)
    ensures exists cuts :: ChunkedAt(lines, cuts, chunks)
  {
    hide Chunking, Flush, HeadingBy, TrimSpace, DropHashes, ChunksOf, Segment, Uncut;
    chunks := [];
    ghost var cuts: seq<nat> := [0];
    var buf: seq<string> := [];
    var heading, pendingHeading := "", "";
    var start := 1;
    var inFence := false;
    ChunkStart(lines);

    for i := 0 to |lines|
      invariant Chunking(lines, i, cuts, chunks, buf, heading, start, inFence) && pendingHeading == heading
    {
      var n, line := i + 1, lines[i];
      HeadingByNext(lines, i);
      ChunkingFacts(lines, i, cuts, chunks, buf, heading, start, inFence);
      ghost var before := inFence;
      if "```" <= TrimSpace(line) {
        inFence := !inFence;
      }
      ghost var was := heading;
      if !inFence && "#" <= line {
        if |buf| > 0 {
          CutBeforeHash(lines, i, cuts, chunks, buf, heading, start, before);
          chunks := Flush(chunks, buf, heading, start, n - 1);
          buf := [];
          start := n;
          cuts := cuts + [i];
        }
        heading := pendingHeading;
        var h := TrimSpace(DropHashes(line));
        if h != "" {
          heading := h;
          pendingHeading := h;
        }
      }
      assert heading == HeadingBy(lines, n);
      if |buf| + 1 >= TARGET_LINES && !inFence {
        TakeLineAndCut(lines, i, cuts, chunks, buf, was, start, before);
        cuts := cuts + [n];
      } else {
        TakeLine(lines, i, cuts, chunks, buf, was, start, before);
      }
      buf := buf + [line];
      if |buf| >= TARGET_LINES && !inFence {
        chunks := Flush(chunks, buf, heading, start, n);
        buf := [];
        start := n + 1;
      }
    }
    CutAtEnd(lines, cuts, chunks, buf, heading, start, inFence);
    ChunkingFacts(lines, |lines|, cuts, chunks, buf, heading, start, inFence);
    chunks := Flush(chunks, buf, heading, start, |lines|);
    if |buf| > 0 {
      cuts := cuts + [|lines|];
    }
    ghost var found := chunks;

    for i := 0 to |chunks|
      invariant |chunks| == |found|
      invariant forall j | 0 <= j < |found| :: chunks[j] == if j < i then found[j].(ordinal := j) else found[j]
    {
      chunks := chunks[i := chunks[i].(ordinal := i)];
    }
    var fullText := Join(lines, "\n");
    for i := 0 to |chunks|
      invariant |chunks| == |found|
      invariant forall j | 0 <= j < |found| :: chunks[j] ==
                  if j < i then found[j].(ordinal := j, anchor := AnchorAt(MARKDOWN, fullText, SpanOf(found[j])))
                  else found[j].(ordinal := j)
    {
      var a := TextAnchor.Compute(fullText, SpanOf(chunks[i]));
      chunks := chunks[i := chunks[i].(anchor := a)];
    }
    assert ChunkedAt(lines, cuts, chunks);
  }

  lemma {:induction false} ChunkStart(lines: seq<string>)
    ensures Chunking(lines, 0, [0], [], [], "", 1, false)
  {
  }

  lemma {:induction false} ChunkingFacts(lines: seq<string>, i: nat, cuts: seq<nat>, chunks: seq<Chunk>,
                                         buf: seq<string>, heading: string, start: nat, inFence: bool)
    requires Chunking(lines, i, cuts, chunks, buf, heading, start, inFence)
    ensures i <= |lines| && inFence == Fenced(lines, i) && heading == HeadingBy(lines, i)
    ensures Cuts(lines, cuts) && chunks == ChunksOf(lines, cuts)
  {
  }

  // ---------- What the chunks are ----------

  predicate BlankLine(lines: seq<string>, n: nat)
    requires 1 <= n <= |lines|
  {
    Blank(lines[n - 1])
  }

  ghost predicate NonBlankBetween(lines: seq<string>, a: nat, b: nat)
    requires a <= b <= |lines|
  {
    exists n :: a < n <= b && !BlankLine(lines, n)
  }

  /** One chunk: a segment that is not blank, with its own text and the heading in force on its first line. */
  ghost predicate ChunkOfSegment(lines: seq<string>, c: Chunk) {
    && 1 <= c.lineStart <= c.lineEnd <= |lines|
    && Segment(lines, c.lineStart - 1, c.lineEnd)
    && c.text == TrimSpace(Join(lines[c.lineStart - 1..c.lineEnd], "\n")) && c.text != ""
    && c.sha == Sha(c.text)
    && c.heading == HeadingBy(lines, c.lineStart)
    && !Fenced(lines, c.lineStart - 1)
    && NonBlankBetween(lines, c.lineStart - 1, c.lineEnd)
  }

  /** The chunks tile the file: in order, disjoint, numbered without gaps, one for every segment that
      is not blank, so that each non-blank line among the first `upTo` lies in exactly one of them. */
  ghost predicate ChunksTile(lines: seq<string>, upTo: nat, chunks: seq<Chunk>) {
    && upTo <= |lines|
    && (forall i | 0 <= i < |chunks| ::
          ChunkOfSegment(lines, chunks[i]) && chunks[i].ordinal == i && chunks[i].lineEnd <= upTo)
    && (forall i, j | 0 <= i < j < |chunks| :: chunks[i].lineEnd < chunks[j].lineStart)
    && (forall n | 1 <= n <= upTo && !BlankLine(lines, n) :: exists i :: HasLine(chunks, i, n))
  }

  ghost predicate HasLine(chunks: seq<Chunk>, i: int, n: int) {
    0 <= i < |chunks| && chunks[i].lineStart <= n <= chunks[i].lineEnd
  }

  lemma {:induction false} SegmentText(lines: seq<string>, a: nat, b: nat)
    requires a <= b <= |lines|
    ensures TrimSpace(Join(lines[a..b], "\n")) != "" <==> NonBlankBetween(lines, a, b)
  {
    hide TrimSpace, Join, Blank;
    var part := lines[a..b];
    TrimSpaceEmptyIffBlank(Join(part, "\n"));
    NewlineIsBlank();
    JoinBlank(part, "\n");
    if i :| 0 <= i < |part| && !Blank(part[i]) {
      assert !BlankLine(lines, a + i + 1);
    }
    if n :| a < n <= b && !BlankLine(lines, n) {
      assert part[n - 1 - a] == lines[n - 1];
    }
  }

  lemma NewlineIsBlank()
    ensures Blank("\n")
  {
  }

  lemma {:induction false} HashAtIsOutsideFences(lines: seq<string>, n: nat)
    requires n == 0 || (n < |lines| && HashAt(lines, n + 1))
    ensures !Fenced(lines, n)
  {
    if n > 0 {
      HeadingByNext(lines, n);
      HashLineIsNotFence(lines[n]);
    }
  }

  /** No segment starts inside a fence. */
  lemma {:induction false} CutsAreOutsideFences(lines: seq<string>, cuts: seq<nat>, i: nat)
    requires Cuts(lines, cuts) && i < |cuts|
    ensures cuts[i] <= |lines| && (cuts[i] < |lines| || i == 0 ==> !Fenced(lines, cuts[i]))
  {
    hide HashAt, Fenced, IsFence, HeadingBy, Uncut;
    if i == 0 {
      assert !Fenced(lines, 0) by {
        HashAtIsOutsideFences(lines, 0);
      }
    } else {
      assert Segment(lines, cuts[i - 1], cuts[i - 1 + 1]);
      if cuts[i] < |lines| && HashAt(lines, cuts[i] + 1) {
        HashAtIsOutsideFences(lines, cuts[i]);
      }
    }
  }

  lemma {:induction false} SegmentsTile(lines: seq<string>, cuts: seq<nat>)
    requires Cuts(lines, cuts)
    ensures cuts[|cuts| - 1] <= |lines| && ChunksTile(lines, cuts[|cuts| - 1], ChunksOf(lines, cuts))
  {
    CutsAreOutsideFences(lines, cuts, |cuts| - 1);
    if |cuts| > 1 {
      var k := |cuts| - 1;
      assert Segment(lines, cuts[k - 1], cuts[k - 1 + 1]);
      assert Cuts(lines, cuts[..k]) && cuts[..k][k - 1] == cuts[k - 1];
      SegmentsTile(lines, cuts[..k]);
      CutsAreOutsideFences(lines, cuts, k - 1);
      EmitTiles(lines, cuts[k - 1], cuts[k], ChunksOf(lines, cuts[..k]));
    }
  }

  lemma {:induction false} EmitTiles(lines: seq<string>, a: nat, b: nat, chunks: seq<Chunk>)
    requires Segment(lines, a, b) && !Fenced(lines, a) && ChunksTile(lines, a, chunks)
    ensures ChunksTile(lines, b, Emit(chunks, lines, a, b))
  {
    hide ChunksTile, HasLine, Uncut, Fenced, HeadingBy, TrimSpace, Join;
    SegmentText(lines, a, b);
    if NonBlankBetween(lines, a, b) {
      var c := Chunk(|chunks|, a + 1, b, TrimSpace(Join(lines[a..b], "\n")), HeadingBy(lines, a + 1),
                     Sha(TrimSpace(Join(lines[a..b], "\n"))), UNANCHORED);
      assert ChunkOfSegment(lines, c);
      AppendTiles(lines, a, b, chunks, c);
    } else {
      SkipTiles(lines, a, b, chunks);
    }
  }

  lemma {:induction false} SkipTiles(lines: seq<string>, a: nat, b: nat, chunks: seq<Chunk>)
    requires a < b <= |lines| && ChunksTile(lines, a, chunks) && !NonBlankBetween(lines, a, b)
    ensures ChunksTile(lines, b, chunks)
  {
  }

  lemma {:induction false} AppendTiles(lines: seq<string>, a: nat, b: nat, chunks: seq<Chunk>, c: Chunk)
    requires a < b <= |lines| && ChunksTile(lines, a, chunks)
    requires ChunkOfSegment(lines, c) && c.ordinal == |chunks| && c.lineStart == a + 1 && c.lineEnd == b
    ensures ChunksTile(lines, b, chunks + [c])
  {
    hide ChunkOfSegment, BlankLine;
    var more := chunks + [c];
    assert forall i | 0 <= i < |chunks| :: more[i] == chunks[i];
    forall n | 1 <= n <= b && !BlankLine(lines, n) ensures exists i :: HasLine(more, i, n) {
      if n <= a {
        var i :| HasLine(chunks, i, n);
        assert HasLine(more, i, n);
      } else {
        assert HasLine(more, |chunks|, n);
      }
    }
  }

  /** What the line loop returns tiles the file. */
  lemma {:induction false} ChunksTileTheFile(lines: seq<string>, cuts: seq<nat>, chunks: seq<Chunk>)
    requires ChunkedAt(lines, cuts, chunks)
    ensures ChunksTile(lines, |lines|, chunks)
  {
    hide ChunkOfSegment, ChunksOf, Segment;
    SegmentsTile(lines, cuts);
    var found := ChunksOf(lines, cuts);
    forall i | 0 <= i < |chunks| ensures ChunkOfSegment(lines, chunks[i]) {
      AnchorsAside(lines, found[i], chunks[i]);
    }
    forall n | 1 <= n <= |lines| && !BlankLine(lines, n) ensures exists i :: HasLine(chunks, i, n) {
      var i :| HasLine(found, i, n);
      assert HasLine(chunks, i, n);
    }
  }

  lemma AnchorsAside(lines: seq<string>, c: Chunk, c': Chunk)
    requires ChunkOfSegment(lines, c) && c' == c.(ordinal := c'.ordinal, anchor := c'.anchor)
    ensures ChunkOfSegment(lines, c')
  {
  }

  lemma CutsGoOn(lines: seq<string>, cuts: seq<nat>, i: nat)
    requires Cuts(lines, cuts) && i + 1 < |cuts|
    ensures cuts[i] < |lines|
  {
    assert Segment(lines, cuts[i], cuts[i + 1]);
  }

  lemma {:induction false} NoMoreCuts(lines: seq<string>, cuts: seq<nat>, cuts': seq<nat>)
    requires Cuts(lines, cuts) && Cuts(lines, cuts') && cuts[|cuts| - 1] == |lines|
    ensures |cuts'| <= |cuts|
  {
    hide Segment;
    if |cuts'| > |cuts| {
      CutsGoOn(lines, cuts', |cuts| - 1);
      CutsAreUnique(lines, cuts, cuts', |cuts| - 1);
    }
  }

  /** A file has only one list of chunks. */
  lemma {:induction false} ChunksAreUnique(lines: seq<string>, cuts: seq<nat>, chunks: seq<Chunk>, cuts': seq<nat>,
      chunks': seq<Chunk>)
    requires ChunkedAt(lines, cuts, chunks) && ChunkedAt(lines, cuts', chunks')
    ensures chunks == chunks'
  {
    hide ChunksOf, Segment;
    NoMoreCuts(lines, cuts, cuts');
    NoMoreCuts(lines, cuts', cuts);
    forall i | 0 <= i < |cuts| ensures cuts[i] == cuts'[i] {
      CutsAreUnique(lines, cuts, cuts', i);
    }
    assert cuts == cuts';
  }

  /** The two heading scans agree: a chunk's heading is the title of the heading that encloses its first
      line, and is empty exactly when there is none. `es` are the entries behind the headings. */
  lemma {:induction false} HeadingIsEnclosing(lines: seq<string>, c: Chunk)
    requires OneLines(lines) && ChunkOfSegment(lines, c)
    ensures var back := SplitLines(Join(lines, "\n"));
            var found := Deepest(Headings(MARKDOWN, back), c.lineStart);
            if c.heading == "" then found.None?
            else exists k :: 0 <= k < |Headings(MARKDOWN, back)|
                   && found == Some(Headings(MARKDOWN, back)[k])
                   && Entries(MARKDOWN, false, back)[k].name == c.heading
  {
    hide Headings, Entries, Segment, TrimSpace, SplitLines, Join, Fenced;
    SplitLinesOfJoin(lines);
    var back, s := WithoutFinalEmpty(lines), c.lineStart;
    assert s <= |back| && lines[..s] == back[..s] by {
      var n :| s - 1 < n <= c.lineEnd && !BlankLine(lines, n);
    }
    EnclosingByPrefix(back, s);
  }

  /** The chunk's heading is the title of the heading that its anchor's path leads to. */
  ghost predicate LeadsToHeading(lines: seq<string>, hs: seq<Heading>, c: Chunk) {
    if c.heading == "" then c.anchor.symbolPath == "" else exists k :: HeadingOfChunk(lines, hs, c, k)
  }

  ghost predicate HeadingOfChunk(lines: seq<string>, hs: seq<Heading>, c: Chunk, k: int) {
    && 0 <= k < |hs| && hs[k].start <= c.lineStart <= hs[k].end
    && c.anchor.symbolPath == hs[k].path && TitledAt(lines, hs[k].start, hs[k].level, c.heading)
  }

  /** A chunk is anchored by its own lines and hash, under its own heading. */
  lemma {:induction false} ChunksAreAnchored(lines: seq<string>, cuts: seq<nat>, chunks: seq<Chunk>, i: nat,
      hs: seq<Heading>)
    requires OneLines(lines) && ChunkedAt(lines, cuts, chunks) && i < |chunks|
    requires MarkdownOutline(SplitLines(Join(lines, "\n")), hs)
    ensures var c, back := chunks[i], SplitLines(Join(lines, "\n"));
            && Anchors(back, hs, Span(c.lineStart, c.lineEnd, c.sha), c.anchor) && LeadsToHeading(back, hs, c)
  {
    hide ChunkOfSegment, ChunksOf, Segment, SplitLines, Join, MarkdownOutline, Headings, LeadsToHeading, Anchors,
      AnchorAt, Cuts, OneLines;
    var c, text := chunks[i], Join(lines, "\n");
    var back := SplitLines(text);
    ChunksTileTheFile(lines, cuts, chunks);
    AnchorTiers(MARKDOWN, text, Span(c.lineStart, c.lineEnd, c.sha));
    HeadingsAreMarkdown(back);
    MarkdownOutlineIsUnique(back, hs, Headings(MARKDOWN, back));
    AnchorLeadsToHeading(lines, c);
  }

  lemma {:induction false} AnchorLeadsToHeading(lines: seq<string>, c: Chunk)
    requires OneLines(lines) && ChunkOfSegment(lines, c)
    requires var back := SplitLines(Join(lines, "\n"));
             Anchors(back, Headings(MARKDOWN, back), Span(c.lineStart, c.lineEnd, c.sha), c.anchor)
    ensures var back := SplitLines(Join(lines, "\n")); LeadsToHeading(back, Headings(MARKDOWN, back), c)
  {
    hide SplitLines, Join, Headings, ChunkOfSegment, OneLines, TitledAt, FieldsBetween, HashOfFields;
    var back := SplitLines(Join(lines, "\n"));
    var hs := Headings(MARKDOWN, back);
    HeadingIsEnclosing(lines, c);
    if c.heading != "" {
      var k :| 0 <= k < |hs| && Deepest(hs, c.lineStart) == Some(hs[k])
               && Entries(MARKDOWN, false, back)[k].name == c.heading;
      EntryIsTitled(back, k);
      assert HeadingOfChunk(back, hs, c, k);
    } else {
      assert forall k | 0 <= k < |hs| :: hs[k] in hs && !Covers(hs[k], c.lineStart);
    }
  }

  lemma {:induction false} EntryIsTitled(lines: seq<string>, k: nat)
    requires k < |Entries(MARKDOWN, false, lines)|
    ensures k < |Headings(MARKDOWN, lines)|
    ensures var h := Headings(MARKDOWN, lines)[k];
            TitledAt(lines, h.start, h.level, Entries(MARKDOWN, false, lines)[k].name)
  {
    hide Entries, FenceAfter, TitledAt;
    var e := Entries(MARKDOWN, false, lines)[k];
    EntriesSound(MARKDOWN, false, lines);
    assert OpenedBy(MARKDOWN, false, lines, e);
    OpensIffTitled(lines, e.line, e.level, e.name);
    assert Headings(MARKDOWN, lines)[k] == HeadingAt(Entries(MARKDOWN, false, lines), k, |lines|);
  }

  lemma {:induction false} EnclosingByPrefix(lines: seq<string>, s: nat)
    requires 1 <= s <= |lines|
    ensures var found := Deepest(Headings(MARKDOWN, lines), s);
            if HeadingBy(lines, s) == "" then found.None?
            else exists k :: 0 <= k < |Headings(MARKDOWN, lines)|
                   && found == Some(Headings(MARKDOWN, lines)[k])
                   && Entries(MARKDOWN, false, lines)[k].name == HeadingBy(lines, s)
  {
    hide Entries, FenceAfter, Path, Deepest, HeadingMark;
    var es, first := Entries(MARKDOWN, false, lines), Entries(MARKDOWN, false, lines[..s]);
    var f := FenceAfter(MARKDOWN, false, lines[..s]);
    var rest := Entries(MARKDOWN, f, lines[s..]);
    assert lines == lines[..s] + lines[s..];
    EntriesAppend(MARKDOWN, false, lines[..s], lines[s..]);
    EntriesSound(MARKDOWN, false, lines[..s]);
    EntriesSound(MARKDOWN, f, lines[s..]);
    SectionsTile(MARKDOWN, lines);
    hide IsFence, Tiles, InOrder, OpenedBy;
    EnclosingAtSplit(Headings(MARKDOWN, lines), es, first, rest, |lines|, s);
    if first != [] {
      var k := |first| - 1;
      EntryIsNamed(lines[..s], k);
      assert es[k] == first[k] && Deepest(Headings(MARKDOWN, lines), s) == Some(Headings(MARKDOWN, lines)[k]);
    }
  }

  lemma {:induction false} EntryIsNamed(lines: seq<string>, k: nat)
    requires k < |Entries(MARKDOWN, false, lines)|
    ensures Entries(MARKDOWN, false, lines)[k].name != ""
  {
    hide Entries, FenceAfter;
    EntriesSound(MARKDOWN, false, lines);
    MarkdownNamesDefinitions();
    assert OpenedBy(MARKDOWN, false, lines, Entries(MARKDOWN, false, lines)[k]);
  }

  lemma {:induction false} EnclosingAtSplit(hs: seq<Heading>, es: seq<Entry>, first: seq<Entry>, rest: seq<Entry>,
                                            total: nat, s: nat)
    requires IsOutline(hs, es, total) && Tiles(hs, total) && es == first + Shift(rest, s)
    requires 1 <= s <= total && InOrder(first, s) && InOrder(rest, total - s)
    ensures if first == [] then Deepest(hs, s).None? else Deepest(hs, s) == Some(hs[|first| - 1])
  {
    hide Path, Deepest;
    if es != [] {
      assert hs[0] == HeadingAt(es, 0, total);
      OnlyOneCovers(hs, total, s, 0);
      if first != [] {
        var k := |first| - 1;
        assert hs[k] == HeadingAt(es, k, total);
        OnlyOneCovers(hs, total, s, k);
      }
    } else {
      assert forall h <- hs :: !Covers(h, s);
    }
  }
}
