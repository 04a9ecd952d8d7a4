/** Documents as a preamble and a list of headed blocks: the round trip between that form and a heading
    scan, and what editing blocks does to anchors. */
module Documents {
  import opened Strings
  import opened Outline
  import opened Ladder

  datatype Block = Block(head: string, body: seq<string>) {
    function Lines(): seq<string> {
      [head] + body
    }
  }

  function Assemble(pre: seq<string>, blocks: seq<Block>): seq<string> {
    if blocks == [] then pre
    else Assemble(pre, blocks[..|blocks| - 1]) + blocks[|blocks| - 1].Lines()
  }

  /** A block is a heading line and a body that opens no heading. */
  ghost predicate GoodBlock(d: Dialect, b: Block) {
    OpensHeading(d, false, b.head) && Entries(d, false, b.body) == []
  }

  ghost predicate LeavesFenceOpen(d: Dialect, b: Block) {
    FenceAfter(d, false, b.body)
  }

  /** The preamble opens no heading, and only the last piece may leave a fence open. */
  ghost predicate Document(d: Dialect, pre: seq<string>, blocks: seq<Block>) {
    && Entries(d, false, pre) == []
    && (blocks != [] ==> !FenceAfter(d, false, pre))
    && (forall j | 0 <= j < |blocks| :: GoodBlock(d, blocks[j]))
    && (forall j | 0 <= j < |blocks| - 1 :: !LeavesFenceOpen(d, blocks[j]))
  }

  function HeadEntry(d: Dialect, b: Block, line: int): Entry
    requires d.opens(b.head).Some?
  {
    Entry(d.opens(b.head).value.level, d.opens(b.head).value.name, line)
  }

  /** `es` lists the heads of `blocks`, each on the line where its block starts. */
  ghost predicate EntriesOf(d: Dialect, pre: seq<string>, blocks: seq<Block>, es: seq<Entry>) {
    && |es| == |blocks|
    && forall i | 0 <= i < |blocks| ::
         d.opens(blocks[i].head).Some? && es[i] == HeadEntry(d, blocks[i], |Assemble(pre, blocks[..i])| + 1)
  }

  lemma {:induction false} BlockEntries(d: Dialect, b: Block)
    requires GoodBlock(d, b)
    ensures d.opens(b.head).Some? && Entries(d, false, b.Lines()) == [HeadEntry(d, b, 1)]
    ensures FenceAfter(d, false, b.Lines()) == LeavesFenceOpen(d, b)
  {
    EntriesSnoc(d, false, [], b.head);
    assert [] + [b.head] == [b.head];
    EntriesAppend(d, false, [b.head], b.body);
    FenceAppend(d, false, [b.head], b.body);
  }

  ghost predicate EndsInFence(d: Dialect, pre: seq<string>, blocks: seq<Block>) {
    if blocks == [] then FenceAfter(d, false, pre) else LeavesFenceOpen(d, blocks[|blocks| - 1])
  }

  lemma {:induction false} DocumentSnoc(d: Dialect, pre: seq<string>, blocks: seq<Block>, b: Block)
    requires Document(d, pre, blocks) && !EndsInFence(d, pre, blocks) && GoodBlock(d, b)
    ensures Document(d, pre, blocks + [b])
    ensures Assemble(pre, blocks + [b]) == Assemble(pre, blocks) + b.Lines()
  {
    hide Entries, FenceAfter, GoodBlock;
    var more := blocks + [b];
    assert more[..|blocks|] == blocks;
    forall j | 0 <= j < |more| - 1 ensures !LeavesFenceOpen(d, more[j]) {
      assert more[j] == blocks[j];
    }
  }

  lemma {:induction false} DocumentInit(d: Dialect, pre: seq<string>, blocks: seq<Block>)
    requires Document(d, pre, blocks) && blocks != []
    ensures Document(d, pre, blocks[..|blocks| - 1]) && !EndsInFence(d, pre, blocks[..|blocks| - 1])
    ensures GoodBlock(d, blocks[|blocks| - 1])
  {
  }

  lemma {:induction false} AssembleEntries(d: Dialect, pre: seq<string>, blocks: seq<Block>)
    requires Document(d, pre, blocks)
    ensures EntriesOf(d, pre, blocks, Entries(d, false, Assemble(pre, blocks)))
    ensures FenceAfter(d, false, Assemble(pre, blocks)) == EndsInFence(d, pre, blocks)
  {
    hide Entries, FenceAfter, EntryOf, LeavesFenceOpen, GoodBlock;
    if blocks != [] {
      var n := |blocks| - 1;
      var init, b := blocks[..n], blocks[n];
      DocumentInit(d, pre, blocks);
      AssembleEntries(d, pre, init);
      BlockEntries(d, b);
      EntriesAppend(d, false, Assemble(pre, init), b.Lines());
      FenceAppend(d, false, Assemble(pre, init), b.Lines());
      assert FenceAfter(d, false, Assemble(pre, init)) == false;
      EntriesOfSnoc(d, pre, blocks, Entries(d, false, Assemble(pre, init)), Entries(d, false, Assemble(pre, blocks)));
    }
  }

  lemma {:induction false} EntriesOfSnoc(d: Dialect, pre: seq<string>, blocks: seq<Block>, es: seq<Entry>,
      es': seq<Entry>)
    requires blocks != [] && d.opens(blocks[|blocks| - 1].head).Some?
    requires EntriesOf(d, pre, blocks[..|blocks| - 1], es)
    requires es' == es + Shift([HeadEntry(d, blocks[|blocks| - 1], 1)], |Assemble(pre, blocks[..|blocks| - 1])|)
    ensures EntriesOf(d, pre, blocks, es')
  {
    hide Assemble;
    var n := |blocks| - 1;
    forall i | 0 <= i < n
      ensures d.opens(blocks[i].head).Some? && es'[i] == HeadEntry(d, blocks[i], |Assemble(pre, blocks[..i])| + 1)
    {
      assert blocks[..n][i] == blocks[i] && blocks[..n][..i] == blocks[..i];
    }
  }

  lemma {:induction false} BlockIsSlice(pre: seq<string>, blocks: seq<Block>, i: nat)
    requires i < |blocks|
    ensures var start := |Assemble(pre, blocks[..i])|;
            && start + |blocks[i].Lines()| == |Assemble(pre, blocks[..i + 1])| <= |Assemble(pre, blocks)|
            && Assemble(pre, blocks)[start..start + |blocks[i].Lines()|] == blocks[i].Lines()
  {
    var n := |blocks| - 1;
    assert blocks[..i + 1][..i] == blocks[..i];
    if i < n {
      BlockIsSlice(pre, blocks[..n], i);
      assert blocks[..n][..i] == blocks[..i] && blocks[..n][..i + 1] == blocks[..i + 1];
    } else {
      assert blocks[..i + 1] == blocks;
    }
  }

  /** Heading `i` is the head of block `i`, and its section is that block, line for line. */
  ghost predicate HeadingOfBlock(d: Dialect, pre: seq<string>, blocks: seq<Block>, i: nat, h: Heading)
    requires i < |blocks|
  {
    && d.opens(blocks[i].head).Some? && h.level == d.opens(blocks[i].head).value.level
    && h.start == |Assemble(pre, blocks[..i])| + 1 && h.end == h.start + |blocks[i].body| <= |Assemble(pre, blocks)|
    && Section(Assemble(pre, blocks), h) == blocks[i].Lines()
  }

  /** The round trip: scanning an assembled document gives back exactly its blocks. */
  lemma {:induction false} ScanOfAssembled(d: Dialect, pre: seq<string>, blocks: seq<Block>)
    requires Document(d, pre, blocks)
    ensures |Headings(d, Assemble(pre, blocks))| == |blocks|
    ensures forall i | 0 <= i < |blocks| :: HeadingOfBlock(d, pre, blocks, i, Headings(d, Assemble(pre, blocks))[i])
  {
    hide Path, FenceAfter, Entries, GoodBlock, Assemble;
    var lines := Assemble(pre, blocks);
    var es, hs := Entries(d, false, lines), Headings(d, lines);
    AssembleEntries(d, pre, blocks);
    forall i | 0 <= i < |blocks| ensures HeadingOfBlock(d, pre, blocks, i, hs[i]) {
      assert hs[i] == HeadingAt(es, i, |lines|);
      BlockIsSlice(pre, blocks, i);
      assert i + 1 == |blocks| ==> blocks[..i + 1] == blocks;
    }
  }

  /** Conversely, every file is such a document. */
  lemma {:induction false} EveryFileIsADocument(d: Dialect, lines: seq<string>)
    returns (pre: seq<string>, blocks: seq<Block>)
    ensures Document(d, pre, blocks) && Assemble(pre, blocks) == lines
  {
    if lines == [] {
      pre, blocks := [], [];
    } else {
      var init, line := lines[..|lines| - 1], lines[|lines| - 1];
      assert lines == init + [line];
      pre, blocks := EveryFileIsADocument(d, init);
      AssembleEntries(d, pre, blocks);
      pre, blocks := AddLine(d, pre, blocks, line);
    }
  }

  lemma {:induction false} AddLine(d: Dialect, pre: seq<string>, blocks: seq<Block>, line: string)
      returns (pre': seq<string>, blocks': seq<Block>)
    requires Document(d, pre, blocks)
    ensures Document(d, pre', blocks') && Assemble(pre', blocks') == Assemble(pre, blocks) + [line]
  {
    pre', blocks' := pre, blocks;
    if OpensHeading(d, EndsInFence(d, pre, blocks), line) {
      DocumentSnoc(d, pre, blocks, Block(line, []));
      blocks' := blocks + [Block(line, [])];
    } else if blocks == [] {
      EntriesSnoc(d, false, pre, line);
      pre' := pre + [line];
    } else {
      blocks' := GrowLastBlock(d, pre, blocks, line);
    }
  }

  lemma {:induction false} GrowLastBlock(d: Dialect, pre: seq<string>, blocks: seq<Block>, line: string)
      returns (blocks': seq<Block>)
    requires Document(d, pre, blocks) && blocks != []
    requires !OpensHeading(d, EndsInFence(d, pre, blocks), line)
    ensures Document(d, pre, blocks') && Assemble(pre, blocks') == Assemble(pre, blocks) + [line]
  {
    hide Entries, FenceAfter, OpensHeading, GoodBlock, Document;
    var init, b := blocks[..|blocks| - 1], blocks[|blocks| - 1];
    var b' := b.(body := b.body + [line]);
    DocumentInit(d, pre, blocks);
    GrowBody(d, b, line);
    hide EndsInFence;
    DocumentSnoc(d, pre, init, b');
    blocks' := init + [b'];
    assert b'.Lines() == b.Lines() + [line];
  }

  lemma {:induction false} GrowBody(d: Dialect, b: Block, line: string)
    requires GoodBlock(d, b) && !OpensHeading(d, LeavesFenceOpen(d, b), line)
    ensures GoodBlock(d, b.(body := b.body + [line]))
  {
  }

  // ---------- Edits ----------

  /** Two versions of a document whose headings open the same names in the same order, at levels that
      compare alike. */
  ghost predicate SameOutline(d: Dialect, blocks: seq<Block>, blocks': seq<Block>) {
    && |blocks| == |blocks'|
    && (forall i | 0 <= i < |blocks| ::
          d.opens(blocks[i].head).Some? && d.opens(blocks'[i].head).Some?
          && d.opens(blocks[i].head).value.name == d.opens(blocks'[i].head).value.name)
    && (forall i, j | 0 <= i < |blocks| && 0 <= j < |blocks| ::
          LevelOf(d, blocks[i]) < LevelOf(d, blocks[j]) <==> LevelOf(d, blocks'[i]) < LevelOf(d, blocks'[j]))
  }

  function LevelOf(d: Dialect, b: Block): nat {
    match d.opens(b.head) case None => 0 case Some(mark) => mark.level
  }

  lemma {:induction false} SameRelativeLevels(d: Dialect, pre: seq<string>, blocks: seq<Block>, es: seq<Entry>,
                                              pre': seq<string>, blocks': seq<Block>, es': seq<Entry>)
    requires EntriesOf(d, pre, blocks, es) && EntriesOf(d, pre', blocks', es') && SameOutline(d, blocks, blocks')
    ensures |es| == |es'| == |blocks|
    ensures forall j | 0 <= j < |es| :: es[j].name == es'[j].name
    ensures forall j, k | 0 <= j < |es| && 0 <= k < |es| ::
              es[j].level < es[k].level <==> es'[j].level < es'[k].level
  {
  }

  lemma {:induction false} SameOutlineSamePaths(d: Dialect, pre: seq<string>, blocks: seq<Block>,
                                                pre': seq<string>, blocks': seq<Block>, i: nat)
    requires Document(d, pre, blocks) && Document(d, pre', blocks') && SameOutline(d, blocks, blocks')
    requires i < |blocks|
    ensures |Headings(d, Assemble(pre, blocks))| == |Headings(d, Assemble(pre', blocks'))| == |blocks|
    ensures Headings(d, Assemble(pre, blocks))[i].path == Headings(d, Assemble(pre', blocks'))[i].path
  {
    hide FenceAfter, Entries, Path, EntriesOf, SameOutline, Assemble;
    AssembleEntries(d, pre, blocks);
    AssembleEntries(d, pre', blocks');
    var es, es' := Entries(d, false, Assemble(pre, blocks)), Entries(d, false, Assemble(pre', blocks'));
    SameRelativeLevels(d, pre, blocks, es, pre', blocks', es');
    PathsDependOnRelativeLevels(es, es', i);
    assert Headings(d, Assemble(pre, blocks))[i] == HeadingAt(es, i, |Assemble(pre, blocks)|);
    assert Headings(d, Assemble(pre', blocks'))[i] == HeadingAt(es', i, |Assemble(pre', blocks')|);
  }

  /** Edits expire exactly what changed: between two versions with the same outline, a valid anchor
      survives if and only if its own block still has the same whitespace-separated fields. */
  lemma {:induction false} EditsExpireExactlyWhatChanged(d: Dialect, pre: seq<string>, blocks: seq<Block>,
      pre': seq<string>, blocks': seq<Block>, text: string, text': string, stored: Anchor, i: nat)
    requires Document(d, pre, blocks) && Document(d, pre', blocks') && SameOutline(d, blocks, blocks')
    requires SplitLines(text) == Assemble(pre, blocks) && SplitLines(text') == Assemble(pre', blocks')
    requires VerdictFor(d, stored, text) == Valid
    requires i < |blocks| && |Headings(d, SplitLines(text))| == |blocks|
    requires Headings(d, SplitLines(text))[i].path == stored.symbolPath
    ensures VerdictFor(d, stored, text') ==
              if Fields(Join(blocks[i].Lines(), "\n")) == Fields(Join(blocks'[i].Lines(), "\n"))
              then Valid else SemanticChange
  {
    hide FenceAfter, Entries, Path, SplitLines, Join, Fields, Matches, Assemble, HashNormalized, EntriesOf;
    var lines, lines' := Assemble(pre, blocks), Assemble(pre', blocks');
    var hs, hs' := Headings(d, lines), Headings(d, lines');
    ScanOfAssembled(d, pre, blocks);
    ScanOfAssembled(d, pre', blocks');
    VerdictLaw(hs, stored, text);
    assert HeadingOfBlock(d, pre, blocks, i, hs[i]) && HeadingOfBlock(d, pre', blocks', i, hs'[i]);
    var k :| Resolves(hs, text, stored, k);
    assert k == i;
    forall j | 0 <= j < |hs'| ensures hs'[j].path == hs[j].path {
      SameOutlineSamePaths(d, pre, blocks, pre', blocks', j);
    }
    assert OnlyAt(hs', stored.symbolPath, i);
    OneMatch(hs', stored.symbolPath, i);
    SectionTextIsSection(text, hs[i]);
    SectionTextIsSection(text', hs'[i]);
    HashSeesFields(Join(blocks[i].Lines(), "\n"), Join(blocks'[i].Lines(), "\n"));
  }

  /** Reformatting expires nothing: where names, nesting and fields stay, every valid anchor does, whatever
      happens to spacing, line breaks and indentation. */
  lemma {:induction false} ReformattingExpiresNothing(d: Dialect, pre: seq<string>, blocks: seq<Block>,
      pre': seq<string>, blocks': seq<Block>, text: string, text': string, stored: Anchor)
    requires Document(d, pre, blocks) && Document(d, pre', blocks') && SameOutline(d, blocks, blocks')
    requires SplitLines(text) == Assemble(pre, blocks) && SplitLines(text') == Assemble(pre', blocks')
    requires forall i | 0 <= i < |blocks| ::
               Fields(Join(blocks[i].Lines(), "\n")) == Fields(Join(blocks'[i].Lines(), "\n"))
    requires VerdictFor(d, stored, text) == Valid
    ensures VerdictFor(d, stored, text') == Valid
  {
    hide Headings, SplitLines, Assemble, Fields, Join, VerdictOf, HashNormalized, SameOutline;
    var hs := Headings(d, SplitLines(text));
    VerdictLaw(hs, stored, text);
    var i :| Resolves(hs, text, stored, i);
    ScanOfAssembled(d, pre, blocks);
    EditsExpireExactlyWhatChanged(d, pre, blocks, pre', blocks', text, text', stored, i);
  }
}
