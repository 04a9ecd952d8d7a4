/** Outlines: what the Markdown and the code anchorer have in common. A scan finds the lines that
    open a definition, and nesting by level gives every definition the path of its ancestors. */
module Outline {
  import opened Strings

  datatype Mark = Mark(level: nat, name: string)

  /** How one kind of file is scanned: which lines toggle a fenced block, and which open a definition. */
  datatype Dialect = Dialect(fence: string -> bool, opens: string -> Option<Mark>)

  datatype Entry = Entry(level: nat, name: string, line: int)

  datatype Heading = Heading(level: nat, path: string, start: int, end: int)

  function FenceAfter(d: Dialect, f: bool, lines: seq<string>): bool {
    if lines == [] then f
    else FenceAfter(d, f, lines[..|lines| - 1]) != d.fence(lines[|lines| - 1])
  }

  predicate OpensHeading(d: Dialect, f: bool, line: string) {
    !f && !d.fence(line) && d.opens(line).Some?
  }

  /** The definitions opened by `lines` when the scan starts with fence state `f`. */
  function Entries(d: Dialect, f: bool, lines: seq<string>): seq<Entry> {
    if lines == [] then []
    else
      var n := |lines| - 1;
      Entries(d, f, lines[..n]) + EntryOf(d, FenceAfter(d, f, lines[..n]), lines[n], |lines|)
  }

  function EntryOf(d: Dialect, f: bool, line: string, n: int): seq<Entry> {
    if OpensHeading(d, f, line) then [Entry(d.opens(line).value.level, d.opens(line).value.name, n)] else []
  }

  /** The last of the first `n` entries that is shallower than `level`, or -1. */
  function Nearest(es: seq<Entry>, n: nat, level: nat): (r: int)
    requires n <= |es|
    ensures -1 <= r < n
    ensures r >= 0 ==> es[r].level < level
    ensures forall j | r < j < n :: es[j].level >= level
  {
    if n == 0 then -1
    else if es[n - 1].level < level then n - 1
    else Nearest(es, n - 1, level)
  }

  function Parent(es: seq<Entry>, i: nat): (r: int)
    requires i < |es|
    ensures -1 <= r < i
  {
    Nearest(es, i, es[i].level)
  }

  /** The declarative path: the name below the path of the nearest earlier shallower entry. */
  function Path(es: seq<Entry>, i: nat): string
    requires i < |es|
    decreases i
  {
    var p := Parent(es, i);
    if p < 0 then es[i].name else Path(es, p) + " > " + es[i].name
  }

  function HeadingAt(es: seq<Entry>, i: nat, total: nat): Heading
    requires i < |es|
  {
    Heading(es[i].level, Path(es, i), es[i].line, EndLine(es, i, total))
  }

  /** A section ends before the next entry of any level. */
  function EndLine(es: seq<Entry>, i: nat, total: nat): int
    requires i < |es|
  {
    if i + 1 < |es| then es[i + 1].line - 1 else total
  }

  ghost predicate IsOutline(hs: seq<Heading>, es: seq<Entry>, total: nat) {
    |hs| == |es| && forall i | 0 <= i < |es| :: hs[i] == HeadingAt(es, i, total)
  }

  function Headings(d: Dialect, lines: seq<string>): (hs: seq<Heading>)
    ensures IsOutline(hs, Entries(d, false, lines), |lines|)
  {
    var es := Entries(d, false, lines);
    seq(|es|, i requires 0 <= i < |es| => HeadingAt(es, i, |lines|))
  }

  // ---------- What an outline is ----------

  /** Heading `j` is the nearest before `i` that is shallower. */
  predicate NearestShallower(hs: seq<Heading>, i: int, j: int) {
    && 0 <= j < i < |hs| && hs[j].level < hs[i].level
    && forall k | j < k < i :: hs[k].level >= hs[i].level
  }

  /** Headings in line order, each section ending before the next heading, each path the heading's name below
      the path of the nearest shallower one before it. */
  ghost predicate Nested(hs: seq<Heading>, names: seq<string>, total: nat) {
    && |names| == |hs| && InLineOrder(hs)
    && (forall i | 0 <= i < |hs| :: EndIs(hs, i, total) && PathIs(hs, i, names[i]))
  }

  predicate EndIs(hs: seq<Heading>, i: nat, total: nat)
    requires i < |hs|
  {
    hs[i].end == if i + 1 < |hs| then hs[i + 1].start - 1 else total
  }

  ghost predicate InLineOrder(hs: seq<Heading>) {
    forall i, j | 0 <= i < j < |hs| :: hs[i].start < hs[j].start
  }

  ghost predicate PathIs(hs: seq<Heading>, i: nat, name: string)
    requires i < |hs|
  {
    && (forall j | NearestShallower(hs, i, j) :: hs[i].path == hs[j].path + " > " + name)
    && ((forall j | 0 <= j < i :: hs[j].level >= hs[i].level) ==> hs[i].path == name)
  }

  /** Which lines open a definition, of which level and name. */
  type Opening = (int, nat, string) -> bool

  /** The outline of a file: one heading for every line that opens a definition, nested. */
  ghost predicate Outlines(hs: seq<Heading>, total: nat, opening: Opening) {
    exists names ::
      && Nested(hs, names, total)
      && (forall i | 0 <= i < |hs| :: opening(hs[i].start, hs[i].level, names[i]))
      && (forall n, level, name | opening(n, level, name) :: StartsAt(hs, n))
  }

  ghost predicate StartsAt(hs: seq<Heading>, n: int) {
    exists i :: 0 <= i < |hs| && hs[i].start == n
  }

  /** A line opens at most one definition. */
  ghost predicate Functional(opening: Opening) {
    forall n, level, name, level', name' | opening(n, level, name) && opening(n, level', name') ::
      level == level' && name == name'
  }

  /** A file has one outline. */
  lemma {:induction false} OutlineIsUnique(hs: seq<Heading>, hs': seq<Heading>, total: nat, opening: Opening)
    requires Functional(opening) && Outlines(hs, total, opening) && Outlines(hs', total, opening)
    ensures hs == hs'
  {
    hide Functional;
    var names := NamesOf(hs, total, opening);
    var names' := NamesOf(hs', total, opening);
    hide Outlines, Nested, InLineOrder;
    SameStarts(hs, hs');
    forall i | 0 <= i < |hs| ensures hs[i].level == hs'[i].level && names[i] == names'[i] {
      SameMarkAt(opening, hs[i].start, hs[i].level, names[i], hs'[i].level, names'[i]);
    }
    assert names == names';
    forall i | 0 <= i < |hs| ensures hs[i] == hs'[i] {
      SameNesting(hs, hs', names, total, i);
    }
  }

  lemma SameMarkAt(opening: Opening, n: int, level: nat, name: string, level': nat, name': string)
    requires Functional(opening) && opening(n, level, name) && opening(n, level', name')
    ensures level == level' && name == name'
  {
  }

  lemma {:induction false} NamesOf(hs: seq<Heading>, total: nat, opening: Opening) returns (names: seq<string>)
    requires Outlines(hs, total, opening)
    ensures Nested(hs, names, total) && |names| == |hs| && InLineOrder(hs)
    ensures forall i | 0 <= i < |hs| :: opening(hs[i].start, hs[i].level, names[i])
    ensures forall n, level, name | opening(n, level, name) :: StartsAt(hs, n)
  {
    names :| Nested(hs, names, total) && (forall i | 0 <= i < |hs| :: opening(hs[i].start, hs[i].level, names[i]))
             && (forall n, level, name | opening(n, level, name) :: StartsAt(hs, n));
  }

  lemma {:induction false} SameStarts(hs: seq<Heading>, hs': seq<Heading>)
    requires InLineOrder(hs) && InLineOrder(hs')
    requires forall i | 0 <= i < |hs| :: StartsAt(hs', hs[i].start)
    requires forall i | 0 <= i < |hs'| :: StartsAt(hs, hs'[i].start)
    ensures |hs| == |hs'|
    ensures forall i | 0 <= i < |hs| :: hs[i].start == hs'[i].start
  {
    hide InLineOrder, StartsAt;
    var n := if |hs| < |hs'| then |hs| else |hs'|;
    for i := 0 to n
      invariant forall k | 0 <= k < i :: hs[k].start == hs'[k].start
    {
      NotEarlier(hs, hs', i);
      NotEarlier(hs', hs, i);
    }
    if |hs| < |hs'| { NoneLeft(hs', hs); }
    if |hs'| < |hs| { NoneLeft(hs, hs'); }
  }

  lemma {:induction false} NotEarlier(hs: seq<Heading>, hs': seq<Heading>, i: nat)
    requires i < |hs| && i < |hs'| && InLineOrder(hs) && InLineOrder(hs') && StartsAt(hs', hs[i].start)
    requires forall k | 0 <= k < i :: hs[k].start == hs'[k].start
    ensures hs'[i].start <= hs[i].start
  {
    var a :| 0 <= a < |hs'| && hs'[a].start == hs[i].start;
    assert forall k | 0 <= k < i :: hs'[k].start == hs[k].start < hs[i].start;
  }

  lemma {:induction false} NoneLeft(hs: seq<Heading>, hs': seq<Heading>)
    requires InLineOrder(hs) && |hs'| < |hs| && forall k | 0 <= k < |hs'| :: hs[k].start == hs'[k].start
    ensures !StartsAt(hs', hs[|hs'|].start)
  {
  }

  lemma {:induction false} SameNesting(hs: seq<Heading>, hs': seq<Heading>, names: seq<string>, total: nat, i: nat)
    requires Nested(hs, names, total) && Nested(hs', names, total) && |hs| == |hs'| && i < |hs|
    requires forall k | 0 <= k < |hs| :: hs[k].start == hs'[k].start && hs[k].level == hs'[k].level
    ensures hs[i] == hs'[i]
  {
    hide InLineOrder, PathIs;
    assert EndIs(hs, i, total) && EndIs(hs', i, total);
    SamePath(hs, hs', names, i);
  }

  lemma {:induction false} SamePath(hs: seq<Heading>, hs': seq<Heading>, names: seq<string>, i: nat)
    requires i < |hs| == |hs'| == |names| && forall k | 0 <= k < |hs| :: hs[k].level == hs'[k].level
    requires forall k | 0 <= k < |hs| :: PathIs(hs, k, names[k])
    requires forall k | 0 <= k < |hs| :: PathIs(hs', k, names[k])
    ensures hs[i].path == hs'[i].path
    decreases i
  {
    hide PathIs;
    if exists j :: NearestShallower(hs, i, j) {
      var j :| NearestShallower(hs, i, j);
      SamePath(hs, hs', names, j);
      PathBelowNearest(hs, i, j, names[i]);
      PathBelowNearest(hs', i, j, names[i]);
    } else {
      NoneShallower(hs, i);
      assert PathIs(hs, i, names[i]) && PathIs(hs', i, names[i]);
      TopPath(hs, i, names[i]);
      TopPath(hs', i, names[i]);
    }
  }

  lemma PathBelowNearest(hs: seq<Heading>, i: nat, j: nat, name: string)
    requires i < |hs| && PathIs(hs, i, name) && NearestShallower(hs, i, j)
    ensures hs[i].path == hs[j].path + " > " + name
  {
  }

  lemma TopPath(hs: seq<Heading>, i: nat, name: string)
    requires i < |hs| && PathIs(hs, i, name) && forall j | 0 <= j < i :: hs[j].level >= hs[i].level
    ensures hs[i].path == name
  {
  }

  lemma {:induction false} NoneShallower(hs: seq<Heading>, i: nat)
    requires i < |hs| && !exists j :: NearestShallower(hs, i, j)
    ensures forall j | 0 <= j < i :: hs[j].level >= hs[i].level
  {
    for j := i downto 0
      invariant forall k | j <= k < i :: hs[k].level >= hs[i].level
    {
      assert !NearestShallower(hs, i, j);
    }
  }

  function Section(lines: seq<string>, h: Heading): seq<string>
    requires 1 <= h.start <= h.end <= |lines|
  {
    lines[h.start - 1..h.end]
  }

  // ---------- Ancestors ----------

  /** An ancestor stack may skip from an entry straight to its parent: what lies between is not shallower. */
  lemma {:induction false} NearestSkips(es: seq<Entry>, i: nat, level: nat)
    requires i < |es| && es[i].level >= level
    ensures Nearest(es, i + 1, level) == Nearest(es, Parent(es, i) + 1, level)
  {
  }

  lemma {:induction false} NearestIs(es: seq<Entry>, n: nat, level: nat, r: int)
    requires n <= |es| && -1 <= r < n
    requires r >= 0 ==> es[r].level < level
    requires forall j | r < j < n :: es[j].level >= level
    ensures Nearest(es, n, level) == r
  {
  }

  lemma {:induction false} PathPrefix(es: seq<Entry>, more: seq<Entry>, i: nat)
    requires i < |es|
    ensures Path(es + more, i) == Path(es, i)
    ensures Parent(es + more, i) == Parent(es, i)
    decreases i
  {
    NearestIs(es + more, i, es[i].level, Parent(es, i));
    if Parent(es, i) >= 0 {
      PathPrefix(es, more, Parent(es, i));
    }
  }

  /** Reindenting is safe: paths depend only on the names and on how the levels compare. */
  lemma {:induction false} PathsDependOnRelativeLevels(es: seq<Entry>, es': seq<Entry>, i: nat)
    requires |es| == |es'| && i < |es|
    requires forall j | 0 <= j < |es| :: es[j].name == es'[j].name
    requires forall j, k | 0 <= j < |es| && 0 <= k < |es| ::
               es[j].level < es[k].level <==> es'[j].level < es'[k].level
    ensures Path(es, i) == Path(es', i)
    decreases i
  {
    NearestIs(es', i, es'[i].level, Parent(es, i));
    if Parent(es, i) >= 0 {
      PathsDependOnRelativeLevels(es, es', Parent(es, i));
    }
  }

  predicate SameMark(e: Entry, e': Entry) {
    e.level == e'.level && e.name == e'.name
  }

  function Moved(i: int, at: nat, count: nat): int {
    if i < at then i else i + count
  }

  /** `es'` is `es`, up to line numbers, with `count` entries inserted at index `at`. */
  ghost predicate Spliced(es: seq<Entry>, es': seq<Entry>, at: nat, count: nat) {
    && at <= |es| && |es'| == |es| + count
    && (forall j | 0 <= j < at :: SameMark(es[j], es'[j]))
    && (forall j | at <= j < |es| :: SameMark(es[j], es'[j + count]))
  }

  /** None of the inserted entries is shallower than the one they are put before; at the end anything goes. */
  ghost predicate DeepEnough(es: seq<Entry>, es': seq<Entry>, at: nat, count: nat)
    requires Spliced(es, es', at, count)
  {
    at < |es| ==> forall j | at <= j < at + count :: es'[j].level >= es[at].level
  }

  ghost predicate EntriesInserted(es: seq<Entry>, es': seq<Entry>, at: nat, count: nat) {
    Spliced(es, es', at, count) && DeepEnough(es, es', at, count)
  }

  /** That is exactly what keeps every parent: a shallower insertion takes over the entry it is put before. */
  lemma {:induction false} ParentsKeptIff(es: seq<Entry>, es': seq<Entry>, at: nat, count: nat)
    requires Spliced(es, es', at, count)
    ensures DeepEnough(es, es', at, count)
            <==> forall i: nat | i < |es| :: Parent(es', Moved(i, at, count)) == Moved(Parent(es, i), at, count)
  {
    hide Parent;
    if DeepEnough(es, es', at, count) {
      forall i: nat | i < |es| ensures Parent(es', Moved(i, at, count)) == Moved(Parent(es, i), at, count) {
        InsertedEntriesKeepParents(es, es', at, count, i);
      }
    } else {
      ShallowInsertionTakesOver(es, es', at, count);
      assert Parent(es', Moved(at, at, count)) != Moved(Parent(es, at), at, count);
    }
  }

  lemma {:induction false} ShallowInsertionTakesOver(es: seq<Entry>, es': seq<Entry>, at: nat, count: nat)
    requires Spliced(es, es', at, count) && !DeepEnough(es, es', at, count)
    ensures at < |es| && at <= Parent(es', at + count) < at + count && Parent(es, at) < at
  {
    var j :| at <= j < at + count && es'[j].level < es[at].level;
    assert SameMark(es[at], es'[at + count]);
    assert Parent(es', at + count) >= j;
  }

  lemma {:induction false} InsertedEntriesKeepParents(es: seq<Entry>, es': seq<Entry>, at: nat, count: nat, i: nat)
    requires EntriesInserted(es, es', at, count) && i < |es|
    ensures Parent(es', Moved(i, at, count)) == Moved(Parent(es, i), at, count)
  {
    var p, i' := Parent(es, i), Moved(i, at, count);
    assert p < at <= i ==> es[at].level >= es[i].level;
    forall j | Moved(p, at, count) < j < i' ensures es'[j].level >= es[i].level {
      if j >= at + count {
        assert SameMark(es[j - count], es'[j - count + count]);
      }
    }
    NearestIs(es', i', es[i].level, Moved(p, at, count));
  }

  /** Inserted entries that are deep enough change nobody's path. */
  lemma {:induction false} InsertedEntriesKeepPaths(es: seq<Entry>, es': seq<Entry>, at: nat, count: nat, i: nat)
    requires EntriesInserted(es, es', at, count) && i < |es|
    ensures Path(es', Moved(i, at, count)) == Path(es, i)
    decreases i
  {
    InsertedEntriesKeepParents(es, es', at, count, i);
    if Parent(es, i) >= 0 {
      InsertedEntriesKeepPaths(es, es', at, count, Parent(es, i));
    }
  }

  // ---------- The ancestor stack ----------

  /** `stack` holds entry `top` and its ancestors, outermost first. */
  ghost predicate StackFor(stack: seq<Heading>, es: seq<Entry>, top: int)
    requires -1 <= top < |es|
    decreases top + 1
  {
    if top < 0 then stack == []
    else
      && stack != []
      && stack[|stack| - 1].level == es[top].level && stack[|stack| - 1].path == Path(es, top)
      && StackFor(stack[..|stack| - 1], es, Parent(es, top))
  }

  lemma {:induction false} StackPrefix(stack: seq<Heading>, es: seq<Entry>, more: seq<Entry>, top: int)
    requires -1 <= top < |es| && StackFor(stack, es, top)
    ensures StackFor(stack, es + more, top)
    decreases top + 1
  {
    if top >= 0 {
      PathPrefix(es, more, top);
      StackPrefix(stack[..|stack| - 1], es, more, Parent(es, top));
    }
  }

  /** The heading a scan appends for `e` once the stack has been popped to the parent of `e`. */
  function NewHeading(stack: seq<Heading>, e: Entry, total: nat): Heading {
    Heading(e.level, if stack == [] then e.name else stack[|stack| - 1].path + " > " + e.name, e.line, total)
  }

  lemma {:induction false} StackPush(stack: seq<Heading>, es: seq<Entry>, e: Entry, total: nat)
    requires StackFor(stack, es, Nearest(es, |es|, e.level))
    ensures NewHeading(stack, e, total) == HeadingAt(es + [e], |es|, total)
    ensures StackFor(stack + [NewHeading(stack, e, total)], es + [e], |es|)
  {
    var top := Nearest(es, |es|, e.level);
    var es', stack' := es + [e], stack + [NewHeading(stack, e, total)];
    NearestIs(es', |es|, e.level, top);
    if top >= 0 {
      PathPrefix(es, [e], top);
    }
    StackPrefix(stack, es, [e], top);
    assert stack'[..|stack'| - 1] == stack;
  }

  /** Closing the previous section where a new one starts turns the outline of a prefix into the next one. */
  lemma {:induction false} OutlineSnoc(hs: seq<Heading>, es: seq<Entry>, e: Entry, total: nat)
    requires IsOutline(hs, es, total)
    ensures IsOutline(CloseLast(hs, e.line) + [HeadingAt(es + [e], |es|, total)], es + [e], total)
  {
    forall i | 0 <= i < |es| ensures Path(es + [e], i) == Path(es, i) {
      PathPrefix(es, [e], i);
    }
    assert forall i | 0 <= i < |es| - 1 :: EndLine(es + [e], i, total) == EndLine(es, i, total);
    assert es != [] ==> EndLine(es + [e], |es| - 1, total) == e.line - 1;
  }

  /** Closes the previous section on the line above `line`. */
  function CloseLast(hs: seq<Heading>, line: int): seq<Heading> {
    if hs == [] then hs else hs[|hs| - 1 := hs[|hs| - 1].(end := line - 1)]
  }

  // ---------- Scanning ----------

  lemma {:induction false} FenceAppend(d: Dialect, f: bool, a: seq<string>, b: seq<string>)
    ensures FenceAfter(d, f, a + b) == FenceAfter(d, FenceAfter(d, f, a), b)
  {
    if b == [] {
      assert a + b == a;
    } else {
      var n := |b| - 1;
      FenceAppend(d, f, a, b[..n]);
      assert (a + b)[..|a + b| - 1] == a + b[..n];
    }
  }

  function Shift(es: seq<Entry>, offset: int): seq<Entry> {
    seq(|es|, i requires 0 <= i < |es| => es[i].(line := es[i].line + offset))
  }

  lemma {:induction false} EntriesAppend(d: Dialect, f: bool, a: seq<string>, b: seq<string>)
    ensures Entries(d, f, a + b) == Entries(d, f, a) + Shift(Entries(d, FenceAfter(d, f, a), b), |a|)
  {
    if b == [] {
      assert a + b == a;
    } else {
      var init, line := b[..|b| - 1], b[|b| - 1];
      EntriesAppend(d, f, a, init);
      EntriesAppendSnoc(d, f, a, init, line);
      assert b == init + [line];
    }
  }

  lemma {:induction false} EntriesAppendSnoc(d: Dialect, f: bool, a: seq<string>, init: seq<string>, line: string)
    requires Entries(d, f, a + init) == Entries(d, f, a) + Shift(Entries(d, FenceAfter(d, f, a), init), |a|)
    ensures Entries(d, f, a + (init + [line]))
            == Entries(d, f, a) + Shift(Entries(d, FenceAfter(d, f, a), init + [line]), |a|)
  {
    hide Entries, FenceAfter;
    var g := FenceAfter(d, f, a);
    var more := EntryOf(d, FenceAfter(d, g, init), line, |init| + 1);
    calc {
      Entries(d, f, a + (init + [line]));
      { assert a + (init + [line]) == a + init + [line]; }
      Entries(d, f, a + init + [line]);
      { EntriesSnoc(d, f, a + init, line); FenceAppend(d, f, a, init); }
      Entries(d, f, a + init) + Shift(more, |a|);
      Entries(d, f, a) + (Shift(Entries(d, g, init), |a|) + Shift(more, |a|));
      { ShiftAppend(Entries(d, g, init), more, |a|); }
      Entries(d, f, a) + Shift(Entries(d, g, init) + more, |a|);
      { EntriesSnoc(d, g, init, line); }
      Entries(d, f, a) + Shift(Entries(d, g, init + [line]), |a|);
    }
  }

  lemma {:induction false} ShiftAppend(x: seq<Entry>, y: seq<Entry>, offset: int)
    ensures Shift(x + y, offset) == Shift(x, offset) + Shift(y, offset)
  {
  }

  lemma {:induction false} EntriesSnoc(d: Dialect, f: bool, lines: seq<string>, line: string)
    ensures Entries(d, f, lines + [line])
            == Entries(d, f, lines) + EntryOf(d, FenceAfter(d, f, lines), line, |lines| + 1)
    ensures FenceAfter(d, f, lines + [line]) == (FenceAfter(d, f, lines) != d.fence(line))
  {
  }

  ghost predicate OpenedBy(d: Dialect, f: bool, lines: seq<string>, e: Entry) {
    && 1 <= e.line <= |lines|
    && OpensHeading(d, FenceAfter(d, f, lines[..e.line - 1]), lines[e.line - 1])
    && d.opens(lines[e.line - 1]).value == Mark(e.level, e.name)
  }

  ghost predicate AllOpenedBy(d: Dialect, f: bool, lines: seq<string>, es: seq<Entry>) {
    forall i | 0 <= i < |es| :: OpenedBy(d, f, lines, es[i])
  }

  ghost predicate InOrder(es: seq<Entry>, total: nat) {
    && (forall i | 0 <= i < |es| :: 1 <= es[i].line <= total)
    && (forall i, j | 0 <= i < j < |es| :: es[i].line < es[j].line)
  }

  /** Every entry is a heading line outside fences, and entries come in line order. */
  lemma {:induction false} EntriesSound(d: Dialect, f: bool, lines: seq<string>)
    ensures AllOpenedBy(d, f, lines, Entries(d, f, lines))
    ensures InOrder(Entries(d, f, lines), |lines|)
  {
    if lines != [] {
      var n := |lines| - 1;
      EntriesSound(d, f, lines[..n]);
      var es, more := Entries(d, f, lines[..n]), EntryOf(d, FenceAfter(d, f, lines[..n]), lines[n], |lines|);
      assert Entries(d, f, lines) == es + more;
      forall i | 0 <= i < |es + more| ensures OpenedBy(d, f, lines, (es + more)[i]) {
        if i < |es| {
          assert OpenedBy(d, f, lines[..n], es[i]);
          assert lines[..n][..es[i].line - 1] == lines[..es[i].line - 1];
        }
      }
    }
  }

  /** Every heading line outside fences is an entry. */
  lemma {:induction false} EntriesComplete(d: Dialect, f: bool, lines: seq<string>, k: nat) returns (i: nat)
    requires k < |lines| && OpensHeading(d, FenceAfter(d, f, lines[..k]), lines[k])
    ensures i < |Entries(d, f, lines)| && Entries(d, f, lines)[i].line == k + 1
  {
    var n := |lines| - 1;
    if k == n {
      i := |Entries(d, f, lines[..n])|;
    } else {
      assert lines[..n][..k] == lines[..k];
      i := EntriesComplete(d, f, lines[..n], k);
    }
  }

  /** What the dialect's parameters make of line `n`. */
  ghost predicate OpensAt(d: Dialect, lines: seq<string>, n: int, level: nat, name: string) {
    && 1 <= n <= |lines| && OpensHeading(d, FenceAfter(d, false, lines[..n - 1]), lines[n - 1])
    && d.opens(lines[n - 1]).value == Mark(level, name)
  }

  /** The headings found are the file's outline. */
  lemma {:induction false} HeadingsAreOutline(d: Dialect, lines: seq<string>, opening: Opening)
    requires forall n, level, name :: opening(n, level, name) <==> OpensAt(d, lines, n, level, name)
    ensures Outlines(Headings(d, lines), |lines|, opening)
  {
    hide Entries, OpensAt, Nested, InOrder, OpenedBy;
    var es, hs := Entries(d, false, lines), Headings(d, lines);
    var names := seq(|es|, i requires 0 <= i < |es| => es[i].name);
    EntriesSound(d, false, lines);
    OutlineIsNested(hs, es, names, |lines|);
    forall n, level, name | opening(n, level, name) ensures StartsAt(hs, n) {
      OpeningStarts(d, lines, n, level, name);
    }
    forall i | 0 <= i < |hs| ensures opening(hs[i].start, hs[i].level, names[i]) {
      HeadingOpens(d, lines, i);
    }
  }

  lemma {:induction false} OpeningStarts(d: Dialect, lines: seq<string>, n: int, level: nat, name: string)
    requires OpensAt(d, lines, n, level, name)
    ensures StartsAt(Headings(d, lines), n)
  {
    var i := EntriesComplete(d, false, lines, n - 1);
    hide Entries;
    assert Headings(d, lines)[i] == HeadingAt(Entries(d, false, lines), i, |lines|);
  }

  lemma {:induction false} HeadingOpens(d: Dialect, lines: seq<string>, i: nat)
    requires i < |Headings(d, lines)|
    ensures var h := Headings(d, lines)[i];
            i < |Entries(d, false, lines)| && OpensAt(d, lines, h.start, h.level, Entries(d, false, lines)[i].name)
  {
    hide Entries, OpensHeading, FenceAfter;
    var es := Entries(d, false, lines);
    EntriesSound(d, false, lines);
    assert Headings(d, lines)[i] == HeadingAt(es, i, |lines|) && OpenedBy(d, false, lines, es[i]);
  }

  lemma {:induction false} OutlineIsNested(hs: seq<Heading>, es: seq<Entry>, names: seq<string>, total: nat)
    requires IsOutline(hs, es, total) && InOrder(es, total) && |names| == |es|
    requires forall i | 0 <= i < |es| :: names[i] == es[i].name
    ensures Nested(hs, names, total)
  {
    hide Path, NearestShallower, InOrder;
    assert InLineOrder(hs) by { OutlineInLineOrder(hs, es, total); }
    forall i | 0 <= i < |hs| ensures EndIs(hs, i, total) {
      assert hs[i] == HeadingAt(es, i, total);
      assert i + 1 < |hs| ==> hs[i + 1] == HeadingAt(es, i + 1, total);
    }
    forall i | 0 <= i < |hs| ensures PathIs(hs, i, names[i]) {
      OutlinePathIs(hs, es, i, total);
    }
  }

  lemma OutlineInLineOrder(hs: seq<Heading>, es: seq<Entry>, total: nat)
    requires IsOutline(hs, es, total) && InOrder(es, total)
    ensures InLineOrder(hs)
  {
    hide Path;
    forall i, j | 0 <= i < j < |hs| ensures hs[i].start < hs[j].start {
      assert hs[i] == HeadingAt(es, i, total) && hs[j] == HeadingAt(es, j, total);
    }
  }

  lemma {:induction false} OutlinePathIs(hs: seq<Heading>, es: seq<Entry>, i: nat, total: nat)
    requires IsOutline(hs, es, total) && i < |es|
    ensures PathIs(hs, i, es[i].name)
  {
    PathBelow(es, i);
    hide Path, Parent, NearestShallower;
    OutlineFields(hs, es, total);
    hide IsOutline;
    forall j | NearestShallower(hs, i, j) ensures hs[i].path == hs[j].path + " > " + es[i].name {
      ParentIsNearest(hs, es, i, j);
    }
    if forall j | 0 <= j < i :: hs[j].level >= hs[i].level {
      ParentIsNone(es, i);
    }
  }

  lemma OutlineFields(hs: seq<Heading>, es: seq<Entry>, total: nat)
    requires IsOutline(hs, es, total)
    ensures forall k | 0 <= k < |hs| :: hs[k].level == es[k].level && hs[k].path == Path(es, k)
  {
    hide Path;
    forall k | 0 <= k < |hs| ensures hs[k].level == es[k].level && hs[k].path == Path(es, k) {
      assert hs[k] == HeadingAt(es, k, total);
    }
  }

  lemma ParentIsNearest(hs: seq<Heading>, es: seq<Entry>, i: nat, j: int)
    requires i < |es| == |hs| && NearestShallower(hs, i, j) && forall k | 0 <= k < |hs| :: hs[k].level == es[k].level
    ensures 0 <= j < |hs| && Parent(es, i) == j
  {
    NearestIs(es, i, es[i].level, j);
  }

  lemma ParentIsNone(es: seq<Entry>, i: nat)
    requires i < |es| && forall j | 0 <= j < i :: es[j].level >= es[i].level
    ensures Parent(es, i) < 0
  {
    NearestIs(es, i, es[i].level, -1);
  }

  lemma PathBelow(es: seq<Entry>, i: nat)
    requires i < |es|
    ensures Path(es, i) == if Parent(es, i) < 0 then es[i].name else Path(es, Parent(es, i)) + " > " + es[i].name
  {
  }

  ghost predicate Tiles(hs: seq<Heading>, total: nat) {
    && (forall i | 0 <= i < |hs| :: 1 <= hs[i].start <= hs[i].end <= total)
    && (forall i | 0 <= i < |hs| - 1 :: hs[i + 1].start == hs[i].end + 1)
    && (hs != [] ==> hs[|hs| - 1].end == total)
    && (forall i, j | 0 <= i < j < |hs| :: hs[i].end < hs[j].start)
  }

  /** Every heading owns a non-empty range of lines; the ranges tile the file from the first heading on. */
  lemma {:induction false} SectionsTile(d: Dialect, lines: seq<string>)
    ensures Tiles(Headings(d, lines), |lines|)
  {
    EntriesSound(d, false, lines);
    var es, hs := Entries(d, false, lines), Headings(d, lines);
    forall i | 0 <= i < |es| ensures hs[i].start == es[i].line && hs[i].end == EndLine(es, i, |lines|) {
      assert hs[i] == HeadingAt(es, i, |lines|);
    }
    OrderTiles(es, hs, |lines|);
  }

  lemma {:induction false} OrderTiles(es: seq<Entry>, hs: seq<Heading>, total: nat)
    requires InOrder(es, total) && |hs| == |es|
    requires forall i | 0 <= i < |es| :: hs[i].start == es[i].line && hs[i].end == EndLine(es, i, total)
    ensures Tiles(hs, total)
  {
    forall i | 0 <= i < |hs| ensures 1 <= hs[i].start <= hs[i].end <= total {
      assert i + 1 < |es| ==> es[i].line < es[i + 1].line;
    }
    forall i, j | 0 <= i < j < |hs| ensures hs[i].end < hs[j].start {
      assert i + 1 < j ==> es[i + 1].line < es[j].line;
    }
  }

  // ---------- The scan loop ----------

  /** What a scan holds after `i` lines: the outline so far, and the ancestors of its last entry. */
  ghost predicate Scanned(d: Dialect, lines: seq<string>, i: nat, inFence: bool, hs: seq<Heading>,
      stack: seq<Heading>) {
    && i <= |lines|
    && inFence == FenceAfter(d, false, lines[..i])
    && IsOutline(hs, Entries(d, false, lines[..i]), |lines|)
    && StackFor(stack, Entries(d, false, lines[..i]), |Entries(d, false, lines[..i])| - 1)
  }

  /** The stack has been popped to the parent of a heading of this level. */
  ghost predicate Popped(d: Dialect, lines: seq<string>, i: nat, level: nat, stack: seq<Heading>)
    requires i <= |lines|
  {
    StackFor(stack, Entries(d, false, lines[..i]),
        Nearest(Entries(d, false, lines[..i]), |Entries(d, false, lines[..i])|, level))
  }

  /** Pops the ancestors that are not shallower than `level`: what is left leads to the parent. */
  method PopToParent(stack: seq<Heading>, level: nat, ghost d: Dialect, ghost lines: seq<string>, ghost i: nat,
                     ghost inFence: bool, ghost hs: seq<Heading>) returns (rest: seq<Heading>)
    requires Scanned(d, lines, i, inFence, hs, stack)
    ensures Popped(d, lines, i, level, rest)
  {
    rest := stack;
    ghost var es := Entries(d, false, lines[..i]);
    ghost var top := |es| - 1;
    while |rest| > 0 && rest[|rest| - 1].level >= level
      invariant -1 <= top < |es| && StackFor(rest, es, top)
      invariant Nearest(es, top + 1, level) == Nearest(es, |es|, level)
    {
      NearestSkips(es, top, level);
      top := Parent(es, top);
      rest := rest[..|rest| - 1];
    }
  }

  lemma {:induction false} ScanStart(d: Dialect, lines: seq<string>)
    ensures Scanned(d, lines, 0, false, [], [])
  {
  }

  lemma {:induction false} ScanEnd(d: Dialect, lines: seq<string>, inFence: bool, hs: seq<Heading>, stack: seq<Heading>)
    requires Scanned(d, lines, |lines|, inFence, hs, stack)
    ensures hs == Headings(d, lines)
  {
    assert lines[..|lines|] == lines;
  }

  lemma {:induction false} ScanLine(d: Dialect, lines: seq<string>, i: nat)
    requires i < |lines|
    ensures Entries(d, false, lines[..i + 1])
            == Entries(d, false, lines[..i]) + EntryOf(d, FenceAfter(d, false, lines[..i]), lines[i], i + 1)
    ensures FenceAfter(d, false, lines[..i + 1]) == (FenceAfter(d, false, lines[..i]) != d.fence(lines[i]))
  {
    assert lines[..i + 1] == lines[..i] + [lines[i]];
    EntriesSnoc(d, false, lines[..i], lines[i]);
  }

  lemma {:induction false} ScanSkip(d: Dialect, lines: seq<string>, i: nat, inFence: bool, hs: seq<Heading>,
      stack: seq<Heading>)
    requires Scanned(d, lines, i, inFence, hs, stack) && i < |lines|
    requires !OpensHeading(d, inFence, lines[i])
    ensures Scanned(d, lines, i + 1, inFence != d.fence(lines[i]), hs, stack)
  {
    ScanLine(d, lines, i);
    assert Entries(d, false, lines[..i + 1]) == Entries(d, false, lines[..i]);
  }

  lemma {:induction false} ScanOpen(d: Dialect, lines: seq<string>, i: nat, inFence: bool, hs: seq<Heading>,
                                    stack: seq<Heading>, rest: seq<Heading>)
    requires Scanned(d, lines, i, inFence, hs, stack) && i < |lines|
    requires OpensHeading(d, inFence, lines[i])
    requires Popped(d, lines, i, d.opens(lines[i]).value.level, rest)
    ensures var e := Entry(d.opens(lines[i]).value.level, d.opens(lines[i]).value.name, i + 1);
            Scanned(d, lines, i + 1, inFence, CloseLast(hs, i + 1) + [NewHeading(rest, e, |lines|)],
                    rest + [NewHeading(rest, e, |lines|)])
  {
    ScanLine(d, lines, i);
    var es := Entries(d, false, lines[..i]);
    var e := Entry(d.opens(lines[i]).value.level, d.opens(lines[i]).value.name, i + 1);
    StackPush(rest, es, e, |lines|);
    OutlineSnoc(hs, es, e, |lines|);
  }

  // ---------- The enclosing definition ----------

  predicate Covers(h: Heading, line: int) {
    h.start <= line <= h.end
  }

  /** The deepest of the headings covering `line`, the first of them if several are equally deep. */
  function Deepest(hs: seq<Heading>, line: int): (r: Option<Heading>)
    ensures r.Some? ==> r.value in hs && Covers(r.value, line)
                        && forall h <- hs :: Covers(h, line) ==> h.level <= r.value.level
    ensures r.None? ==> forall h <- hs :: !Covers(h, line)
  {
    if hs == [] then None
    else
      var n := |hs| - 1;
      var best := Deepest(hs[..n], line);
      assert hs == hs[..n] + [hs[n]];
      if Covers(hs[n], line) && (best.None? || hs[n].level > best.value.level) then Some(hs[n]) else best
  }

  /** Sections do not overlap, so depth never has to decide: the enclosing heading is the only one
      covering the line, and it is missing exactly before the first heading and after the last line. */
  lemma {:induction false} EnclosingIsUnique(d: Dialect, lines: seq<string>, line: int, i: nat)
    requires i < |Headings(d, lines)|
    ensures var hs := Headings(d, lines);
            && (Covers(hs[i], line) <==> Deepest(hs, line) == Some(hs[i]))
            && (Deepest(hs, line).None? <==> line < hs[0].start || line > |lines|)
  {
    SectionsTile(d, lines);
    OnlyOneCovers(Headings(d, lines), |lines|, line, i);
  }

  lemma {:induction false} OnlyOneCovers(hs: seq<Heading>, total: nat, line: int, i: nat)
    requires Tiles(hs, total) && i < |hs|
    ensures Covers(hs[i], line) <==> Deepest(hs, line) == Some(hs[i])
    ensures Deepest(hs, line).None? <==> line < hs[0].start || line > total
  {
    var best := Deepest(hs, line);
    if best.Some? {
      var k :| 0 <= k < |hs| && hs[k] == best.value;
      assert 0 < k ==> hs[0].end < hs[k].start;
      assert i < k ==> hs[i].end < hs[k].start;
      assert k < i ==> hs[k].end < hs[i].start;
    } else if hs[0].start <= line <= total {
      var k := LastStartingBy(hs, line);
      assert hs[k] in hs && Covers(hs[k], line);
      assert false;
    }
  }

  lemma {:induction false} LastStartingBy(hs: seq<Heading>, line: int) returns (k: nat)
    requires hs != [] && hs[0].start <= line
    ensures k < |hs| && hs[k].start <= line && (k + 1 < |hs| ==> line < hs[k + 1].start)
  {
    k := 0;
    while k + 1 < |hs| && hs[k + 1].start <= line
      invariant k < |hs| && hs[k].start <= line
    {
      k := k + 1;
    }
  }

  // ---------- Insertion ----------

  /** `ins` starts a section where one can start. Unless it goes to the end of the file, it is a run of whole
      sections, none shallower than the heading that opens `post`. */
  predicate InsertableBefore(d: Dialect, pre: seq<string>, ins: seq<string>, post: seq<string>) {
    && ins != [] && OpensHeading(d, FenceAfter(d, false, pre), ins[0])
    && (post != [] ==>
          && OpensHeading(d, FenceAfter(d, false, pre), post[0]) && !FenceAfter(d, false, ins)
          && forall e <- Entries(d, false, ins) :: e.level >= d.opens(post[0]).value.level)
  }

  predicate SameSection(lines: seq<string>, h: Heading, lines': seq<string>, h': Heading) {
    && 1 <= h.start <= h.end <= |lines| && 1 <= h'.start <= h'.end <= |lines'|
    && h.path == h'.path && h.level == h'.level
    && Section(lines, h) == Section(lines', h')
  }

  lemma {:induction false} InsertionEntries(d: Dialect, pre: seq<string>, ins: seq<string>, post: seq<string>)
    requires InsertableBefore(d, pre, ins, post)
    ensures var a, b, c := Entries(d, false, pre), Entries(d, false, post), Entries(d, false, ins);
            && Entries(d, false, pre + post) == a + Shift(b, |pre|)
            && Entries(d, false, pre + ins + post) == a + Shift(c, |pre|) + Shift(b, |pre| + |ins|)
            && (post == [] <==> b == []) && c != [] && c[0].line == 1
            && (b != [] ==> b[0].line == 1 && forall e <- c :: e.level >= b[0].level)
  {
    EntriesAppend(d, false, pre, ins);
    OpensFirst(d, ins);
    NoEntries(d);
    if post == [] {
      hide Entries, FenceAfter;
      assert pre + post == pre && pre + ins + post == pre + ins;
    } else {
      OpensFirst(d, post);
      hide Entries, FenceAfter, Shift;
      FenceAppend(d, false, pre, ins);
      EntriesAppend(d, false, pre, post);
      EntriesAppend(d, false, pre + ins, post);
    }
  }

  lemma NoEntries(d: Dialect)
    ensures Entries(d, false, []) == []
  {
  }

  /** `hs'` is `hs` with `count` headings inserted at index `at`, all starting on one of the lines
      (lo, hi], and every old heading keeps its path, level and text. */
  ghost predicate Inserted(lines: seq<string>, hs: seq<Heading>, lines': seq<string>, hs': seq<Heading>,
                           at: nat, count: nat, lo: int, hi: int)
  {
    && at <= |hs| && |hs'| == |hs| + count
    && (forall i | 0 <= i < |hs| :: SameSection(lines, hs[i], lines', hs'[Moved(i, at, count)]))
    && (forall j | 0 <= j < |hs'| :: at <= j < at + count <==> lo < hs'[j].start <= hi)
  }

  /** Inserting whole sections before a heading no deeper than any of them, or at the end of the file, leaves
      every existing heading its path and its text; what is new starts on an inserted line. */
  lemma {:induction false} Insertion(d: Dialect, pre: seq<string>, ins: seq<string>, post: seq<string>)
    requires InsertableBefore(d, pre, ins, post)
    ensures Inserted(pre + post, Headings(d, pre + post), pre + ins + post, Headings(d, pre + ins + post),
                     |Entries(d, false, pre)|, |Entries(d, false, ins)|, |pre|, |pre| + |ins|)
  {
    hide Path, FenceAfter, Entries, EntryOf;
    InsertionEntries(d, pre, ins, post);
    var ea, ec, ep := Entries(d, false, pre), Entries(d, false, ins), Entries(d, false, post);
    EntriesSound(d, false, pre);
    EntriesSound(d, false, ins);
    EntriesSound(d, false, post);
    var es, es' := Entries(d, false, pre + post), Entries(d, false, pre + ins + post);
    InsertedPointwise(ea, ec, ep, |pre|, |ins|, es, es');
    InsertedIndices(ea, ec, ep, |pre|, |ins|, es, es');
    InsertedLines(ea, ec, ep, |pre|, |ins|, |post|, es, es');
    InsertedHeadings(pre, ins, post, es, es', Headings(d, pre + post), Headings(d, pre + ins + post), |ea|, |ec|);
  }

  lemma {:induction false} InsertedHeadings(pre: seq<string>, ins: seq<string>, post: seq<string>,
      es: seq<Entry>, es': seq<Entry>, hs: seq<Heading>, hs': seq<Heading>, at: nat, count: nat)
    requires EntriesInserted(es, es', at, count) && LinesInserted(es, es', at, count, |pre|, |ins|, |post|)
    requires IsOutline(hs, es, |pre + post|) && IsOutline(hs', es', |pre + ins + post|)
    ensures Inserted(pre + post, hs, pre + ins + post, hs', at, count, |pre|, |pre| + |ins|)
  {
    hide Path, Nearest;
    forall i | 0 <= i < |es| ensures SameSection(pre + post, hs[i], pre + ins + post, hs'[Moved(i, at, count)]) {
      assert hs[i] == HeadingAt(es, i, |pre + post|);
      InsertedEntriesKeepPaths(es, es', at, count, i);
      InsertedSection(pre, ins, post, es, es', at, count, i);
    }
    forall j | 0 <= j < |hs'| ensures at <= j < at + count <==> |pre| < hs'[j].start <= |pre| + |ins| {
      assert hs'[j] == HeadingAt(es', j, |pre + ins + post|);
      if j >= at + count {
        assert es'[j - count + count].line == es[j - count].line + |ins|;
      }
    }
  }

  /** The line numbers of an insertion: earlier entries stay, later ones move by `ins` lines. */
  ghost predicate LinesInserted(es: seq<Entry>, es': seq<Entry>, at: nat, count: nat, pre: nat, ins: nat, post: nat) {
    && at <= |es| && |es'| == |es| + count
    && (forall j | 0 <= j < at :: es'[j].line == es[j].line <= pre)
    && (forall j | at <= j < at + count :: pre < es'[j].line <= pre + ins)
    && (forall j | at <= j < |es| :: es'[j + count].line == es[j].line + ins && pre < es[j].line)
    && count > 0 && es'[at].line == pre + 1 && (if at < |es| then es[at].line == pre + 1 else post == 0)
    && InOrder(es, pre + post)
  }

  function ShiftOne(e: Entry, offset: int): Entry {
    e.(line := e.line + offset)
  }

  /** The entries of an insertion, one by one. */
  ghost predicate Pointwise(ea: seq<Entry>, ec: seq<Entry>, ep: seq<Entry>, pre: nat, ins: nat, es: seq<Entry>,
      es': seq<Entry>) {
    && |es| == |ea| + |ep| && |es'| == |ea| + |ec| + |ep|
    && (forall j | 0 <= j < |ea| :: es[j] == ea[j] == es'[j])
    && (forall j | |ea| <= j < |es| :: es[j] == ShiftOne(ep[j - |ea|], pre))
    && (forall j | |ea| <= j < |ea| + |ec| :: es'[j] == ShiftOne(ec[j - |ea|], pre))
    && (forall j | |ea| + |ec| <= j < |es'| :: es'[j] == ShiftOne(ep[j - |ec| - |ea|], pre + ins))
  }

  lemma {:induction false} InsertedPointwise(ea: seq<Entry>, ec: seq<Entry>, ep: seq<Entry>, pre: nat, ins: nat,
                                             es: seq<Entry>, es': seq<Entry>)
    requires es == ea + Shift(ep, pre) && es' == ea + Shift(ec, pre) + Shift(ep, pre + ins)
    ensures Pointwise(ea, ec, ep, pre, ins, es, es')
  {
  }

  lemma {:induction false} InsertedIndices(ea: seq<Entry>, ec: seq<Entry>, ep: seq<Entry>, pre: nat, ins: nat,
                                           es: seq<Entry>, es': seq<Entry>)
    requires Pointwise(ea, ec, ep, pre, ins, es, es')
    requires ep != [] ==> forall e <- ec :: e.level >= ep[0].level
    ensures EntriesInserted(es, es', |ea|, |ec|)
  {
  }

  lemma {:induction false} InsertedLines(ea: seq<Entry>, ec: seq<Entry>, ep: seq<Entry>, pre: nat, ins: nat, post: nat,
                                         es: seq<Entry>, es': seq<Entry>)
    requires Pointwise(ea, ec, ep, pre, ins, es, es')
    requires InOrder(ea, pre) && InOrder(ec, ins) && InOrder(ep, post)
    requires ec != [] && ec[0].line == 1 && (if ep == [] then post == 0 else ep[0].line == 1)
    ensures LinesInserted(es, es', |ea|, |ec|, pre, ins, post)
  {
  }

  lemma {:induction false} InsertedSection(pre: seq<string>, ins: seq<string>, post: seq<string>,
                                           es: seq<Entry>, es': seq<Entry>, at: nat, count: nat, i: nat)
    requires LinesInserted(es, es', at, count, |pre|, |ins|, |post|)
    requires i < |es|
    ensures var from, to := es[i].line - 1, EndLine(es, i, |pre + post|);
            var i' := Moved(i, at, count);
            var from', to' := es'[i'].line - 1, EndLine(es', i', |pre + ins + post|);
            && 0 <= from < to <= |pre + post| && 0 <= from' < to' <= |pre + ins + post|
            && (pre + post)[from..to] == (pre + ins + post)[from'..to']
  {
    var from, to := es[i].line - 1, EndLine(es, i, |pre + post|);
    var i' := Moved(i, at, count);
    assert i + 1 < |es| ==> es[i].line < es[i + 1].line;
    if i < at {
      assert es'[i].line - 1 == from && EndLine(es', i, |pre + ins + post|) == to <= |pre|;
      SliceBefore(pre, ins, post, from, to);
    } else {
      assert es'[i'].line - 1 == from + |ins|;
      assert i + 1 < |es| ==> es'[i + 1 + count].line == es[i + 1].line + |ins|;
      assert EndLine(es', i', |pre + ins + post|) == to + |ins|;
      SliceAfter(pre, ins, post, from, to);
    }
  }

  lemma {:induction false} SliceBefore(pre: seq<string>, ins: seq<string>, post: seq<string>, i: nat, j: nat)
    requires i <= j <= |pre|
    ensures (pre + post)[i..j] == (pre + ins + post)[i..j]
  {
  }

  lemma {:induction false} SliceAfter(pre: seq<string>, ins: seq<string>, post: seq<string>, i: nat, j: nat)
    requires |pre| <= i <= j <= |pre + post|
    ensures (pre + post)[i..j] == (pre + ins + post)[i + |ins|..j + |ins|]
  {
  }

  lemma {:induction false} OpensFirst(d: Dialect, lines: seq<string>)
    requires lines != [] && OpensHeading(d, false, lines[0])
    ensures Entries(d, false, lines) != []
    ensures Entries(d, false, lines)[0] == Entry(d.opens(lines[0]).value.level, d.opens(lines[0]).value.name, 1)
  {
    EntriesSound(d, false, lines);
    assert lines[..0] == [];
    var i := EntriesComplete(d, false, lines, 0);
    assert OpenedBy(d, false, lines, Entries(d, false, lines)[0]);
    assert i == 0;
  }
}
