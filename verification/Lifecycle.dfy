/** Every interleaving of writes, seeding, expiry, pruning and any number of concurrent dedup passes.
    A pass scans once, reads its clock, then loads and applies one job at a time; other events may come in
    between. The other events carry any clock. */
module Lifecycle {
  import opened Strings
  import opened Temporal
  import opened ClaimTable

  // ---------- Duplicates ----------

  predicate Hashed(t: Table, id: string) {
    id in t && t[id].content.statementHash.Some?
  }

  /** The order a survivor is chosen by. */
  predicate Earlier(t: Table, a: string, b: string)
    requires a in t && b in t
  {
    if t[a].recordedAt != t[b].recordedAt then t[a].recordedAt < t[b].recordedAt else Less(a, b)
  }

  /** Two live rows with the same statement hash. */
  predicate Twins(t: Table, a: string, b: string) {
    Live(t, a) && Live(t, b) && Hashed(t, a) && t[a].content.statementHash == t[b].content.statementHash
  }

  ghost predicate Duplicate(t: Table, id: string) {
    exists x :: Twins(t, x, id) && Earlier(t, x, id)
  }

  ghost predicate IsSurvivor(t: Table, s: string, id: string) {
    Twins(t, s, id) && forall x :: Twins(t, x, id) ==> x == s || Earlier(t, s, x)
  }

  datatype Job = Job(dup: string, survivor: string)

  /** What a scan hands over: one job for every duplicate, naming the earliest twin as survivor. */
  ghost predicate PlanOf(t: Table, todo: seq<Job>) {
    && (forall i | 0 <= i < |todo| :: Duplicate(t, todo[i].dup) && IsSurvivor(t, todo[i].survivor, todo[i].dup))
    && (forall i, j | 0 <= i < j < |todo| :: todo[i].dup != todo[j].dup)
    && (forall id | Duplicate(t, id) :: exists i :: 0 <= i < |todo| && todo[i].dup == id)
  }

  // ---------- The system ----------

  datatype Pass =
    | Idle
    | Planned(plan: seq<Job>)
    | Running(todo: seq<Job>, now: Time, loaded: Option<Claim<Content>>)

  datatype System = System(table: Table, passes: map<nat, Pass>) {
    function PassOf(w: nat): Pass {
      if w in passes then passes[w] else Idle
    }
  }

  datatype Event =
    | Write(id: string, content: Content, at: Time)
    | SeedInsert(id: string, content: Content, at: Time)
    | SeedReplace(oldId: string, id: string, content: Content, at: Time, now: Time)
    | Expire(id: string, reason: string, now: Time)
    | Prune(ids: set<string>, now: Time)
    | Scan(worker: nat, todo: seq<Job>)
    | Start(worker: nat, now: Time)
    | Load(worker: nat)
    | Apply(worker: nat)
    | Abort(worker: nat)

  function Todo(p: Pass): seq<Job> {
    match p case Idle => [] case Planned(plan) => plan case Running(todo, _, _) => todo
  }

  ghost predicate Enabled(s: System, e: Event) {
    match e
    case Write(id, content, _) => id !in s.table && content.statementHash.Some?
    case SeedInsert(id, content, _) => id !in s.table && content.statementHash.None?
    case SeedReplace(_, id, content, _, _) => id !in s.table && content.statementHash.None?
    case Expire(_, _, _) => true
    case Prune(ids, _) => forall id <- ids :: Live(s.table, id)
    case Scan(w, todo) => s.PassOf(w).Idle? && PlanOf(s.table, todo)
    case Start(w, _) => s.PassOf(w).Planned?
    case Load(w) => var p := s.PassOf(w); p.Running? && p.todo != [] && p.loaded.None?
    case Apply(w) => var p := s.PassOf(w); p.Running? && p.todo != [] && p.loaded.Some?
    case Abort(_) => true
  }

  /** Loading skips a job whose claim is no longer live, and aborts the pass on a supersession error. */
  function AfterLoad(t: Table, p: Pass): Pass
    requires p.Running? && p.todo != []
  {
    match LoadClaimForSupersession(t, p.todo[0].dup)
    case None => p.(todo := p.todo[1..])
    case Some(c) =>
      match Supersede(c, p.todo[0].survivor, p.now)
      case NotWellFormed => Idle
      case Ok(closed) => p.(loaded := Some(closed))
  }

  ghost function Step(s: System, e: Event): System
    requires Enabled(s, e)
  {
    match e
    case Write(id, content, at) => s.(table := InsertClaim(s.table, id, content, at))
    case SeedInsert(id, content, at) => s.(table := InsertClaim(s.table, id, content, at))
    case SeedReplace(oldId, id, content, at, now) => s.(table := ReplaceSeed(s.table, oldId, id, content, at, now).0)
    case Expire(id, reason, now) => s.(table := ExpireClaim(s.table, id, reason, now).0)
    case Prune(ids, now) => s.(table := CloseAll(s.table, ids, "pruned", now).0)
    case Scan(w, todo) => s.(passes := s.passes[w := Planned(todo)])
    case Start(w, now) => s.(passes := s.passes[w := Running(s.PassOf(w).plan, now, None)])
    case Load(w) => s.(passes := s.passes[w := AfterLoad(s.table, s.PassOf(w))])
    case Apply(w) =>
      var p := s.PassOf(w);
      var (t, outcome) := ApplySupersession(s.table, p.loaded.value, "duplicate");
      System(t, s.passes[w := if outcome == Done then p.(todo := p.todo[1..], loaded := None) else Idle])
    case Abort(w) => s.(passes := s.passes[w := Idle])
  }

  // ---------- The invariant ----------

  /** Dedup edges lead to an earlier hashed row; seed edges lead to an unhashed row inserted later. */
  ghost predicate EdgeDescends(t: Table, x: string, y: string) {
    && x in t && y in t
    && if Hashed(t, y) then Hashed(t, x) && Earlier(t, y, x) else t[x].serial < t[y].serial
  }

  ghost predicate GoodEdges(t: Table) {
    forall id <- t :: t[id].supersededBy.Some? ==> EdgeDescends(t, id, t[id].supersededBy.value)
  }

  ghost predicate GoodJob(t: Table, j: Job) {
    Hashed(t, j.dup) && Hashed(t, j.survivor) && Earlier(t, j.survivor, j.dup)
  }

  /** What a pass holds in memory: sound jobs, and a loaded claim closed in both dimensions at its clock. */
  ghost predicate GoodPass(t: Table, p: Pass) {
    && (p.Planned? ==> forall i | 0 <= i < |p.plan| :: GoodJob(t, p.plan[i]))
    && (p.Running? ==> forall i | 0 <= i < |p.todo| :: GoodJob(t, p.todo[i]))
    && (p.Running? && p.loaded.Some? ==> p.todo != [] && ClosedFor(p.loaded.value, p.todo[0], p.now))
  }

  ghost predicate ClosedFor(c: Claim<Content>, j: Job, now: Time) {
    && c.id == j.dup && c.supersededBy == j.survivor
    && now > 0 && c.recorded.until == now && c.valid.until == now
  }

  ghost predicate Good(s: System) {
    && GoodTable(s.table) && GoodEdges(s.table)
    && forall w: nat :: GoodPass(s.table, s.PassOf(w))
  }

  lemma {:induction false} EdgesEvolve(t: Table, t': Table, x: string, y: string)
    requires Evolves(t, t') && EdgeDescends(t, x, y)
    ensures EdgeDescends(t', x, y)
  {
  }

  lemma {:induction false} PassEvolves(t: Table, t': Table, p: Pass)
    requires Evolves(t, t') && GoodPass(t, p)
    ensures GoodPass(t', p)
  {
  }

  /** A table step that adds only descending edges keeps the invariant. */
  lemma {:induction false} TableStepKeepsGood(s: System, t': Table)
    requires Good(s) && GoodTable(t') && Evolves(s.table, t')
    requires forall id <- t' :: t'[id].supersededBy.Some? && !(id in s.table && s.table[id] == t'[id]) ==>
               EdgeDescends(t', id, t'[id].supersededBy.value)
    ensures Good(s.(table := t'))
  {
    hide EdgeDescends, GoodTable, GoodPass, Evolves;
    var t := s.table;
    forall id | id in t' && t'[id].supersededBy.Some? ensures EdgeDescends(t', id, t'[id].supersededBy.value) {
      if id in t && t[id] == t'[id] {
        EdgesEvolve(t, t', id, t[id].supersededBy.value);
      }
    }
    forall w: nat ensures GoodPass(t', s.PassOf(w)) {
      PassEvolves(t, t', s.PassOf(w));
    }
    assert forall w: nat :: s.(table := t').PassOf(w) == s.PassOf(w);
  }

  lemma {:induction false} PassStepKeepsGood(s: System, w: nat, p: Pass)
    requires Good(s) && GoodPass(s.table, p)
    ensures Good(s.(passes := s.passes[w := p]))
  {
    hide GoodPass, GoodTable, GoodEdges;
    var s' := s.(passes := s.passes[w := p]);
    forall v: nat ensures GoodPass(s.table, s'.PassOf(v)) {
      assert v != w ==> s'.PassOf(v) == s.PassOf(v);
    }
  }

  lemma {:induction false} InsertKeepsGood(s: System, id: string, content: Content, at: Time)
    requires Good(s) && id !in s.table
    ensures Good(s.(table := InsertClaim(s.table, id, content, at)))
    ensures Evolves(s.table, InsertClaim(s.table, id, content, at))
  {
    InsertKeepsTable(s.table, id, content, at);
    TableStepKeepsGood(s, InsertClaim(s.table, id, content, at));
  }

  lemma {:induction false} ReplaceKeepsGood(s: System, oldId: string, id: string, content: Content, at: Time, now: Time)
    requires Good(s) && id !in s.table && content.statementHash.None?
    ensures Good(s.(table := ReplaceSeed(s.table, oldId, id, content, at, now).0))
    ensures Evolves(s.table, ReplaceSeed(s.table, oldId, id, content, at, now).0)
  {
    ReplaceKeepsTable(s.table, oldId, id, content, at, now);
    var t' := ReplaceSeed(s.table, oldId, id, content, at, now).0;
    assert oldId in s.table ==> s.table[oldId].serial < |s.table|;
    hide GoodEdges, GoodTable, GoodPass, Evolves;
    TableStepKeepsGood(s, t');
  }

  lemma {:induction false} ExpireKeepsGood(s: System, id: string, reason: string, now: Time)
    requires Good(s)
    ensures Good(s.(table := ExpireClaim(s.table, id, reason, now).0))
    ensures Evolves(s.table, ExpireClaim(s.table, id, reason, now).0)
  {
    if Live(s.table, id) {
      var r := ClosedRow(s.table[id], now, None, Some(reason));
      UpdateKeepsTable(s.table, id, r);
      TableStepKeepsGood(s, UpdateLive(s.table, id, r).0);
    }
  }

  lemma {:induction false} PruneKeepsGood(s: System, ids: set<string>, now: Time)
    requires Good(s) && forall id <- ids :: Live(s.table, id)
    ensures Good(s.(table := CloseAll(s.table, ids, "pruned", now).0))
    ensures Evolves(s.table, CloseAll(s.table, ids, "pruned", now).0)
  {
    CloseAllKeepsTable(s.table, ids, "pruned", now);
    TableStepKeepsGood(s, CloseAll(s.table, ids, "pruned", now).0);
  }

  lemma {:induction false} ScanKeepsGood(s: System, w: nat, todo: seq<Job>)
    requires Good(s) && PlanOf(s.table, todo)
    ensures Good(s.(passes := s.passes[w := Planned(todo)]))
  {
    forall i | 0 <= i < |todo| ensures GoodJob(s.table, todo[i]) {
      assert Duplicate(s.table, todo[i].dup) && IsSurvivor(s.table, todo[i].survivor, todo[i].dup);
      var x :| Twins(s.table, x, todo[i].dup) && Earlier(s.table, x, todo[i].dup);
      LessTotal(x, todo[i].dup);
      LessTotal(todo[i].survivor, todo[i].dup);
      assert x == todo[i].survivor || Earlier(s.table, todo[i].survivor, x);
      EarlierTransitive(s.table, todo[i].survivor, x, todo[i].dup);
    }
    PassStepKeepsGood(s, w, Planned(todo));
  }

  lemma {:induction false} StartKeepsGood(s: System, w: nat, now: Time)
    requires Good(s) && Enabled(s, Start(w, now))
    ensures Good(Step(s, Start(w, now)))
  {
    assert GoodPass(s.table, s.PassOf(w));
    PassStepKeepsGood(s, w, Running(s.PassOf(w).plan, now, None));
  }

  lemma {:induction false} EarlierTransitive(t: Table, a: string, b: string, c: string)
    requires a in t && b in t && c in t && Earlier(t, b, c)
    ensures Earlier(t, a, b) ==> Earlier(t, a, c)
    ensures a == b ==> Earlier(t, a, c)
  {
    if Less(a, b) && Less(b, c) {
      LessTrans(a, b, c);
    }
  }

  lemma {:induction false} LoadKeepsGood(s: System, w: nat)
    requires Good(s) && Enabled(s, Load(w))
    ensures Good(Step(s, Load(w)))
  {
    var p := s.PassOf(w);
    assert GoodPass(s.table, p);
    PassStepKeepsGood(s, w, AfterLoad(s.table, p));
  }

  lemma {:induction false} ApplyKeepsGood(s: System, w: nat)
    requires Good(s) && Enabled(s, Apply(w))
    ensures Good(Step(s, Apply(w))) && Evolves(s.table, Step(s, Apply(w)).table)
  {
    var p := s.PassOf(w);
    assert GoodPass(s.table, p) && GoodJob(s.table, p.todo[0]);
    var c := p.loaded.value;
    var t' := ApplySupersession(s.table, c, "duplicate").0;
    var done := ApplySupersession(s.table, c, "duplicate").1 == Done;
    var p' := if done then p.(todo := p.todo[1..], loaded := None) else Idle;
    assert GoodPass(s.table, p');
    PassStepKeepsGood(s, w, p');
    if Live(s.table, c.id) {
      var r := s.table[c.id].(supersededAt := Some(c.recorded.until), validUntil := NullIfZero(c.valid.until),
                              supersededBy := Some(c.supersededBy), reason := Some("duplicate"));
      UpdateKeepsTable(s.table, c.id, r);
      assert t' == UpdateLive(s.table, c.id, r).0;
      EdgesEvolve(s.table, t', p.todo[0].dup, p.todo[0].survivor);
      hide GoodEdges, GoodTable, GoodPass, Evolves;
      TableStepKeepsGood(s.(passes := s.passes[w := p']), t');
    }
  }

  lemma {:induction false} ApplyClosesOne(t: Table, c: Claim<Content>)
    ensures var (t', outcome) := ApplySupersession(t, c, "duplicate");
            if outcome == Done then Live(t, c.id) && forall id | Live(t, id) && !Live(t', id) :: id == c.id else t' == t
  {
  }

  /** Every step, in every interleaving, keeps the invariant; no row is deleted and no closed row changes. */
  lemma {:induction false} StepKeepsGood(s: System, e: Event)
    requires Good(s) && Enabled(s, e)
    ensures Good(Step(s, e)) && Evolves(s.table, Step(s, e).table)
  {
    hide Good, GoodTable, GoodEdges, GoodPass, PlanOf;
    match e
    case Write(id, content, at) => InsertKeepsGood(s, id, content, at);
    case SeedInsert(id, content, at) => InsertKeepsGood(s, id, content, at);
    case SeedReplace(oldId, id, content, at, now) => ReplaceKeepsGood(s, oldId, id, content, at, now);
    case Expire(id, reason, now) => ExpireKeepsGood(s, id, reason, now);
    case Prune(ids, now) => PruneKeepsGood(s, ids, now);
    case Scan(w, todo) => ScanKeepsGood(s, w, todo);
    case Start(w, now) => StartKeepsGood(s, w, now);
    case Load(w) => LoadKeepsGood(s, w);
    case Apply(w) => ApplyKeepsGood(s, w);
    case Abort(w) => IdleIsGood(s.table); PassStepKeepsGood(s, w, Idle);
  }

  lemma IdleIsGood(t: Table)
    ensures GoodPass(t, Idle)
  {
  }

  // ---------- Runs ----------

  const INIT := System(map[], map[])

  ghost predicate Runs(s: System, es: seq<Event>)
    decreases |es|
  {
    es == [] || (Enabled(s, es[0]) && Runs(Step(s, es[0]), es[1..]))
  }

  ghost function After(s: System, es: seq<Event>): System
    requires Runs(s, es)
    decreases |es|
  {
    if es == [] then s else After(Step(s, es[0]), es[1..])
  }

  lemma InitIsGood()
    ensures Good(INIT)
  {
  }

  lemma {:induction false} RunsKeepGood(s: System, es: seq<Event>)
    requires Good(s) && Runs(s, es)
    ensures Good(After(s, es)) && Evolves(s.table, After(s, es).table)
    decreases |es|
  {
    hide Good, Enabled, Step;
    if es == [] {
      EvolvesReflexively(s.table);
    } else {
      StepKeepsGood(s, es[0]);
      RunsKeepGood(Step(s, es[0]), es[1..]);
      EvolvesTransitively(s.table, Step(s, es[0]).table, After(s, es).table);
    }
  }

  lemma EvolvesReflexively(t: Table)
    ensures Evolves(t, t)
  {
  }

  lemma RunsNothing(s: System)
    ensures Runs(s, []) && After(s, []) == s
  {
  }

  lemma {:induction false} RunsAppend(s: System, es: seq<Event>, fs: seq<Event>)
    requires Runs(s, es) && Runs(After(s, es), fs)
    ensures Runs(s, es + fs) && After(s, es + fs) == After(After(s, es), fs)
    decreases |es|
  {
    hide Enabled, Step;
    if es == [] {
      assert es + fs == fs;
    } else {
      assert (es + fs)[1..] == es[1..] + fs;
      RunsAppend(Step(s, es[0]), es[1..], fs);
    }
  }

  lemma RunsOne(s: System, e: Event)
    requires Enabled(s, e)
    ensures Runs(s, [e]) && After(s, [e]) == Step(s, e)
  {
  }

  lemma {:induction false} RunsExtend(s: System, es: seq<Event>, e: Event)
    requires Runs(s, es) && Enabled(After(s, es), e)
    ensures Runs(s, es + [e]) && After(s, es + [e]) == Step(After(s, es), e)
    decreases |es|
  {
    hide Enabled, Step;
    if es == [] {
      assert [] + [e] == [e] && [e][1..] == [];
    } else {
      RunsExtend(Step(s, es[0]), es[1..], e);
      assert (es + [e])[1..] == es[1..] + [e];
    }
  }

  // ---------- The supersession graph ----------

  /** The row reached from `id` by following `n` successor edges. */
  function Follow(t: Table, id: string, n: nat): Option<string>
    decreases n
  {
    if n == 0 then Some(id)
    else if id in t && t[id].supersededBy.Some? then Follow(t, t[id].supersededBy.value, n - 1)
    else None
  }

  /** What any path preserves: it never returns from unhashed to hashed rows, and it descends within each kind. */
  ghost predicate Below(t: Table, x: string, y: string) {
    && x in t && y in t
    && if Hashed(t, y) then Hashed(t, x) && Earlier(t, y, x) else Hashed(t, x) || t[x].serial < t[y].serial
  }

  lemma {:induction false} PathsDescend(t: Table, x: string, n: nat)
    requires GoodEdges(t) && n > 0 && Follow(t, x, n).Some?
    ensures Below(t, x, Follow(t, x, n).value)
    decreases n
  {
    var y := t[x].supersededBy.value;
    assert EdgeDescends(t, x, y);
    if n > 1 {
      PathsDescend(t, y, n - 1);
      var z := Follow(t, y, n - 1).value;
      if Hashed(t, z) {
        EarlierTransitive(t, z, y, x);
      }
    }
  }

  /** In every reachable state no row is its own successor, however many edges are followed. */
  lemma {:induction false} SupersessionIsAcyclic(es: seq<Event>, id: string, n: nat)
    requires Runs(INIT, es) && n > 0
    ensures Follow(After(INIT, es).table, id, n) != Some(id)
  {
    hide Good, Enabled, Step, Runs, After;
    InitIsGood();
    RunsKeepGood(INIT, es);
    var t := After(INIT, es).table;
    GoodTables(After(INIT, es));
    if Follow(t, id, n).Some? {
      PathsDescend(t, id, n);
      LessTotal(id, id);
    }
  }

  lemma GoodTables(s: System)
    requires Good(s)
    ensures GoodTable(s.table) && GoodEdges(s.table)
  {
  }

  /** Only closed rows carry an edge, and every edge is of one of two kinds. */
  lemma {:induction false} EdgesOfReachableStates(es: seq<Event>, x: string)
    requires Runs(INIT, es) && x in After(INIT, es).table && After(INIT, es).table[x].supersededBy.Some?
    ensures var t := After(INIT, es).table;
            var y := t[x].supersededBy.value;
            && t[x].supersededAt.Some? && y in t
            && (if t[y].content.statementHash.Some? then t[x].content.statementHash.Some? && Earlier(t, y, x)
                else t[x].serial < t[y].serial)
  {
    hide Good, Enabled, Step, Runs, After;
    InitIsGood();
    RunsKeepGood(INIT, es);
    GoodTables(After(INIT, es));
    assert EdgeDescends(After(INIT, es).table, x, After(INIT, es).table[x].supersededBy.value);
  }

  // ---------- A sample run ----------

  const SAMPLE := Content("a statement", "a scope", 1.0, Some("its hash"))
  const EARLIER_ROW := Row(SAMPLE, 0, 1, 1, None, None, None, None)
  const LATER_ROW := Row(SAMPLE, 1, 2, 2, None, None, None, None)

  /** Two rows with one statement, written at instants 1 and 2. */
  lemma TwoWrites() returns (es: seq<Event>)
    ensures es == [Write("a", SAMPLE, 1), Write("b", SAMPLE, 2)]
    ensures Runs(INIT, es) && After(INIT, es) == System(map["a" := EARLIER_ROW, "b" := LATER_ROW], map[])
  {
    hide Runs, After;
    RunsNothing(INIT);
    es := [];
    var t1: Table := map["a" := EARLIER_ROW];
    RunsExtend(INIT, es, Write("a", SAMPLE, 1));
    assert Step(INIT, Write("a", SAMPLE, 1)) == System(t1, map[]);
    es := es + [Write("a", SAMPLE, 1)];
    RunsExtend(INIT, es, Write("b", SAMPLE, 2));
    assert |t1| == 1;
    es := es + [Write("b", SAMPLE, 2)];
  }

  lemma SamplePlan(t: Table)
    requires t == map["a" := EARLIER_ROW, "b" := LATER_ROW]
    ensures PlanOf(t, [Job("b", "a")])
  {
    assert Twins(t, "a", "b") && Earlier(t, "a", "b");
    assert forall x, y :: Twins(t, x, y) ==> x in {"a", "b"} && y in {"a", "b"};
    assert !Earlier(t, "b", "a") && !Earlier(t, "a", "a") by {
      LessTotal("a", "a");
    }
    var todo := [Job("b", "a")];
    forall id | Duplicate(t, id) ensures exists i :: 0 <= i < |todo| && todo[i].dup == id {
      assert todo[0].dup == id;
    }
  }

  /** Two rows with one statement, a scan that plans to fold the later one, and that job loaded. */
  lemma ScannedAndLoaded() returns (es: seq<Event>, s: System)
    ensures es == [Write("a", SAMPLE, 1), Write("b", SAMPLE, 2), Scan(0, [Job("b", "a")]), Start(0, 3), Load(0)]
    ensures Runs(INIT, es) && After(INIT, es) == s
    ensures s.table == map["a" := EARLIER_ROW, "b" := LATER_ROW]
    ensures s.PassOf(0) == Running([Job("b", "a")], 3, Some(Claim("b", SAMPLE, Interval(2, 3), Interval(2, 3), "a")))
  {
    hide Runs, After, PlanOf;
    es := TwoWrites();
    var t: Table := map["a" := EARLIER_ROW, "b" := LATER_ROW];
    var todo := [Job("b", "a")];
    SamplePlan(t);
    RunsExtend(INIT, es, Scan(0, todo));
    es := es + [Scan(0, todo)];
    RunsExtend(INIT, es, Start(0, 3));
    es := es + [Start(0, 3)];
    var c := Claim("b", SAMPLE, Interval(2, 3), Interval(2, 3), "a");
    assert AfterLoad(t, Running(todo, 3, None)) == Running(todo, 3, Some(c));
    RunsExtend(INIT, es, Load(0));
    es := es + [Load(0)];
    s := After(INIT, es);
  }
}
