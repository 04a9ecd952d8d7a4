/** When a snapshot of the past can still change. Every writer reads its clock first and commits with it later,
    in as many statements as it likes: a seeding batch, a re-anchoring pass, a prune, a single write. Any
    number of writers and dedup passes are in flight at once. */
module Clocks {
  import opened Strings
  import opened Temporal
  import opened ClaimTable
  import opened Lifecycle
  import opened Snapshots
  import Pruning

  // ---------- Writers ----------

  /** One statement. The identifiers of new rows, and the rows a prune closes, are known when it commits. */
  datatype Op =
    | Insert(content: Content)
    | Replace(oldId: string, content: Content)
    | CloseRow(id: string, reason: string)
    | PruneScope(scope: string, n: nat)

  /** A writer holds the clock it has read, and the statements it has yet to commit with it. */
  datatype Writer = Writer(now: Time, todo: seq<Op>)

  datatype World = World(sys: System, held: seq<Writer>)

  datatype Act =
    | Read(now: Time, todo: seq<Op>)
    | Commit(i: nat, newId: string, ids: set<string>)
    | Drop(i: nat)
    | OfPass(e: Event)

  predicate IsPass(e: Event) {
    e.Scan? || e.Start? || e.Load? || e.Apply? || e.Abort?
  }

  predicate GoodOp(op: Op) {
    op.Replace? ==> op.content.statementHash.None?
  }

  /** What the database decides when a statement commits. */
  ghost predicate Chosen(t: Table, op: Op, newId: string, ids: set<string>) {
    match op
    case Insert(_) => newId !in t
    case Replace(oldId, _) => newId !in t && newId != oldId
    case CloseRow(_, _) => true
    case PruneScope(scope, n) => Pruning.Picked(t, scope, n, ids)
  }

  lemma PickedAreLive(t: Table, op: Op, newId: string, ids: set<string>)
    requires Chosen(t, op, newId, ids) && op.PruneScope?
    ensures forall id <- ids :: Live(t, id)
  {
  }

  function EventOf(now: Time, op: Op, newId: string, ids: set<string>): Event {
    match op
    case Insert(content) =>
      if content.statementHash.Some? then Write(newId, content, now) else SeedInsert(newId, content, now)
    case Replace(oldId, content) => SeedReplace(oldId, newId, content, now, now)
    case CloseRow(id, reason) => Expire(id, reason, now)
    case PruneScope(_, _) => Prune(ids, now)
  }

  /** The statement on the table, and whether it was refused. */
  ghost function Committed(t: Table, now: Time, op: Op, newId: string, ids: set<string>): (Table, Outcome)
    requires Chosen(t, op, newId, ids)
  {
    match op
    case Insert(content) => (InsertClaim(t, newId, content, now), Done)
    case Replace(oldId, content) => ReplaceSeed(t, oldId, newId, content, now, now)
    case CloseRow(id, reason) => ExpireClaim(t, id, reason, now)
    case PruneScope(_, _) =>
      PickedAreLive(t, op, newId, ids);
      CloseAll(t, ids, "pruned", now)
  }

  ghost predicate Able(w: World, a: Act) {
    match a
    case Read(_, todo) => forall k | 0 <= k < |todo| :: GoodOp(todo[k])
    case Commit(i, newId, ids) =>
      && i < |w.held| && w.held[i].todo != [] && GoodOp(w.held[i].todo[0])
      && Chosen(w.sys.table, w.held[i].todo[0], newId, ids)
    case Drop(i) => i < |w.held|
    case OfPass(e) => IsPass(e) && Enabled(w.sys, e)
  }

  /** A row that is no longer live is passed over; a statement the constraints refuse ends its writer. */
  ghost function Next(w: World, a: Act): World
    requires Able(w, a)
  {
    match a
    case Read(now, todo) => w.(held := w.held + [Writer(now, todo)])
    case Commit(i, newId, ids) =>
      var now, todo := w.held[i].now, w.held[i].todo;
      var (t, outcome) := Committed(w.sys.table, now, todo[0], newId, ids);
      World(w.sys.(table := t), w.held[i := Writer(now, if outcome == Rejected then [] else todo[1..])])
    case Drop(i) => w.(held := w.held[i := w.held[i].(todo := [])])
    case OfPass(e) => w.(sys := Step(w.sys, e))
  }

  /** A commit is an event of the lifecycle, at the clock its writer holds. */
  lemma {:induction false} CommitIsEvent(s: System, now: Time, op: Op, newId: string, ids: set<string>)
    requires GoodOp(op) && Chosen(s.table, op, newId, ids)
    ensures Enabled(s, EventOf(now, op, newId, ids))
    ensures Step(s, EventOf(now, op, newId, ids)) == s.(table := Committed(s.table, now, op, newId, ids).0)
  {
    if op.PruneScope? { PickedAreLive(s.table, op, newId, ids); }
  }

  ghost predicate GoodWorld(w: World) {
    Good(w.sys) && forall i, k | 0 <= i < |w.held| && 0 <= k < |w.held[i].todo| :: GoodOp(w.held[i].todo[k])
  }

  lemma {:induction false} ActKeepsGood(w: World, a: Act)
    requires GoodWorld(w) && Able(w, a)
    ensures GoodWorld(Next(w, a)) && Evolves(w.sys.table, Next(w, a).sys.table)
  {
    hide Good, Enabled, Step, Committed, GoodOp, Evolves, Chosen;
    match a
    case Read(_, _) => EvolvesReflexively(w.sys.table);
    case Commit(i, newId, ids) =>
      var op, now := w.held[i].todo[0], w.held[i].now;
      CommitIsEvent(w.sys, now, op, newId, ids);
      StepKeepsGood(w.sys, EventOf(now, op, newId, ids));
    case Drop(_) => EvolvesReflexively(w.sys.table);
    case OfPass(e) => StepKeepsGood(w.sys, e);
  }

  // ---------- Runs ----------

  ghost predicate RunsOn(w: World, acts: seq<Act>)
    decreases |acts|
  {
    acts == [] || (Able(w, acts[0]) && RunsOn(Next(w, acts[0]), acts[1..]))
  }

  ghost function WorldAfter(w: World, acts: seq<Act>): World
    requires RunsOn(w, acts)
    decreases |acts|
  {
    if acts == [] then w else WorldAfter(Next(w, acts[0]), acts[1..])
  }

  // ---------- Threats ----------

  /** Closing the row at `now` takes it out of the snapshot. */
  predicate Erases(t: Table, id: string, now: Time, validAt: Time, txAt: Time) {
    Live(t, id) && StartedBefore(t[id], now) && InSnapshot(t[id], validAt, txAt) && !LaterThan(now, validAt, txAt)
  }

  /** A statement committed at `now` shows in the snapshot: it inserts a row into it (no row given), or takes
      the given row out of it. A prune may take out any row of its scope, depending on what else is closed. */
  predicate OpShows(t: Table, now: Time, op: Op, row: Option<string>, validAt: Time, txAt: Time) {
    if row.None? then (op.Insert? || op.Replace?) && now <= validAt && now <= txAt
    else
      && Erases(t, row.value, now, validAt, txAt)
      && match op
         case Insert(_) => false
         case Replace(oldId, _) => row.value == oldId
         case CloseRow(id, _) => row.value == id
         case PruneScope(scope, n) => n > 0 && t[row.value].content.scope == scope
  }

  ghost predicate OpThreatens(t: Table, now: Time, op: Op, validAt: Time, txAt: Time) {
    exists row :: OpShows(t, now, op, row, validAt, txAt)
  }

  ghost predicate WriterThreatens(w: World, i: int, k: int, validAt: Time, txAt: Time) {
    && 0 <= i < |w.held| && 0 <= k < |w.held[i].todo|
    && OpThreatens(w.sys.table, w.held[i].now, w.held[i].todo[k], validAt, txAt)
  }

  /** No clock in flight threatens the snapshot, neither a pass's nor any other writer's. */
  ghost predicate Safe(w: World, validAt: Time, txAt: Time) {
    Harmless(w.sys, validAt, txAt) && forall i, k :: !WriterThreatens(w, i, k, validAt, txAt)
  }

  // ---------- The past is stable ----------

  /** Nothing newly in the snapshot: what is live and shown was so before. */
  ghost predicate ShownBefore(t: Table, t': Table, validAt: Time, txAt: Time) {
    forall id | Live(t', id) && InSnapshot(t'[id], validAt, txAt) ::
      Live(t, id) && InSnapshot(t[id], validAt, txAt) && SameStart(t[id], t'[id])
  }

  predicate SameStart(r: Row, r': Row) {
    r.content == r'.content && r.recordedAt == r'.recordedAt && r.validFrom == r'.validFrom
  }

  lemma {:induction false} OldShownBefore(t: Table, t': Table, validAt: Time, txAt: Time)
    requires GoodTable(t) && GoodTable(t') && Evolves(t, t')
    requires forall id <- t' | id !in t :: !InSnapshot(t'[id], validAt, txAt)
    ensures ShownBefore(t, t', validAt, txAt)
  {
    forall id | Live(t', id) && InSnapshot(t'[id], validAt, txAt)
      ensures Live(t, id) && InSnapshot(t[id], validAt, txAt) && SameStart(t[id], t'[id])
    {
      assert RowEvolves(t[id], t'[id]);
    }
  }

  lemma {:induction false} ThreatWasOp(t: Table, t': Table, now: Time, op: Op, validAt: Time, txAt: Time)
    requires ShownBefore(t, t', validAt, txAt) && OpThreatens(t', now, op, validAt, txAt)
    ensures OpThreatens(t, now, op, validAt, txAt)
  {
    hide InSnapshot;
    var row :| OpShows(t', now, op, row, validAt, txAt);
    assert OpShows(t, now, op, row, validAt, txAt);
  }

  /** A statement that threatens nothing changes nothing of the snapshot. */
  lemma {:induction false} OpKeepsSnapshot(t: Table, now: Time, op: Op, newId: string, ids: set<string>,
      validAt: Time, txAt: Time)
    requires GoodTable(t) && Chosen(t, op, newId, ids) && !OpThreatens(t, now, op, validAt, txAt)
    ensures Snapshot(Committed(t, now, op, newId, ids).0, validAt, txAt) == Snapshot(t, validAt, txAt)
    ensures forall id <- Committed(t, now, op, newId, ids).0 | id !in t ::
              !InSnapshot(Committed(t, now, op, newId, ids).0[id], validAt, txAt)
  {
    assert !OpShows(t, now, op, None, validAt, txAt);
    match op
    case Insert(content) => InsertShowsIff(t, newId, content, now, validAt, txAt);
    case Replace(oldId, content) =>
      assert !OpShows(t, now, op, Some(oldId), validAt, txAt);
      ReplaceKeepsSnapshot(t, oldId, newId, content, now, validAt, txAt);
    case CloseRow(id, reason) =>
      assert !OpShows(t, now, op, Some(id), validAt, txAt);
      if ExpireClaim(t, id, reason, now).1 == Done {
        CloseShowsIff(t, id, ClosedRow(t[id], now, None, Some(reason)), now, validAt, txAt);
      }
    case PruneScope(scope, n) =>
      PickedAreLive(t, op, newId, ids);
      forall id <- ids ensures !Erases(t, id, now, validAt, txAt) {
        assert !OpShows(t, now, op, Some(id), validAt, txAt);
        assert ids != {};
      }
      CloseAllKeepsSnapshot(t, ids, now, validAt, txAt);
  }

  lemma {:induction false} ReplaceKeepsSnapshot(t: Table, oldId: string, newId: string, content: Content, now: Time,
      validAt: Time, txAt: Time)
    requires GoodTable(t) && newId !in t && !(now <= validAt && now <= txAt) && !Erases(t, oldId, now, validAt, txAt)
    ensures var t' := ReplaceSeed(t, oldId, newId, content, now, now).0;
            && Snapshot(t', validAt, txAt) == Snapshot(t, validAt, txAt)
            && forall id <- t' | id !in t :: !InSnapshot(t'[id], validAt, txAt)
  {
    var t1 := InsertClaim(t, newId, content, now);
    InsertShowsIff(t, newId, content, now, validAt, txAt);
    InsertKeepsTable(t, newId, content, now);
    hide GoodTable, Snapshot;
    if Live(t1, oldId) && ReplaceSeed(t, oldId, newId, content, now, now).1 == Done {
      var r := t1[oldId].(supersededAt := Some(now), validUntil := Some(now), supersededBy := Some(newId));
      CloseShowsIff(t1, oldId, r, now, validAt, txAt);
    }
  }

  lemma {:induction false} CloseAllKeepsSnapshot(t: Table, ids: set<string>, now: Time, validAt: Time, txAt: Time)
    requires GoodTable(t) && (forall id <- ids :: Live(t, id)) && forall id <- ids :: !Erases(t, id, now, validAt, txAt)
    ensures Snapshot(CloseAll(t, ids, "pruned", now).0, validAt, txAt) == Snapshot(t, validAt, txAt)
    ensures CloseAll(t, ids, "pruned", now).0.Keys == t.Keys
  {
    var (t', outcome) := CloseAll(t, ids, "pruned", now);
    if outcome == Done {
      forall id <- t ensures InSnapshot(t'[id], validAt, txAt) <==> InSnapshot(t[id], validAt, txAt) {
        if id in ids {
          assert Live(t, id) && Checked(id, ClosedRow(t[id], now, None, Some("pruned")));
        }
      }
      SameShown(t, t', validAt, txAt);
    }
  }

  lemma {:induction false} SameShown(t: Table, t': Table, validAt: Time, txAt: Time)
    requires t'.Keys == t.Keys
    requires forall id <- t :: InSnapshot(t'[id], validAt, txAt) <==> InSnapshot(t[id], validAt, txAt)
    requires forall id <- t :: SameStart(t[id], t'[id])
    ensures Snapshot(t', validAt, txAt) == Snapshot(t, validAt, txAt)
  {
  }

  /** The clocks an act reads are later than both instants. */
  predicate ReadsLater(a: Act, validAt: Time, txAt: Time) {
    match a
    case Read(now, _) => LaterThan(now, validAt, txAt)
    case OfPass(e) => StampedAfter(e, validAt, txAt)
    case _ => true
  }

  lemma {:induction false} PassStepKeepsSnapshot(s: System, e: Event, validAt: Time, txAt: Time)
    requires Good(s) && IsPass(e) && Enabled(s, e) && Harmless(s, validAt, txAt)
    ensures Snapshot(Step(s, e).table, validAt, txAt) == Snapshot(s.table, validAt, txAt)
    ensures Step(s, e).table.Keys == s.table.Keys
  {
    hide Good, GoodTable, PlanOf, Snapshot, Threatens, InSnapshot;
    if e.Apply? {
      var outcome := ApplySupersession(s.table, s.PassOf(e.worker).loaded.value, "duplicate").1;
      if outcome == Done {
        ApplyShowsIff(s, e.worker, validAt, txAt);
        assert !Threatens(s.table, s.PassOf(e.worker), 0, validAt, txAt);
        if Snapshot(Step(s, e).table, validAt, txAt) != Snapshot(s.table, validAt, txAt) {
          AppliedThreatens(s, e.worker, validAt, txAt);
        }
      } else {
        ApplyClosesOne(s.table, s.PassOf(e.worker).loaded.value);
      }
    }
  }

  lemma {:induction false} TableKeepsHarmless(s: System, t': Table, validAt: Time, txAt: Time)
    requires Good(s) && Evolves(s.table, t') && Harmless(s, validAt, txAt)
    ensures Harmless(s.(table := t'), validAt, txAt)
  {
    hide Threatens, GoodPass, GoodEdges, GoodTable, Evolves;
    forall v: nat, k ensures !Threatens(t', s.(table := t').PassOf(v), k, validAt, txAt) {
      assert s.(table := t').PassOf(v) == s.PassOf(v);
      if Threatens(t', s.PassOf(v), k, validAt, txAt) {
        ThreatIsOld(s.table, t', s.PassOf(v), k, validAt, txAt);
      }
    }
  }

  lemma {:induction false} PassKeepsHarmless(s: System, e: Event, validAt: Time, txAt: Time)
    requires Good(s) && Enabled(s, e) && StampedAfter(e, validAt, txAt) && Harmless(s, validAt, txAt)
    ensures Harmless(Step(s, e), validAt, txAt)
  {
    hide PlanOf, GoodTable, GoodEdges, GoodPass, Good, Threatens;
    var s' := Step(s, e);
    forall v: nat, k ensures !Threatens(s'.table, s'.PassOf(v), k, validAt, txAt) {
      if Threatens(s'.table, s'.PassOf(v), k, validAt, txAt) {
        var j := ThreatWasThere(s, e, v, k, validAt, txAt);
      }
    }
  }

  /** Writers whose remaining statements were among those held before, on a table that shows nothing new. */
  lemma {:induction false} HeldStaySafe(w: World, w': World, validAt: Time, txAt: Time)
    requires ShownBefore(w.sys.table, w'.sys.table, validAt, txAt)
    requires forall i, k :: !WriterThreatens(w, i, k, validAt, txAt)
    requires |w'.held| == |w.held|
    requires forall i | 0 <= i < |w.held| :: LeftOf(w.held[i], w'.held[i])
    ensures forall i, k :: !WriterThreatens(w', i, k, validAt, txAt)
  {
    hide ShownBefore, OpThreatens;
    forall i, k ensures !WriterThreatens(w', i, k, validAt, txAt) {
      if WriterThreatens(w', i, k, validAt, txAt) {
        ThreatWasHeld(w, w', i, k, validAt, txAt);
      }
    }
  }

  lemma {:induction false} ThreatWasHeld(w: World, w': World, i: int, k: int, validAt: Time, txAt: Time)
    requires ShownBefore(w.sys.table, w'.sys.table, validAt, txAt) && WriterThreatens(w', i, k, validAt, txAt)
    requires i < |w.held| && LeftOf(w.held[i], w'.held[i])
    ensures WriterThreatens(w, i, k + |w.held[i].todo| - |w'.held[i].todo|, validAt, txAt)
  {
    hide ShownBefore, OpThreatens;
    var j := k + |w.held[i].todo| - |w'.held[i].todo|;
    assert w.held[i].todo[j] == w'.held[i].todo[k];
    ThreatWasOp(w.sys.table, w'.sys.table, w.held[i].now, w.held[i].todo[j], validAt, txAt);
  }

  /** `v'` holds the last of the statements of `v`. */
  predicate LeftOf(v: Writer, v': Writer) {
    v'.now == v.now && |v'.todo| <= |v.todo| && v'.todo == v.todo[|v.todo| - |v'.todo|..]
  }

  lemma {:induction false} NothingNewShown(t: Table, validAt: Time, txAt: Time)
    ensures ShownBefore(t, t, validAt, txAt)
  {
  }

  lemma {:induction false} ReadStaysSafe(w: World, now: Time, todo: seq<Op>, validAt: Time, txAt: Time)
    requires Safe(w, validAt, txAt) && LaterThan(now, validAt, txAt)
    ensures Safe(w.(held := w.held + [Writer(now, todo)]), validAt, txAt)
  {
    hide Harmless;
    var w' := w.(held := w.held + [Writer(now, todo)]);
    forall i, k ensures !WriterThreatens(w', i, k, validAt, txAt) {
      assert WriterThreatens(w', i, k, validAt, txAt) && i < |w.held| ==> WriterThreatens(w, i, k, validAt, txAt);
    }
  }

  lemma {:induction false} CommitStaysSafe(w: World, a: Act, validAt: Time, txAt: Time)
    requires GoodWorld(w) && a.Commit? && Able(w, a) && Safe(w, validAt, txAt)
    ensures Safe(Next(w, a), validAt, txAt)
    ensures Snapshot(Next(w, a).sys.table, validAt, txAt) == Snapshot(w.sys.table, validAt, txAt)
  {
    var i, now, op := a.i, w.held[a.i].now, w.held[a.i].todo[0];
    assert !WriterThreatens(w, i, 0, validAt, txAt);
    ActKeepsGood(w, a);
    var w' := Next(w, a);
    GoodTables(w.sys);
    GoodTables(w'.sys);
    hide GoodTable, Good, Committed, Chosen, OpThreatens, Snapshot, InSnapshot, ShownBefore;
    OpKeepsSnapshot(w.sys.table, now, op, a.newId, a.ids, validAt, txAt);
    OldShownBefore(w.sys.table, w'.sys.table, validAt, txAt);
    hide Evolves;
    TableKeepsHarmless(w.sys, w'.sys.table, validAt, txAt);
    HeldStaySafe(w, w', validAt, txAt);
  }

  lemma {:induction false} PassStaysSafe(w: World, e: Event, validAt: Time, txAt: Time)
    requires GoodWorld(w) && IsPass(e) && Enabled(w.sys, e) && StampedAfter(e, validAt, txAt) && Safe(w, validAt, txAt)
    ensures Safe(w.(sys := Step(w.sys, e)), validAt, txAt)
    ensures Snapshot(Step(w.sys, e).table, validAt, txAt) == Snapshot(w.sys.table, validAt, txAt)
  {
    var w' := w.(sys := Step(w.sys, e));
    hide GoodTable, Good, Enabled, Step, Harmless, OpThreatens, Snapshot, InSnapshot, ShownBefore, StampedAfter;
    PassStepKeepsSnapshot(w.sys, e, validAt, txAt);
    PassKeepsHarmless(w.sys, e, validAt, txAt);
    StepKeepsGood(w.sys, e);
    GoodTables(w.sys);
    GoodTables(w'.sys);
    OldShownBefore(w.sys.table, w'.sys.table, validAt, txAt);
    HeldStaySafe(w, w', validAt, txAt);
  }

  lemma {:induction false} ActStaysSafe(w: World, a: Act, validAt: Time, txAt: Time)
    requires GoodWorld(w) && Able(w, a) && ReadsLater(a, validAt, txAt) && Safe(w, validAt, txAt)
    ensures Safe(Next(w, a), validAt, txAt)
    ensures Snapshot(Next(w, a).sys.table, validAt, txAt) == Snapshot(w.sys.table, validAt, txAt)
  {
    hide GoodWorld, Snapshot, ShownBefore, Enabled, Step, Harmless, OpThreatens;
    match a
    case Read(now, todo) => ReadStaysSafe(w, now, todo, validAt, txAt);
    case Commit(_, _, _) => CommitStaysSafe(w, a, validAt, txAt);
    case Drop(_) =>
      NothingNewShown(w.sys.table, validAt, txAt);
      HeldStaySafe(w, Next(w, a), validAt, txAt);
    case OfPass(e) => PassStaysSafe(w, e, validAt, txAt);
  }

  /** The past is stable: while no clock in flight threatens a snapshot, nothing that reads its clock later
      changes it, however statements interleave. */
  lemma {:induction false} PastIsStable(w: World, acts: seq<Act>, validAt: Time, txAt: Time)
    requires GoodWorld(w) && RunsOn(w, acts) && Safe(w, validAt, txAt)
    requires forall i | 0 <= i < |acts| :: ReadsLater(acts[i], validAt, txAt)
    ensures Snapshot(WorldAfter(w, acts).sys.table, validAt, txAt) == Snapshot(w.sys.table, validAt, txAt)
    decreases |acts|
  {
    hide GoodWorld, Able, Next, ReadsLater, Safe, Snapshot;
    if acts != [] {
      ActKeepsGood(w, acts[0]);
      ActStaysSafe(w, acts[0], validAt, txAt);
      PastIsStable(Next(w, acts[0]), acts[1..], validAt, txAt);
    }
  }

  // ---------- Threats are carried out ----------

  lemma {:induction false} RunsJoin(w: World, acts: seq<Act>, more: seq<Act>)
    requires RunsOn(w, acts) && RunsOn(WorldAfter(w, acts), more)
    ensures RunsOn(w, acts + more) && WorldAfter(w, acts + more) == WorldAfter(WorldAfter(w, acts), more)
    decreases |acts|
  {
    hide Able, Next;
    if acts == [] {
      assert acts + more == more;
    } else {
      assert (acts + more)[1..] == acts[1..] + more;
      RunsJoin(Next(w, acts[0]), acts[1..], more);
    }
  }

  lemma {:induction false} RunsSingle(w: World, a: Act)
    requires Able(w, a)
    ensures RunsOn(w, [a]) && WorldAfter(w, [a]) == Next(w, a)
  {
  }

  /** Acts of writers that have read their clocks already, of passes under way, and of writers that read `late`. */
  predicate OnlyReads(a: Act, late: Time) {
    match a
    case Read(now, _) => now == late
    case OfPass(e) => e.Load? || e.Apply?
    case _ => true
  }

  ghost predicate AllOnlyRead(acts: seq<Act>, late: Time) {
    forall i | 0 <= i < |acts| :: OnlyReads(acts[i], late)
  }

  /** One event of a pass, or one expiry at `late`, is done by that pass or by a writer that reads `late`. */
  lemma {:induction false} LiftOne(w: World, e: Event, late: Time) returns (acts: seq<Act>)
    requires Enabled(w.sys, e) && OnlyClock(e, late)
    ensures RunsOn(w, acts) && AllOnlyRead(acts, late)
    ensures WorldAfter(w, acts).sys == Step(w.sys, e) && w.held <= WorldAfter(w, acts).held
  {
    hide RunsOn, WorldAfter, Enabled, Step, ExpireClaim;
    if e.Expire? {
      var op := CloseRow(e.id, e.reason);
      var read, commit := Read(late, [op]), Commit(|w.held|, "", {});
      var w1 := Next(w, read);
      assert w1.held[|w.held|] == Writer(late, [op]);
      CommitIsEvent(w.sys, late, op, "", {});
      RunsSingle(w, read);
      RunsSingle(w1, commit);
      RunsJoin(w, [read], [commit]);
      acts := [read] + [commit];
    } else {
      RunsSingle(w, OfPass(e));
      acts := [OfPass(e)];
    }
  }

  lemma {:induction false} Lift(w: World, es: seq<Event>, late: Time) returns (acts: seq<Act>)
    requires Runs(w.sys, es) && forall i | 0 <= i < |es| :: OnlyClock(es[i], late)
    ensures RunsOn(w, acts) && AllOnlyRead(acts, late)
    ensures WorldAfter(w, acts).sys == After(w.sys, es) && w.held <= WorldAfter(w, acts).held
    decreases |es|
  {
    hide Enabled, Step, Able, Next, OnlyClock;
    if es == [] {
      acts := [];
    } else {
      hide RunsOn, WorldAfter;
      var first := LiftOne(w, es[0], late);
      var rest := Lift(WorldAfter(w, first), es[1..], late);
      RunsJoin(w, first, rest);
      acts := first + rest;
    }
  }

  /** `ids` have been closed too late to show; nothing else has changed. */
  ghost predicate Cleared(t: Table, t': Table, ids: set<string>, late: Time, validAt: Time, txAt: Time) {
    && t'.Keys == t.Keys && AllBefore(t', late)
    && Snapshot(t', validAt, txAt) == Snapshot(t, validAt, txAt)
    && (forall id <- t :: if id in ids then !Live(t', id) else t'[id] == t[id])
  }

  lemma {:induction false} ExpireClears(s: System, id: string, late: Time, validAt: Time, txAt: Time)
    requires Good(s) && id in s.table && AllBefore(s.table, late) && LaterThan(late, validAt, txAt)
    ensures Enabled(s, Expire(id, "stale", late))
    ensures Cleared(s.table, Step(s, Expire(id, "stale", late)).table, {id}, late, validAt, txAt)
  {
    StepChangesAfter(s, Expire(id, "stale", late), validAt, txAt);
    LaterChangesDoNotShow(s.table, Step(s, Expire(id, "stale", late)).table, validAt, txAt);
    hide Snapshot, ChangesAfter;
  }

  lemma {:induction false} ClearRows(s: System, ids: set<string>, late: Time, validAt: Time, txAt: Time)
    returns (es: seq<Event>)
    requires Good(s) && ids <= s.table.Keys && AllBefore(s.table, late) && LaterThan(late, validAt, txAt)
    ensures Runs(s, es) && forall i | 0 <= i < |es| :: OnlyClock(es[i], late)
    ensures Good(After(s, es)) && Cleared(s.table, After(s, es).table, ids, late, validAt, txAt)
    decreases ids
  {
    hide Good, Enabled, Step, Snapshot, AllBefore;
    es := [];
    if ids != {} {
      var id :| id in ids;
      var e := Expire(id, "stale", late);
      ExpireClears(s, id, late, validAt, txAt);
      StepKeepsGood(s, e);
      es := ClearRows(Step(s, e), ids - {id}, late, validAt, txAt);
      ClearedTwice(s.table, Step(s, e).table, After(Step(s, e), es).table, id, ids, late, validAt, txAt);
      assert ([e] + es)[1..] == es;
      es := [e] + es;
    }
  }

  lemma {:induction false} ClearedTwice(t: Table, t': Table, t'': Table, id: string, ids: set<string>,
      late: Time, validAt: Time, txAt: Time)
    requires Cleared(t, t', {id}, late, validAt, txAt) && Cleared(t', t'', ids - {id}, late, validAt, txAt) && id in ids
    ensures Cleared(t, t'', ids, late, validAt, txAt)
  {
    hide Snapshot, AllBefore;
  }

  lemma {:induction false} NewName(names: set<string>) returns (n: nat)
    ensures forall name <- names :: |name| < n
    decreases names
  {
    n := 0;
    if names != {} {
      var name :| name in names;
      n := NewName(names - {name});
      n := n + |name| + 1;
    }
  }

  lemma FreshId(t: Table, op: Op) returns (id: string)
    ensures NewFor(t, op, id)
  {
    var n := NewName(t.Keys + if op.Replace? then {op.oldId} else {});
    id := seq(n, _ => 'x');
    assert |id| == n;
  }

  predicate NewFor(t: Table, op: Op, id: string) {
    id !in t && (op.Replace? ==> id != op.oldId)
  }

  /** Rows that stand in the way of a statement: it would be refused for them, or close them first. */
  function Blockers(t: Table, now: Time, op: Op, row: Option<string>): set<string> {
    match op
    case Insert(_) => {}
    case Replace(id, _) => if Live(t, id) && !StartedBefore(t[id], now) then {id} else {}
    case CloseRow(id, _) => if Live(t, id) && !StartedBefore(t[id], now) then {id} else {}
    case PruneScope(scope, n) =>
      if n == 0 then {} else Pruning.LiveIn(t, scope) - (if row.Some? then {row.value} else {})
  }

  ghost predicate Unblocked(t: Table, now: Time, op: Op, row: Option<string>) {
    match op
    case Insert(_) => true
    case Replace(id, _) => Live(t, id) ==> StartedBefore(t[id], now)
    case CloseRow(id, _) => Live(t, id) ==> StartedBefore(t[id], now)
    case PruneScope(scope, n) => n == 0 || Pruning.LiveIn(t, scope) == if row.Some? then {row.value} else {}
  }

  lemma {:induction false} ClearingUnblocks(t: Table, t': Table, now: Time, op: Op, row: Option<string>,
      late: Time, validAt: Time, txAt: Time)
    requires Cleared(t, t', Blockers(t, now, op, row), late, validAt, txAt)
    requires row.Some? ==> OpShows(t, now, op, row, validAt, txAt)
    ensures Unblocked(t', now, op, row)
    ensures OpShows(t, now, op, row, validAt, txAt) ==> OpShows(t', now, op, row, validAt, txAt)
  {
    hide Snapshot, AllBefore, InSnapshot;
    if row.Some? && row.value in t {
      assert row.value !in Blockers(t, now, op, row) ==> t'[row.value] == t[row.value];
    }
  }

  /** Unblocked, a statement that shows is not refused, and does show. */
  lemma {:induction false} UnblockedShows(t: Table, now: Time, op: Op, row: Option<string>, newId: string,
      validAt: Time, txAt: Time) returns (ids: set<string>)
    requires GoodTable(t) && OpShows(t, now, op, row, validAt, txAt)
    requires Unblocked(t, now, op, row) && NewFor(t, op, newId)
    ensures Chosen(t, op, newId, ids)
    ensures Snapshot(Committed(t, now, op, newId, ids).0, validAt, txAt) != Snapshot(t, validAt, txAt)
  {
    ids := if op.PruneScope? then {row.value} else {};
    assert Chosen(t, op, newId, ids);
    assert row.Some? ==> Checked(row.value, ClosedRow(t[row.value], now, None, Some("")));
    assert Committed(t, now, op, newId, ids).1 == Done;
    var t' := Committed(t, now, op, newId, ids).0;
    var x := if row.None? then newId else row.value;
    assert x in Snapshot(t', validAt, txAt) <==> x in t' && InSnapshot(t'[x], validAt, txAt);
    assert x in Snapshot(t, validAt, txAt) <==> x in t && InSnapshot(t[x], validAt, txAt);
  }

  /** Unblocked, a statement that does not show is not refused, and closes nothing that is shown. */
  lemma {:induction false} UnblockedPasses(t: Table, now: Time, op: Op, newId: string, validAt: Time, txAt: Time)
    returns (ids: set<string>)
    requires GoodTable(t) && !OpThreatens(t, now, op, validAt, txAt)
    requires Unblocked(t, now, op, None) && NewFor(t, op, newId)
    ensures Chosen(t, op, newId, ids) && Committed(t, now, op, newId, ids).1 != Rejected
    ensures var t' := Committed(t, now, op, newId, ids).0;
            forall id <- t | Erases(t, id, now, validAt, txAt) :: id in t' && t'[id] == t[id]
  {
    ids := {};
    hide InSnapshot;
    if op.Replace? { assert !OpShows(t, now, op, Some(op.oldId), validAt, txAt); }
    if op.CloseRow? { assert !OpShows(t, now, op, Some(op.id), validAt, txAt); }
  }

  /** A run from `w` that changes the snapshot, in which whoever reads a clock reads `late`. */
  ghost predicate Reveals(w: World, acts: seq<Act>, late: Time, validAt: Time, txAt: Time) {
    && RunsOn(w, acts) && AllOnlyRead(acts, late)
    && Snapshot(WorldAfter(w, acts).sys.table, validAt, txAt) != Snapshot(w.sys.table, validAt, txAt)
  }

  lemma {:induction false} RevealsLater(w: World, acts: seq<Act>, more: seq<Act>, late: Time, validAt: Time, txAt: Time)
    requires RunsOn(w, acts) && AllOnlyRead(acts, late) && Reveals(WorldAfter(w, acts), more, late, validAt, txAt)
    requires Snapshot(WorldAfter(w, acts).sys.table, validAt, txAt) == Snapshot(w.sys.table, validAt, txAt)
    ensures Reveals(w, acts + more, late, validAt, txAt)
  {
    hide RunsOn, WorldAfter, Snapshot;
    RunsJoin(w, acts, more);
  }

  /** The blockers of a writer's first statement expire first. */
  lemma {:induction false} ClearFirst(w: World, i: nat, row: Option<string>, late: Time, validAt: Time, txAt: Time)
    returns (acts: seq<Act>)
    requires GoodWorld(w) && i < |w.held| && w.held[i].todo != []
    requires AllBefore(w.sys.table, late) && LaterThan(late, validAt, txAt)
    ensures RunsOn(w, acts) && AllOnlyRead(acts, late) && w.held <= WorldAfter(w, acts).held
    ensures GoodWorld(WorldAfter(w, acts))
    ensures Cleared(w.sys.table, WorldAfter(w, acts).sys.table,
                    Blockers(w.sys.table, w.held[i].now, w.held[i].todo[0], row), late, validAt, txAt)
  {
    var blockers := Blockers(w.sys.table, w.held[i].now, w.held[i].todo[0], row);
    assert blockers <= w.sys.table.Keys;
    hide Good, Blockers, Cleared, RunsOn, WorldAfter, Runs, After, AllBefore, OnlyClock;
    var es := ClearRows(w.sys, blockers, late, validAt, txAt);
    acts := Lift(w, es, late);
    hide GoodOp;
    RunKeepsGood(w, acts);
  }

  lemma {:induction false} RunKeepsGood(w: World, acts: seq<Act>)
    requires GoodWorld(w) && RunsOn(w, acts)
    ensures GoodWorld(WorldAfter(w, acts))
    decreases |acts|
  {
    hide GoodWorld, Able, Next;
    if acts != [] {
      ActKeepsGood(w, acts[0]);
      RunKeepsGood(Next(w, acts[0]), acts[1..]);
    }
  }

  lemma {:induction false} FirstOpReveals(w: World, i: nat, late: Time, validAt: Time, txAt: Time)
    returns (acts: seq<Act>)
    requires GoodWorld(w) && AllBefore(w.sys.table, late) && LaterThan(late, validAt, txAt)
    requires WriterThreatens(w, i, 0, validAt, txAt)
    ensures Reveals(w, acts, late, validAt, txAt)
  {
    hide Good, Cleared, RunsOn, WorldAfter, AllBefore, Snapshot, OpShows, Blockers, Unblocked, Committed, Chosen,
      GoodTable;
    var now, op, t := w.held[i].now, w.held[i].todo[0], w.sys.table;
    var row :| OpShows(t, now, op, row, validAt, txAt);
    acts := ClearFirst(w, i, row, late, validAt, txAt);
    var w1 := WorldAfter(w, acts);
    assert w1.held[i] == w.held[i];
    ClearingUnblocks(t, w1.sys.table, now, op, row, late, validAt, txAt);
    SameAfterClearing(t, w1.sys.table, Blockers(t, now, op, row), late, validAt, txAt);
    GoodTables(w1.sys);
    var newId := FreshId(w1.sys.table, op);
    var ids := UnblockedShows(w1.sys.table, now, op, row, newId, validAt, txAt);
    var commit := Commit(i, newId, ids);
    RunsSingle(w1, commit);
    RevealsLater(w, acts, [commit], late, validAt, txAt);
    acts := acts + [commit];
  }

  lemma SameAfterClearing(t: Table, t': Table, ids: set<string>, late: Time, validAt: Time, txAt: Time)
    requires Cleared(t, t', ids, late, validAt, txAt)
    ensures Snapshot(t', validAt, txAt) == Snapshot(t, validAt, txAt) && AllBefore(t', late)
  {
  }

  /** Clearing the way for a statement that does not show spares the rows that the writer's later ones threaten. */
  lemma {:induction false} ClearingSpares(t: Table, t': Table, now: Time, op: Op, id: string, late: Time,
      validAt: Time, txAt: Time)
    requires !OpThreatens(t, now, op, validAt, txAt) && Cleared(t, t', Blockers(t, now, op, None), late, validAt, txAt)
    requires Erases(t, id, now, validAt, txAt)
    ensures Erases(t', id, now, validAt, txAt) && t'[id] == t[id]
  {
    hide Snapshot, AllBefore, InSnapshot;
    assert !OpShows(t, now, op, Some(id), validAt, txAt);
    assert id !in Blockers(t, now, op, None);
  }

  lemma {:induction false} ThreatIsNotNew(t: Table, t': Table, ids: set<string>, now: Time, op: Op, late: Time,
      validAt: Time, txAt: Time)
    requires Cleared(t, t', ids, late, validAt, txAt) && OpThreatens(t', now, op, validAt, txAt)
    ensures OpThreatens(t, now, op, validAt, txAt)
  {
    hide Snapshot, AllBefore, InSnapshot;
    var row :| OpShows(t', now, op, row, validAt, txAt);
    assert row.Some? ==> t'[row.value] == t[row.value];
    assert OpShows(t, now, op, row, validAt, txAt);
  }

  /** A statement that does not show is got past, with everything the writer's later ones threaten in place. */
  lemma {:induction false} GetPast(w: World, i: nat, late: Time, validAt: Time, txAt: Time) returns (acts: seq<Act>)
    requires GoodWorld(w) && AllBefore(w.sys.table, late) && LaterThan(late, validAt, txAt)
    requires i < |w.held| && w.held[i].todo != [] && w.held[i].now < late
    requires !OpThreatens(w.sys.table, w.held[i].now, w.held[i].todo[0], validAt, txAt)
    ensures RunsOn(w, acts) && AllOnlyRead(acts, late)
    ensures var w' := WorldAfter(w, acts);
            && GoodWorld(w') && AllBefore(w'.sys.table, late)
            && Snapshot(w'.sys.table, validAt, txAt) == Snapshot(w.sys.table, validAt, txAt)
            && i < |w'.held| && w'.held[i] == Writer(w.held[i].now, w.held[i].todo[1..])
            && StillErases(w.sys.table, w'.sys.table, w.held[i].now, validAt, txAt)
  {
    hide Good, Cleared, RunsOn, WorldAfter, AllBefore, Snapshot, OpThreatens, Blockers, Unblocked, Committed, Chosen,
      GoodTable, Erases;
    var now, op, t := w.held[i].now, w.held[i].todo[0], w.sys.table;
    acts := ClearFirst(w, i, None, late, validAt, txAt);
    var w1 := WorldAfter(w, acts);
    var t1 := w1.sys.table;
    assert w1.held[i] == w.held[i];
    ClearingUnblocks(t, t1, now, op, None, late, validAt, txAt);
    SameAfterClearing(t, t1, Blockers(t, now, op, None), late, validAt, txAt);
    if OpThreatens(t1, now, op, validAt, txAt) {
      ThreatIsNotNew(t, t1, Blockers(t, now, op, None), now, op, late, validAt, txAt);
    }
    GoodTables(w1.sys);
    var newId := FreshId(t1, op);
    var ids := UnblockedPasses(t1, now, op, newId, validAt, txAt);
    var commit := Commit(i, newId, ids);
    var t2 := Committed(t1, now, op, newId, ids).0;
    OpKeepsSnapshot(t1, now, op, newId, ids, validAt, txAt);
    ActKeepsGood(w1, commit);
    CommitStartsBefore(t1, now, op, newId, ids, late);
    RunsSingle(w1, commit);
    RunsJoin(w, acts, [commit]);
    forall id | Erases(t, id, now, validAt, txAt) ensures id in t && id in t2 && t2[id] == t[id] {
      ClearingSpares(t, t1, now, op, id, late, validAt, txAt);
      ErasesIn(t, id, now, validAt, txAt);
      ErasesIn(t1, id, now, validAt, txAt);
    }
    acts := acts + [commit];
  }

  lemma ErasesIn(t: Table, id: string, now: Time, validAt: Time, txAt: Time)
    requires Erases(t, id, now, validAt, txAt)
    ensures id in t
  {
  }

  ghost predicate StillErases(t: Table, t': Table, now: Time, validAt: Time, txAt: Time) {
    forall id | Erases(t, id, now, validAt, txAt) :: id in t && id in t' && t'[id] == t[id]
  }

  lemma {:induction false} CommitStartsBefore(t: Table, now: Time, op: Op, newId: string, ids: set<string>, late: Time)
    requires Chosen(t, op, newId, ids) && AllBefore(t, late) && now < late
    ensures AllBefore(Committed(t, now, op, newId, ids).0, late)
  {
    if op.PruneScope? { PickedAreLive(t, op, newId, ids); }
  }

  lemma {:induction false} StillShows(t: Table, t': Table, now: Time, op: Op, validAt: Time, txAt: Time)
    requires StillErases(t, t', now, validAt, txAt) && OpThreatens(t, now, op, validAt, txAt)
    ensures OpThreatens(t', now, op, validAt, txAt)
  {
    hide InSnapshot;
    var row :| OpShows(t, now, op, row, validAt, txAt);
    assert OpShows(t', now, op, row, validAt, txAt);
  }

  lemma {:induction false} ThreatHasClock(t: Table, now: Time, op: Op, late: Time, validAt: Time, txAt: Time)
    requires OpThreatens(t, now, op, validAt, txAt) && LaterThan(late, validAt, txAt)
    ensures now < late
  {
  }

  /** A writer's threat is carried out: its statements before it commit, with what blocks them expired first. */
  lemma {:induction false} WriterReveals(w: World, i: nat, k: nat, late: Time, validAt: Time, txAt: Time)
    returns (acts: seq<Act>)
    requires GoodWorld(w) && AllBefore(w.sys.table, late) && LaterThan(late, validAt, txAt)
    requires WriterThreatens(w, i, k, validAt, txAt)
    ensures Reveals(w, acts, late, validAt, txAt)
    decreases k
  {
    hide GoodWorld, AllBefore, OpThreatens, RunsOn, WorldAfter, Snapshot, AllOnlyRead, StillErases;
    var now, todo := w.held[i].now, w.held[i].todo;
    if OpThreatens(w.sys.table, now, todo[0], validAt, txAt) {
      acts := FirstOpReveals(w, i, late, validAt, txAt);
    } else {
      ThreatHasClock(w.sys.table, now, todo[k], late, validAt, txAt);
      acts := GetPast(w, i, late, validAt, txAt);
      var w' := WorldAfter(w, acts);
      assert w'.held[i].todo[k - 1] == todo[k];
      StillShows(w.sys.table, w'.sys.table, now, todo[k], validAt, txAt);
      var more := WriterReveals(w', i, k - 1, late, validAt, txAt);
      RevealsLater(w, acts, more, late, validAt, txAt);
      acts := acts + more;
    }
  }

  lemma {:induction false} PassReveals(w: World, v: nat, i: int, late: Time, validAt: Time, txAt: Time)
    returns (acts: seq<Act>)
    requires GoodWorld(w) && "" !in w.sys.table && AllBefore(w.sys.table, late) && LaterThan(late, validAt, txAt)
    requires Threatens(w.sys.table, w.sys.PassOf(v), i, validAt, txAt)
    ensures Reveals(w, acts, late, validAt, txAt)
  {
    hide Good, AllBefore, RunsOn, WorldAfter, Snapshot, Runs, After, InSnapshot;
    var es := ThreatIsCarriedOut(w.sys, v, i, late, validAt, txAt);
    acts := Lift(w, es, late);
  }

  // ---------- When the past can change ----------

  /** The clock an act reads, if any. */
  function ClockRead(a: Act): Option<Time> {
    match a
    case Read(now, _) => Some(now)
    case OfPass(e) => ClockOf(e)
    case _ => None
  }

  /** No clock that is read goes back. */
  ghost predicate ReadsRise(acts: seq<Act>) {
    forall i, j | 0 <= i < j < |acts| && ClockRead(acts[i]).Some? && ClockRead(acts[j]).Some? ::
      ClockRead(acts[i]).value <= ClockRead(acts[j]).value
  }

  ghost predicate ChangesLater(w: World, acts: seq<Act>, validAt: Time, txAt: Time) {
    && RunsOn(w, acts) && ReadsRise(acts)
    && (forall i | 0 <= i < |acts| :: ReadsLater(acts[i], validAt, txAt))
    && Snapshot(WorldAfter(w, acts).sys.table, validAt, txAt) != Snapshot(w.sys.table, validAt, txAt)
  }

  lemma {:induction false} LateReadsRise(acts: seq<Act>, late: Time, validAt: Time, txAt: Time)
    requires AllOnlyRead(acts, late) && LaterThan(late, validAt, txAt)
    ensures ReadsRise(acts) && forall i | 0 <= i < |acts| :: ReadsLater(acts[i], validAt, txAt)
  {
    assert forall i | 0 <= i < |acts| :: OnlyReads(acts[i], late);
  }

  /** A past snapshot can still change exactly when some clock in flight threatens it: a pass will fold a row it
      shows, a writer will close one, or insert one into it, at a clock that is not later than it. */
  lemma {:induction false} PastCanChangeIff(w: World, validAt: Time, txAt: Time)
    requires GoodWorld(w) && "" !in w.sys.table
    ensures (exists acts :: ChangesLater(w, acts, validAt, txAt)) <==> !Safe(w, validAt, txAt)
  {
    hide GoodWorld, RunsOn, WorldAfter, Snapshot, Threatens, WriterThreatens, ReadsRise, ReadsLater, AllBefore,
      AllOnlyRead;
    forall acts | ChangesLater(w, acts, validAt, txAt) ensures !Safe(w, validAt, txAt) {
      if Safe(w, validAt, txAt) { PastIsStable(w, acts, validAt, txAt); }
    }
    if !Safe(w, validAt, txAt) {
      var late := ALateClock(w.sys.table, validAt, txAt);
      var acts;
      if v: nat, i :| Threatens(w.sys.table, w.sys.PassOf(v), i, validAt, txAt) {
        acts := PassReveals(w, v, i, late, validAt, txAt);
      } else {
        var i, k :| WriterThreatens(w, i, k, validAt, txAt);
        ThreatIndices(w, i, k, validAt, txAt);
        acts := WriterReveals(w, i, k, late, validAt, txAt);
      }
      LateReadsRise(acts, late, validAt, txAt);
      assert ChangesLater(w, acts, validAt, txAt);
    }
  }

  lemma ThreatIndices(w: World, i: int, k: int, validAt: Time, txAt: Time)
    requires WriterThreatens(w, i, k, validAt, txAt)
    ensures i >= 0 && k >= 0
  {
  }

  // ---------- A late expiry ----------

  const START := World(INIT, [])

  lemma {:induction false} RunsMore(w: World, acts: seq<Act>, a: Act)
    requires RunsOn(w, acts) && Able(WorldAfter(w, acts), a)
    ensures RunsOn(w, acts + [a]) && WorldAfter(w, acts + [a]) == Next(WorldAfter(w, acts), a)
  {
    RunsSingle(WorldAfter(w, acts), a);
    RunsJoin(w, acts, [a]);
  }

  function LateExpiry(): seq<Act> {
    [Read(1, [Insert(SAMPLE)]), Commit(0, "a", {}), Read(3, [CloseRow("a", "stale_anchor")]),
     Read(6, [Insert(SAMPLE)]), Commit(2, "b", {})]
  }

  /** The worlds of that run, one after each act. */
  function LateWorlds(): seq<World> {
    var s := System(map["a" := EARLIER_ROW], map[]);
    var v, v' := Writer(3, [CloseRow("a", "stale_anchor")]), Writer(6, [Insert(SAMPLE)]);
    [START, World(INIT, [Writer(1, [Insert(SAMPLE)])]), World(s, [Writer(1, [])]), World(s, [Writer(1, []), v]),
     World(s, [Writer(1, []), v, v'])]
  }

  lemma LateStep(i: nat)
    requires i < 4
    ensures Able(LateWorlds()[i], LateExpiry()[i]) && Next(LateWorlds()[i], LateExpiry()[i]) == LateWorlds()[i + 1]
  {
  }

  lemma {:induction false} LateWrite()
    ensures Able(LateWorlds()[4], LateExpiry()[4])
    ensures Next(LateWorlds()[4], LateExpiry()[4]).sys
            == System(map["a" := EARLIER_ROW, "b" := Row(SAMPLE, 1, 6, 6, None, None, None, None)], map[])
    ensures Next(LateWorlds()[4], LateExpiry()[4]).held[1] == Writer(3, [CloseRow("a", "stale_anchor")])
  {
  }

  lemma {:induction false} LateRun(i: nat)
    requires i <= 4
    ensures RunsOn(START, LateExpiry()[..i]) && WorldAfter(START, LateExpiry()[..i]) == LateWorlds()[i]
  {
    hide Able, Next;
    if i > 0 {
      LateRun(i - 1);
      LateStep(i - 1);
      hide RunsOn, WorldAfter;
      RunsMore(START, LateExpiry()[..i - 1], LateExpiry()[i - 1]);
      assert LateExpiry()[..i] == LateExpiry()[..i - 1] + [LateExpiry()[i - 1]];
    }
  }

  /** No pass is needed: a re-anchoring pass that read its clock at 3 expires a claim after something was written
      at 6, and the snapshot of instant 5 changes, though no clock goes back. */
  lemma {:induction false} LateExpiryChangesThePast()
    ensures RunsOn(START, LateExpiry()) && Able(WorldAfter(START, LateExpiry()), Commit(1, "", {}))
    ensures ReadsRise(LateExpiry() + [Commit(1, "", {})]) && ClockRead(LateExpiry()[3]) == Some(6)
    ensures forall v: nat :: WorldAfter(START, LateExpiry()).sys.PassOf(v).Idle?
    ensures Snapshot(Next(WorldAfter(START, LateExpiry()), Commit(1, "", {})).sys.table, 5, 5)
            != Snapshot(WorldAfter(START, LateExpiry()).sys.table, 5, 5)
  {
    hide RunsOn, WorldAfter, Snapshot;
    LateRun(4);
    LateWrite();
    RunsMore(START, LateExpiry()[..4], LateExpiry()[4]);
    assert LateExpiry() == LateExpiry()[..4] + [LateExpiry()[4]];
    InitIsGood();
    RunKeepsGood(START, LateExpiry());
    ExpiryShows(WorldAfter(START, LateExpiry()).sys.table);
  }

  lemma ExpiryShows(t: Table)
    requires GoodTable(t) && "a" in t && t["a"] == EARLIER_ROW
    ensures Snapshot(ExpireClaim(t, "a", "stale_anchor", 3).0, 5, 5) != Snapshot(t, 5, 5)
  {
    CloseShowsIff(t, "a", ClosedRow(t["a"], 3, None, Some("stale_anchor")), 3, 5, 5);
  }

  // ---------- The world is the lifecycle ----------

  /** Whatever writers and passes do from the start, some run of lifecycle events does: what holds of every
      interleaving of those holds here. */
  lemma {:induction false} WorldIsARun(w: World, acts: seq<Act>) returns (es: seq<Event>)
    requires GoodWorld(w) && RunsOn(w, acts)
    ensures Runs(w.sys, es) && After(w.sys, es) == WorldAfter(w, acts).sys
    decreases |acts|
  {
    hide Good, Able, Next, Enabled, Step;
    es := [];
    if acts != [] {
      ActKeepsGood(w, acts[0]);
      es := WorldIsARun(Next(w, acts[0]), acts[1..]);
      var first := ActEvents(w, acts[0]);
      if first != [] {
        assert (first + es)[1..] == es;
        es := first + es;
      }
    }
  }

  lemma {:induction false} ActEvents(w: World, a: Act) returns (es: seq<Event>)
    requires GoodWorld(w) && Able(w, a)
    ensures |es| <= 1
    ensures if es == [] then Next(w, a).sys == w.sys
            else Enabled(w.sys, es[0]) && Step(w.sys, es[0]) == Next(w, a).sys
  {
    hide Good, Committed, Step, Enabled, Chosen;
    match a
    case Commit(i, newId, ids) =>
      var op, now := w.held[i].todo[0], w.held[i].now;
      CommitIsEvent(w.sys, now, op, newId, ids);
      es := [EventOf(now, op, newId, ids)];
    case OfPass(e) => es := [e];
    case _ => es := [];
  }
}
