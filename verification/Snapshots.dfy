/** How a dedup pass that holds an earlier clock changes a snapshot of the past. */
module Snapshots {
  import opened Strings
  import opened Temporal
  import opened ClaimTable
  import opened Lifecycle

  predicate LaterThan(now: Time, validAt: Time, txAt: Time) {
    validAt < now && txAt < now
  }

  /** The clocks an event brings with it are later than both instants. A pass brings its clock when it starts. */
  predicate StampedAfter(e: Event, validAt: Time, txAt: Time) {
    match e
    case Write(_, _, at) => LaterThan(at, validAt, txAt)
    case SeedInsert(_, _, at) => LaterThan(at, validAt, txAt)
    case SeedReplace(_, _, _, at, now) => LaterThan(at, validAt, txAt) && LaterThan(now, validAt, txAt)
    case Expire(_, _, now) => LaterThan(now, validAt, txAt)
    case Prune(_, now) => LaterThan(now, validAt, txAt)
    case Scan(_, _) => true
    case Start(_, now) => LaterThan(now, validAt, txAt)
    case Load(_) => true
    case Apply(_) => true
    case Abort(_) => true
  }

  /** Job `i` of a pass will close, at a clock not later than both instants, a row that their snapshot shows.
      A pass that has loaded its first job gets to the others only if that one can still be applied. */
  predicate Threatens(t: Table, p: Pass, i: int, validAt: Time, txAt: Time) {
    && p.Running? && 0 <= i < |p.todo| && !LaterThan(p.now, validAt, txAt)
    && Foldable(t, p, i) && InSnapshot(t[p.todo[i].dup], validAt, txAt)
    && (i > 0 && p.loaded.Some? ==> Foldable(t, p, 0))
  }

  predicate Foldable(t: Table, p: Pass, i: nat)
    requires p.Running? && i < |p.todo|
  {
    Live(t, p.todo[i].dup) && StartedBefore(t[p.todo[i].dup], p.now)
  }

  /** No pass in flight threatens the snapshot. */
  ghost predicate Harmless(s: System, validAt: Time, txAt: Time) {
    forall w: nat, i :: !Threatens(s.table, s.PassOf(w), i, validAt, txAt)
  }

  /** Rows change only by being closed later than both instants, and new rows start later. */
  ghost predicate ChangesAfter(t: Table, t': Table, validAt: Time, txAt: Time) {
    && (forall id <- t ::
          id in t' && RowEvolves(t[id], t'[id])
          && (t'[id] == t[id] || ClosesAfter(t[id], t'[id], validAt, txAt)))
    && (forall id <- t' :: id !in t ==> validAt < t'[id].validFrom)
  }

  predicate ClosesAfter(r: Row, r': Row, validAt: Time, txAt: Time) {
    && r.supersededAt.None? && r.validUntil.None?
    && r'.supersededAt.Some? && txAt < r'.supersededAt.value
    && r'.validUntil.Some? && validAt < r'.validUntil.value
  }

  lemma {:induction false} LaterChangesDoNotShow(t: Table, t': Table, validAt: Time, txAt: Time)
    requires ChangesAfter(t, t', validAt, txAt)
    ensures Snapshot(t', validAt, txAt) == Snapshot(t, validAt, txAt)
  {
  }

  lemma {:induction false} InsertChangesAfter(t: Table, id: string, content: Content, at: Time, validAt: Time,
      txAt: Time)
    requires id !in t && LaterThan(at, validAt, txAt)
    ensures ChangesAfter(t, InsertClaim(t, id, content, at), validAt, txAt)
  {
  }

  lemma {:induction false} UpdateChangesAfter(t: Table, id: string, r: Row, validAt: Time, txAt: Time)
    requires GoodTable(t) && Live(t, id) && RowEvolves(t[id], r)
    requires r.supersededAt.Some? && LaterThan(r.supersededAt.value, validAt, txAt)
    requires r.validUntil.Some? && LaterThan(r.validUntil.value, validAt, txAt)
    ensures ChangesAfter(t, UpdateLive(t, id, r).0, validAt, txAt)
  {
  }

  lemma {:induction false} ReplaceChangesAfter(t: Table, oldId: string, id: string, content: Content, at: Time,
      now: Time, validAt: Time, txAt: Time)
    requires GoodTable(t) && id !in t && LaterThan(at, validAt, txAt) && LaterThan(now, validAt, txAt)
    ensures ChangesAfter(t, ReplaceSeed(t, oldId, id, content, at, now).0, validAt, txAt)
  {
    hide Checked;
    forall x <- t
      ensures var t' := ReplaceSeed(t, oldId, id, content, at, now).0;
              RowEvolves(t[x], t'[x]) && (t'[x] == t[x] || ClosesAfter(t[x], t'[x], validAt, txAt))
    {
      assert t[x].supersededAt.None? ==> t[x].validUntil.None?;
    }
  }

  lemma {:induction false} CloseAllChangesAfter(t: Table, ids: set<string>, now: Time, validAt: Time, txAt: Time)
    requires GoodTable(t) && (forall id <- ids :: Live(t, id)) && LaterThan(now, validAt, txAt)
    ensures ChangesAfter(t, CloseAll(t, ids, "pruned", now).0, validAt, txAt)
  {
  }

  lemma NothingChangesAfter(t: Table, validAt: Time, txAt: Time)
    ensures ChangesAfter(t, t, validAt, txAt)
  {
  }

  /** Applying a loaded job changes a snapshot exactly when the duplicate was in it and the pass's clock,
      read when it started, is not later than both instants. */
  lemma {:induction false} ApplyShowsIff(s: System, w: nat, validAt: Time, txAt: Time)
    requires Good(s) && Enabled(s, Apply(w))
    requires ApplySupersession(s.table, s.PassOf(w).loaded.value, "duplicate").1 == Done
    ensures Snapshot(Step(s, Apply(w)).table, validAt, txAt) == Snapshot(s.table, validAt, txAt)
            <==> !(InSnapshot(s.table[s.PassOf(w).todo[0].dup], validAt, txAt)
                   && !LaterThan(s.PassOf(w).now, validAt, txAt))
  {
    var p, t := s.PassOf(w), s.table;
    assert GoodPass(t, p);
    var c := p.loaded.value;
    var r := t[c.id].(supersededAt := Some(c.recorded.until), validUntil := NullIfZero(c.valid.until),
                      supersededBy := Some(c.supersededBy), reason := Some("duplicate"));
    assert Step(s, Apply(w)).table == t[c.id := r];
    CloseShowsIff(t, c.id, r, p.now, validAt, txAt);
  }

  lemma {:induction false} AppliedThreatens(s: System, w: nat, validAt: Time, txAt: Time)
    requires Good(s) && Enabled(s, Apply(w)) && !LaterThan(s.PassOf(w).now, validAt, txAt)
    requires ApplySupersession(s.table, s.PassOf(w).loaded.value, "duplicate").1 == Done
    requires InSnapshot(s.table[s.PassOf(w).todo[0].dup], validAt, txAt)
    ensures Threatens(s.table, s.PassOf(w), 0, validAt, txAt)
  {
    assert GoodPass(s.table, s.PassOf(w));
  }

  lemma {:induction false} StepChangesAfter(s: System, e: Event, validAt: Time, txAt: Time)
    requires GoodTable(s.table) && Enabled(s, e) && !e.Apply? && StampedAfter(e, validAt, txAt)
    ensures ChangesAfter(s.table, Step(s, e).table, validAt, txAt)
  {
    hide GoodTable, PlanOf, ChangesAfter;
    NothingChangesAfter(s.table, validAt, txAt);
    match e
    case Write(id, content, at) => InsertChangesAfter(s.table, id, content, at, validAt, txAt);
    case SeedInsert(id, content, at) => InsertChangesAfter(s.table, id, content, at, validAt, txAt);
    case SeedReplace(oldId, id, content, at, now) =>
      ReplaceChangesAfter(s.table, oldId, id, content, at, now, validAt, txAt);
    case Expire(id, reason, now) =>
      if Live(s.table, id) {
        UpdateChangesAfter(s.table, id, ClosedRow(s.table[id], now, None, Some(reason)), validAt, txAt);
      }
    case Prune(ids, now) => CloseAllChangesAfter(s.table, ids, now, validAt, txAt);
    case Scan(w, todo) =>
    case Start(w, now) =>
    case Load(w) =>
    case Abort(w) =>
  }

  /** A table step creates no threat: it closes rows and adds rows that no pass knows of. */
  lemma {:induction false} ThreatIsOld(t: Table, t': Table, p: Pass, i: int, validAt: Time, txAt: Time)
    requires GoodTable(t) && Evolves(t, t') && GoodPass(t, p) && Threatens(t', p, i, validAt, txAt)
    ensures Threatens(t, p, i, validAt, txAt)
  {
    assert GoodJob(t, p.todo[i]) && GoodJob(t, p.todo[0]);
    assert RowEvolves(t[p.todo[i].dup], t'[p.todo[i].dup]) && RowEvolves(t[p.todo[0].dup], t'[p.todo[0].dup]);
  }

  /** A threat after a step was a threat before it, at the same job or, once its pass has moved on, one later. */
  lemma {:induction false} ThreatWasThere(s: System, e: Event, w: nat, i: int, validAt: Time, txAt: Time)
    returns (j: int)
    requires Good(s) && Enabled(s, e) && StampedAfter(e, validAt, txAt)
    requires Threatens(Step(s, e).table, Step(s, e).PassOf(w), i, validAt, txAt)
    ensures Threatens(s.table, s.PassOf(w), j, validAt, txAt)
  {
    hide PlanOf, GoodTable, GoodEdges, Evolves, Good, Threatens;
    StepKeepsGood(s, e);
    GoodTables(s);
    PassIsGood(s, w);
    var s', p := Step(s, e), s.PassOf(w);
    if s'.PassOf(w) == p {
      j := i;
      ThreatIsOld(s.table, s'.table, p, i, validAt, txAt);
    } else {
      j := PassMoved(s, e, w, i, validAt, txAt);
    }
  }

  lemma PassIsGood(s: System, w: nat)
    requires Good(s)
    ensures GoodPass(s.table, s.PassOf(w))
  {
  }

  lemma {:induction false} PassMoved(s: System, e: Event, w: nat, i: int, validAt: Time, txAt: Time) returns (j: int)
    requires Good(s) && Enabled(s, e) && StampedAfter(e, validAt, txAt) && Step(s, e).PassOf(w) != s.PassOf(w)
    requires Threatens(Step(s, e).table, Step(s, e).PassOf(w), i, validAt, txAt)
    ensures Threatens(s.table, s.PassOf(w), j, validAt, txAt)
  {
    var t, p, p' := s.table, s.PassOf(w), Step(s, e).PassOf(w);
    assert GoodPass(t, p);
    hide PlanOf, GoodEdges, Good, GoodTable, Supersede, LoadClaimForSupersession, ApplySupersession, InSnapshot;
    assert !e.Scan? && !e.Start?;
    if e.Load? {
      j := if p'.todo == p.todo then i else i + 1;
    } else {
      j := i + 1;
      var (t', outcome) := ApplySupersession(t, p.loaded.value, "duplicate");
      AppliedWas(t, p.loaded.value, p.now);
      assert p'.todo == p.todo[1..] && p'.todo[i] == p.todo[j];
    }
  }

  lemma {:induction false} AppliedWas(t: Table, c: Claim<Content>, now: Time)
    requires ApplySupersession(t, c, "duplicate").1 == Done && now > 0 && c.recorded.until == now
        && c.valid.until == now
    ensures Live(t, c.id) && StartedBefore(t[c.id], now)
    ensures var t' := ApplySupersession(t, c, "duplicate").0;
            forall id | Live(t', id) :: Live(t, id) && t'[id] == t[id]
  {
  }

  // ---------- When the past changes ----------

  /** The clock an event reads, if any. */
  function ClockOf(e: Event): Option<Time> {
    match e
    case Write(_, _, at) => Some(at)
    case SeedInsert(_, _, at) => Some(at)
    case SeedReplace(_, _, _, _, now) => Some(now)
    case Expire(_, _, now) => Some(now)
    case Prune(_, now) => Some(now)
    case Start(_, now) => Some(now)
    case _ => None
  }

  /** Clocks never go back. */
  ghost predicate Rising(es: seq<Event>) {
    forall i, j | 0 <= i < j < |es| && ClockOf(es[i]).Some? && ClockOf(es[j]).Some? ::
      ClockOf(es[i]).value <= ClockOf(es[j]).value
  }

  /** A loaded job whose row is live and started before the pass's clock is applied. */
  lemma {:induction false} ApplySucceeds(s: System, w: nat)
    requires Good(s) && Enabled(s, Apply(w)) && Foldable(s.table, s.PassOf(w), 0)
    ensures ApplySupersession(s.table, s.PassOf(w).loaded.value, "duplicate").1 == Done
  {
    assert GoodPass(s.table, s.PassOf(w)) && GoodJob(s.table, s.PassOf(w).todo[0]);
    LessTotal(s.PassOf(w).todo[0].dup, s.PassOf(w).todo[0].dup);
  }

  /** Such a row also passes the supersession algebra, and so is loaded. */
  lemma {:induction false} LoadSucceeds(s: System, w: nat)
    requires Good(s) && Enabled(s, Load(w)) && Foldable(s.table, s.PassOf(w), 0) && "" !in s.table
    ensures var p := Step(s, Load(w)).PassOf(w);
            p.Running? && p.todo == s.PassOf(w).todo && p.now == s.PassOf(w).now && p.loaded.Some?
    ensures Enabled(Step(s, Load(w)), Apply(w))
  {
    assert GoodPass(s.table, s.PassOf(w)) && GoodJob(s.table, s.PassOf(w).todo[0]);
    LessTotal(s.PassOf(w).todo[0].dup, s.PassOf(w).todo[0].dup);
  }

  lemma LoadSkips(s: System, w: nat)
    requires Enabled(s, Load(w)) && !Live(s.table, s.PassOf(w).todo[0].dup)
    ensures Step(s, Load(w)).PassOf(w) == s.PassOf(w).(todo := s.PassOf(w).todo[1..])
  {
  }

  ghost predicate Shows(s: System, es: seq<Event>, late: Time, validAt: Time, txAt: Time) {
    && Runs(s, es) && Snapshot(After(s, es).table, validAt, txAt) != Snapshot(s.table, validAt, txAt)
    && forall i | 0 <= i < |es| :: OnlyClock(es[i], late)
  }

  /** The events of a pass, and expiries at the clock `late`. */
  predicate OnlyClock(e: Event, late: Time) {
    e.Load? || e.Apply? || (e.Expire? && e.now == late)
  }

  lemma {:induction false} ShowsLater(s: System, e: Event, es: seq<Event>, late: Time, validAt: Time, txAt: Time)
    requires Enabled(s, e) && OnlyClock(e, late) && Shows(Step(s, e), es, late, validAt, txAt)
    requires Snapshot(Step(s, e).table, validAt, txAt) == Snapshot(s.table, validAt, txAt)
    ensures Shows(s, [e] + es, late, validAt, txAt)
  {
    hide Enabled, Step, Snapshot;
    assert ([e] + es)[1..] == es;
  }

  lemma {:induction false} ShowsNow(s: System, w: nat, late: Time, validAt: Time, txAt: Time)
    requires Good(s) && Enabled(s, Apply(w)) && Threatens(s.table, s.PassOf(w), 0, validAt, txAt)
    ensures Shows(s, [Apply(w)], late, validAt, txAt)
  {
    ApplySucceeds(s, w);
    ApplyShowsIff(s, w, validAt, txAt);
    hide Good, Threatens, Enabled, Step, Snapshot, InSnapshot;
    RunsOne(s, Apply(w));
  }

  lemma {:induction false} FirstShows(s: System, w: nat, late: Time, validAt: Time, txAt: Time) returns (es: seq<Event>)
    requires Good(s) && "" !in s.table && Threatens(s.table, s.PassOf(w), 0, validAt, txAt)
    ensures Shows(s, es, late, validAt, txAt)
  {
    hide Good, Shows, InSnapshot, Snapshot;
    if s.PassOf(w).loaded.None? {
      LoadSucceeds(s, w);
      StepKeepsGood(s, Load(w));
      ShowsNow(Step(s, Load(w)), w, late, validAt, txAt);
      ShowsLater(s, Load(w), [Apply(w)], late, validAt, txAt);
      es := [Load(w)] + [Apply(w)];
    } else {
      ShowsNow(s, w, late, validAt, txAt);
      es := [Apply(w)];
    }
  }

  ghost predicate AllBefore(t: Table, late: Time) {
    forall id <- t :: StartedBefore(t[id], late)
  }

  /** A threat can be carried out: jobs before it are applied, skipped, or their rows expire first. */
  lemma {:induction false} ThreatIsCarriedOut(s: System, w: nat, i: nat, late: Time, validAt: Time, txAt: Time)
    returns (es: seq<Event>)
    requires Good(s) && "" !in s.table && AllBefore(s.table, late) && LaterThan(late, validAt, txAt)
    requires Threatens(s.table, s.PassOf(w), i, validAt, txAt)
    ensures Shows(s, es, late, validAt, txAt)
    decreases i, 1
  {
    assert s.PassOf(w).Running? && s.PassOf(w).todo != [];
    hide Good, Shows, Snapshot, Threatens, Live, AllBefore, InSnapshot, Enabled, Step;
    if Threatens(s.table, s.PassOf(w), 0, validAt, txAt) {
      es := FirstShows(s, w, late, validAt, txAt);
    } else if s.PassOf(w).loaded.None? && Live(s.table, s.PassOf(w).todo[0].dup) {
      var expire := Expire(s.PassOf(w).todo[0].dup, "stale", late);
      FirstExpires(s, w, i, late, validAt, txAt);
      StepKeepsGood(s, expire);
      es := CarriedOutNext(Step(s, expire), w, i, late, validAt, txAt);
      ShowsLater(s, expire, es, late, validAt, txAt);
      es := [expire] + es;
    } else {
      es := CarriedOutNext(s, w, i, late, validAt, txAt);
    }
  }

  lemma {:induction false} CarriedOutNext(s: System, w: nat, i: nat, late: Time, validAt: Time, txAt: Time)
    returns (es: seq<Event>)
    requires Good(s) && "" !in s.table && AllBefore(s.table, late) && LaterThan(late, validAt, txAt)
    requires Threatens(s.table, s.PassOf(w), i, validAt, txAt) && !Threatens(s.table, s.PassOf(w), 0, validAt, txAt)
    requires s.PassOf(w).loaded.Some? || !Live(s.table, s.PassOf(w).todo[0].dup)
    ensures Shows(s, es, late, validAt, txAt)
    decreases i, 0
  {
    assert s.PassOf(w).Running? && s.PassOf(w).todo != [];
    hide Good, Shows, Snapshot, Threatens, Live, AllBefore, InSnapshot, Enabled, Step;
    var e := if s.PassOf(w).loaded.Some? then Apply(w) else Load(w);
    if s.PassOf(w).loaded.Some? {
      FirstApplies(s, w, i, late, validAt, txAt);
    } else {
      FirstIsSkipped(s, w, i, late, validAt, txAt);
    }
    StepKeepsGood(s, e);
    es := ThreatIsCarriedOut(Step(s, e), w, i - 1, late, validAt, txAt);
    ShowsLater(s, e, es, late, validAt, txAt);
    es := [e] + es;
  }

  /** What a step before the threat keeps. */
  ghost predicate StillThreatens(s: System, s': System, w: nat, i: int, late: Time, validAt: Time, txAt: Time) {
    && Threatens(s'.table, s'.PassOf(w), i, validAt, txAt) && "" !in s'.table && AllBefore(s'.table, late)
    && Snapshot(s'.table, validAt, txAt) == Snapshot(s.table, validAt, txAt)
  }

  lemma {:induction false} FirstIsSkipped(s: System, w: nat, i: nat, late: Time, validAt: Time, txAt: Time)
    requires "" !in s.table && AllBefore(s.table, late)
    requires Threatens(s.table, s.PassOf(w), i, validAt, txAt)
    requires s.PassOf(w).loaded.None? && !Live(s.table, s.PassOf(w).todo[0].dup)
    ensures i > 0 && Enabled(s, Load(w)) && StillThreatens(s, Step(s, Load(w)), w, i - 1, late, validAt, txAt)
  {
    LoadSkips(s, w);
    hide AllBefore, Snapshot, InSnapshot;
    var todo := s.PassOf(w).todo;
    assert i > 0 && todo[1..][i - 1] == todo[i];
  }

  lemma {:induction false} FirstApplies(s: System, w: nat, i: nat, late: Time, validAt: Time, txAt: Time)
    requires Good(s) && "" !in s.table && AllBefore(s.table, late)
    requires Threatens(s.table, s.PassOf(w), i, validAt, txAt) && !Threatens(s.table, s.PassOf(w), 0, validAt, txAt)
    requires s.PassOf(w).loaded.Some?
    ensures i > 0 && Enabled(s, Apply(w)) && StillThreatens(s, Step(s, Apply(w)), w, i - 1, late, validAt, txAt)
  {
    var p, t := s.PassOf(w), s.table;
    assert GoodPass(t, p);
    ApplySucceeds(s, w);
    ApplyShowsIff(s, w, validAt, txAt);
    assert p.todo[1..][i - 1] == p.todo[i] && p.todo[i].dup != p.todo[0].dup;
    hide Good, GoodPass, Snapshot, InSnapshot;
  }

  lemma {:induction false} FirstExpires(s: System, w: nat, i: nat, late: Time, validAt: Time, txAt: Time)
    requires Good(s) && "" !in s.table && AllBefore(s.table, late) && LaterThan(late, validAt, txAt)
    requires Threatens(s.table, s.PassOf(w), i, validAt, txAt) && !Threatens(s.table, s.PassOf(w), 0, validAt, txAt)
    requires s.PassOf(w).loaded.None? && Live(s.table, s.PassOf(w).todo[0].dup)
    ensures var e := Expire(s.PassOf(w).todo[0].dup, "stale", late);
            && Enabled(s, e) && StillThreatens(s, Step(s, e), w, i, late, validAt, txAt)
            && Step(s, e).PassOf(w) == s.PassOf(w) && !Threatens(Step(s, e).table, s.PassOf(w), 0, validAt, txAt)
            && !Live(Step(s, e).table, s.PassOf(w).todo[0].dup)
  {
    var id := s.PassOf(w).todo[0].dup;
    var e := Expire(id, "stale", late);
    StepChangesAfter(s, e, validAt, txAt);
    LaterChangesDoNotShow(s.table, Step(s, e).table, validAt, txAt);
    assert s.PassOf(w).todo[i].dup != id;
    hide Good, Snapshot, InSnapshot;
  }

  lemma {:induction false} ALateClock(t: Table, validAt: Time, txAt: Time) returns (late: Time)
    ensures AllBefore(t, late) && LaterThan(late, validAt, txAt)
    decreases t.Keys
  {
    if t.Keys == {} {
      late := validAt + txAt + 1;
    } else {
      var id :| id in t;
      var rest := t - {id};
      late := ALateClock(rest, validAt, txAt);
      late := late + t[id].recordedAt + t[id].validFrom + 1;
      forall x <- t ensures StartedBefore(t[x], late) {
        assert x != id ==> x in rest && rest[x] == t[x] && StartedBefore(rest[x], late);
      }
    }
  }

  /** A pass that scanned at instant 3 closes its duplicate at 3 however late it gets to it. Here something is
      written at instant 6 before it does, and then the snapshot of instant 5 changes, though no clock goes back. */
  lemma LatePassChangesThePast() returns (es: seq<Event>)
    ensures Runs(INIT, es) && Enabled(After(INIT, es), Apply(0))
    ensures Rising(es + [Apply(0)]) && exists i :: 0 <= i < |es| && ClockOf(es[i]) == Some(6)
    ensures Snapshot(Step(After(INIT, es), Apply(0)).table, 5, 5) != Snapshot(After(INIT, es).table, 5, 5)
  {
    hide Runs, After, Good, Snapshot, Threatens, Shows;
    var s;
    es, s := ScannedAndLoaded();
    var write := Write("c", SAMPLE, 6);
    RunsExtend(INIT, es, write);
    SampleClocks(es);
    es := es + [write];
    assert ClockOf(es[5]) == Some(6);
    InitIsGood();
    RunsKeepGood(INIT, es);
    hide Rising, PlanOf;
    ApplyShowsIff(Step(s, write), 0, 5, 5);
  }

  lemma SampleClocks(es: seq<Event>)
    requires es == [Write("a", SAMPLE, 1), Write("b", SAMPLE, 2), Scan(0, [Job("b", "a")]), Start(0, 3), Load(0)]
    ensures Rising(es + [Write("c", SAMPLE, 6)] + [Apply(0)])
  {
  }
}
