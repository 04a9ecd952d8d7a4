/** When a statement keeps a live claim while passes fold its duplicates. */
module Statements {
  import opened Strings
  import opened Temporal
  import opened ClaimTable
  import opened Lifecycle

  predicate Says(t: Table, id: string, h: string) {
    Live(t, id) && t[id].content.statementHash == Some(h)
  }

  /** Some live row has the hash. */
  ghost predicate Said(t: Table, h: string) {
    exists id :: Says(t, id, h)
  }

  ghost predicate HasOtherTwin(t: Table, id: string) {
    exists x :: x != id && Twins(t, x, id)
  }

  /** An apply that closes a duplicate keeps its statement exactly when another live claim still says it. */
  lemma {:induction false} ApplyKeepsStatementIff(s: System, w: nat)
    requires Good(s) && Enabled(s, Apply(w))
    requires ApplySupersession(s.table, s.PassOf(w).loaded.value, "duplicate").1 == Done
    ensures var dup := s.PassOf(w).todo[0].dup;
            && Hashed(s.table, dup)
            && (Said(Step(s, Apply(w)).table, s.table[dup].content.statementHash.value) <==> HasOtherTwin(s.table, dup))
  {
    var p, t, t' := s.PassOf(w), s.table, Step(s, Apply(w)).table;
    assert GoodPass(t, p) && GoodJob(t, p.todo[0]);
    var dup := p.todo[0].dup;
    var h := t[dup].content.statementHash.value;
    hide Good, GoodPass, GoodJob, Enabled;
    if Said(t', h) {
      var x :| Says(t', x, h);
      assert x != dup && Twins(t, x, dup);
    }
    if HasOtherTwin(t, dup) {
      var x :| x != dup && Twins(t, x, dup);
      assert Says(t', x, h) && t'[x] == t[x];
    }
  }

  /** Each live row with hash `h` that a pass has yet to fold is still a duplicate. */
  ghost predicate PendingAreDuplicates(s: System, h: string) {
    forall w: nat, i | 0 <= i < |Todo(s.PassOf(w))| && Says(s.table, Todo(s.PassOf(w))[i].dup, h) ::
      Duplicate(s.table, Todo(s.PassOf(w))[i].dup)
  }

  /** `id` says `h`, and so does some row that a pass has yet to fold. */
  ghost predicate Pending(s: System, id: string, h: string) {
    && Says(s.table, id, h)
    && exists w: nat, i :: 0 <= i < |Todo(s.PassOf(w))| && Says(s.table, Todo(s.PassOf(w))[i].dup, h)
  }

  ghost predicate Closes(s: System, e: Event, id: string)
    requires Enabled(s, e)
  {
    Live(s.table, id) && !Live(Step(s, e).table, id)
  }

  /** Only a pass may close a row with the hash while a pass in flight has one yet to fold. */
  ghost predicate Spares(s: System, e: Event, h: string)
    requires Enabled(s, e)
  {
    !e.Apply? ==> forall id | Closes(s, e, id) :: !Pending(s, id, h)
  }

  /** Only a pass may close a row with the hash. */
  ghost predicate Keeps(s: System, e: Event, h: string)
    requires Enabled(s, e)
  {
    !e.Apply? ==> forall id | Closes(s, e, id) :: !Says(s.table, id, h)
  }

  lemma {:induction false} TableStepKeepsPending(s: System, t': Table, h: string)
    requires Good(s) && PendingAreDuplicates(s, h) && Evolves(s.table, t')
    requires forall id | Live(s.table, id) && !Live(t', id) :: !Pending(s, id, h)
    ensures PendingAreDuplicates(s.(table := t'), h)
  {
    hide GoodTable, GoodEdges;
    var s', t := s.(table := t'), s.table;
    forall w: nat, i | 0 <= i < |Todo(s'.PassOf(w))| && Says(t', Todo(s'.PassOf(w))[i].dup, h)
      ensures Duplicate(t', Todo(s'.PassOf(w))[i].dup)
    {
      var dup := Todo(s.PassOf(w))[i].dup;
      assert s'.PassOf(w) == s.PassOf(w);
      TodoIsGood(s, w, i);
      assert RowEvolves(t[dup], t'[dup]);
      var x :| Twins(t, x, dup) && Earlier(t, x, dup);
      assert Pending(s, x, h) && RowEvolves(t[x], t'[x]);
      assert Twins(t', x, dup) && Earlier(t', x, dup);
    }
  }

  lemma {:induction false} TodoIsGood(s: System, w: nat, i: nat)
    requires Good(s) && i < |Todo(s.PassOf(w))|
    ensures GoodJob(s.table, Todo(s.PassOf(w))[i])
  {
    hide GoodTable, GoodEdges, GoodJob;
    assert GoodPass(s.table, s.PassOf(w));
  }

  lemma {:induction false} PassStepKeepsPending(s: System, w: nat, p: Pass, h: string)
    requires PendingAreDuplicates(s, h)
    requires forall i | 0 <= i < |Todo(p)| && Says(s.table, Todo(p)[i].dup, h) :: Duplicate(s.table, Todo(p)[i].dup)
    ensures PendingAreDuplicates(s.(passes := s.passes[w := p]), h)
  {
    hide Duplicate, Says;
    var s' := s.(passes := s.passes[w := p]);
    assert forall v: nat :: s'.PassOf(v) == if v == w then p else s.PassOf(v);
  }

  /** Folding a duplicate leaves every other one a duplicate: what it was earlier than, its own twin is too. */
  lemma {:induction false} FoldKeepsPending(s: System, w: nat, t': Table, h: string)
    requires Good(s) && PendingAreDuplicates(s, h) && Todo(s.PassOf(w)) != [] && Evolves(s.table, t')
    requires forall id | Live(s.table, id) && !Live(t', id) :: id == Todo(s.PassOf(w))[0].dup
    ensures PendingAreDuplicates(s.(table := t'), h)
  {
    hide GoodTable, GoodEdges;
    var s', t, folded := s.(table := t'), s.table, Todo(s.PassOf(w))[0].dup;
    forall v: nat, i | 0 <= i < |Todo(s'.PassOf(v))| && Says(t', Todo(s'.PassOf(v))[i].dup, h)
      ensures Duplicate(t', Todo(s'.PassOf(v))[i].dup)
    {
      var dup := Todo(s.PassOf(v))[i].dup;
      assert s'.PassOf(v) == s.PassOf(v);
      TodoIsGood(s, v, i);
      assert RowEvolves(t[dup], t'[dup]);
      var y := EarlierTwin(s, w, dup, folded, h);
      assert RowEvolves(t[y], t'[y]);
      assert Twins(t', y, dup) && Earlier(t', y, dup);
    }
  }

  lemma {:induction false} EarlierTwin(s: System, w: nat, dup: string, folded: string, h: string) returns (y: string)
    requires PendingAreDuplicates(s, h) && Todo(s.PassOf(w)) != [] && folded == Todo(s.PassOf(w))[0].dup
    requires Says(s.table, dup, h) && Duplicate(s.table, dup)
    ensures y != folded && Twins(s.table, y, dup) && Earlier(s.table, y, dup)
  {
    y :| Twins(s.table, y, dup) && Earlier(s.table, y, dup);
    if y == folded {
      assert Says(s.table, folded, h);
      var z :| Twins(s.table, z, folded) && Earlier(s.table, z, folded);
      LessTotal(folded, folded);
      EarlierTransitive(s.table, z, folded, dup);
      y := z;
    }
  }

  /** Whatever is interleaved, a row waiting to be folded has an earlier live twin, as long as nobody else
      closes rows of its statement meanwhile. */
  lemma {:induction false} StepKeepsPending(s: System, e: Event, h: string)
    requires Good(s) && PendingAreDuplicates(s, h) && Enabled(s, e) && Spares(s, e, h)
    ensures PendingAreDuplicates(Step(s, e), h)
  {
    hide Good, PendingAreDuplicates, Pending, Duplicate, InsertClaim, ReplaceSeed, ExpireClaim, CloseAll,
      ApplySupersession;
    StepKeepsGood(s, e);
    var t' := Step(s, e).table;
    match e
    case Scan(w, todo) => ScanKeepsPending(s, w, todo, h);
    case Start(w, now) => StartKeepsPending(s, w, now, h);
    case Load(w) => LoadKeepsPending(s, w, h);
    case Apply(w) => ApplyKeepsPending(s, w, h);
    case Abort(w) => PassStepKeepsPending(s, w, Idle, h);
    case _ =>
      assert forall id :: Live(s.table, id) && !Live(t', id) ==> Closes(s, e, id);
      TableStepKeepsPending(s, t', h);
  }

  lemma {:induction false} ScanKeepsPending(s: System, w: nat, todo: seq<Job>, h: string)
    requires PendingAreDuplicates(s, h) && PlanOf(s.table, todo)
    ensures PendingAreDuplicates(s.(passes := s.passes[w := Planned(todo)]), h)
  {
    hide Duplicate, Says, IsSurvivor, PendingAreDuplicates;
    PassStepKeepsPending(s, w, Planned(todo), h);
  }

  lemma {:induction false} PendingOf(s: System, w: nat, i: nat, h: string)
    requires PendingAreDuplicates(s, h) && i < |Todo(s.PassOf(w))| && Says(s.table, Todo(s.PassOf(w))[i].dup, h)
    ensures Duplicate(s.table, Todo(s.PassOf(w))[i].dup)
  {
  }

  lemma {:induction false} StartKeepsPending(s: System, w: nat, now: Time, h: string)
    requires PendingAreDuplicates(s, h) && Enabled(s, Start(w, now))
    ensures PendingAreDuplicates(Step(s, Start(w, now)), h)
  {
    hide PendingAreDuplicates, Duplicate, Says;
    var p := Running(s.PassOf(w).plan, now, None);
    forall i | 0 <= i < |Todo(p)| && Says(s.table, Todo(p)[i].dup, h) ensures Duplicate(s.table, Todo(p)[i].dup) {
      PendingOf(s, w, i, h);
    }
    PassStepKeepsPending(s, w, p, h);
  }

  lemma {:induction false} LoadKeepsPending(s: System, w: nat, h: string)
    requires PendingAreDuplicates(s, h) && Enabled(s, Load(w))
    ensures PendingAreDuplicates(Step(s, Load(w)), h)
  {
    hide PendingAreDuplicates, Duplicate, Says, Supersede, LoadClaimForSupersession;
    var p := AfterLoad(s.table, s.PassOf(w));
    forall i | 0 <= i < |Todo(p)| && Says(s.table, Todo(p)[i].dup, h) ensures Duplicate(s.table, Todo(p)[i].dup) {
      PendingOf(s, w, if Todo(p) == Todo(s.PassOf(w)) then i else i + 1, h);
    }
    PassStepKeepsPending(s, w, p, h);
  }

  lemma {:induction false} ApplyKeepsPending(s: System, w: nat, h: string)
    requires Good(s) && PendingAreDuplicates(s, h) && Enabled(s, Apply(w))
    ensures PendingAreDuplicates(Step(s, Apply(w)), h)
  {
    var p := s.PassOf(w);
    assert GoodPass(s.table, p);
    ApplyKeepsGood(s, w);
    var (t', outcome) := ApplySupersession(s.table, p.loaded.value, "duplicate");
    ApplyClosesOne(s.table, p.loaded.value);
    hide Good, PendingAreDuplicates, Duplicate, ApplySupersession, GoodPass, Says, Live;
    if outcome == Done {
      FoldKeepsPending(s, w, t', h);
      MoveOnKeepsPending(s.(table := t'), w, h);
    } else {
      PassStepKeepsPending(s, w, Idle, h);
    }
  }

  lemma {:induction false} MoveOnKeepsPending(s: System, w: nat, h: string)
    requires PendingAreDuplicates(s, h) && s.PassOf(w).Running? && s.PassOf(w).todo != []
    ensures var p := s.PassOf(w).(todo := s.PassOf(w).todo[1..], loaded := None);
            PendingAreDuplicates(s.(passes := s.passes[w := p]), h)
  {
    hide PendingAreDuplicates, Duplicate, Says;
    var p := s.PassOf(w).(todo := s.PassOf(w).todo[1..], loaded := None);
    forall i | 0 <= i < |Todo(p)| && Says(s.table, Todo(p)[i].dup, h) ensures Duplicate(s.table, Todo(p)[i].dup) {
      PendingOf(s, w, i + 1, h);
    }
    PassStepKeepsPending(s, w, p, h);
  }

  /** A pass that folds a row leaves its statement said. */
  lemma {:induction false} StepKeepsStatement(s: System, e: Event, h: string)
    requires Good(s) && PendingAreDuplicates(s, h) && Enabled(s, e) && Said(s.table, h)
    requires e.Apply? || Keeps(s, e, h)
    ensures Said(Step(s, e).table, h)
  {
    hide Good, PendingAreDuplicates, Step, Enabled;
    StepKeepsGood(s, e);
    var id :| Says(s.table, id, h);
    assert RowEvolves(s.table[id], Step(s, e).table[id]);
    if e.Apply? && !Live(Step(s, e).table, id) {
      AppliedIsDuplicate(s, e.worker, id, h);
      ApplyKeepsStatementIff(s, e.worker);
    } else {
      assert !Closes(s, e, id);
      assert Says(Step(s, e).table, id, h);
    }
  }

  lemma {:induction false} AppliedIsDuplicate(s: System, w: nat, id: string, h: string)
    requires Good(s) && PendingAreDuplicates(s, h) && Enabled(s, Apply(w)) && Says(s.table, id, h)
    requires !Live(Step(s, Apply(w)).table, id)
    ensures ApplySupersession(s.table, s.PassOf(w).loaded.value, "duplicate").1 == Done
    ensures id == s.PassOf(w).todo[0].dup && HasOtherTwin(s.table, id)
  {
    assert GoodPass(s.table, s.PassOf(w));
    ApplyClosesOne(s.table, s.PassOf(w).loaded.value);
    hide Good, GoodPass, ApplySupersession;
    PendingOf(s, w, 0, h);
    var x :| Twins(s.table, x, id) && Earlier(s.table, x, id);
    LessTotal(id, id);
  }

  ghost predicate RunsSparing(s: System, es: seq<Event>, h: string)
    decreases |es|
  {
    es == [] || (Enabled(s, es[0]) && Spares(s, es[0], h) && RunsSparing(Step(s, es[0]), es[1..], h))
  }

  ghost predicate RunsKeeping(s: System, es: seq<Event>, h: string)
    decreases |es|
  {
    es == [] || (Enabled(s, es[0]) && Keeps(s, es[0], h) && RunsKeeping(Step(s, es[0]), es[1..], h))
  }

  lemma {:induction false} SparingRunsKeepPending(s: System, es: seq<Event>, h: string)
    requires Good(s) && PendingAreDuplicates(s, h) && RunsSparing(s, es, h)
    ensures Runs(s, es) && Good(After(s, es)) && PendingAreDuplicates(After(s, es), h)
    decreases |es|
  {
    hide Good, PendingAreDuplicates, Enabled, Step, Spares;
    if es != [] {
      StepKeepsGood(s, es[0]);
      StepKeepsPending(s, es[0], h);
      SparingRunsKeepPending(Step(s, es[0]), es[1..], h);
    }
  }

  lemma InitHasNothingPending(h: string)
    ensures PendingAreDuplicates(INIT, h)
  {
    assert forall w: nat :: Todo(INIT.PassOf(w)) == [];
  }

  /** However many passes run at once, none of them takes the last live claim of a statement, as long as nobody
      else closed a row of that statement while a pass had one yet to fold. */
  lemma {:induction false} PassesKeepStatements(es: seq<Event>, w: nat, h: string)
    requires RunsSparing(INIT, es, h)
    ensures Runs(INIT, es)
    ensures Enabled(After(INIT, es), Apply(w)) && Said(After(INIT, es).table, h)
        ==> Said(Step(After(INIT, es), Apply(w)).table, h)
  {
    hide Good, PendingAreDuplicates, Enabled, Step, RunsSparing, Runs, After, Said;
    InitIsGood();
    InitHasNothingPending(h);
    SparingRunsKeepPending(INIT, es, h);
    if Enabled(After(INIT, es), Apply(w)) && Said(After(INIT, es).table, h) {
      StepKeepsStatement(After(INIT, es), Apply(w), h);
    }
  }

  /** A statement that is said stays said while only passes close its rows: writes, seeding, closing claims of
      other statements and any number of concurrent passes never lose it. `es` leads to where it is said and
      may close its rows too, though not while a pass has one yet to fold; `more` goes on. */
  lemma {:induction false} StatementsStaySaid(es: seq<Event>, more: seq<Event>, h: string)
    requires RunsSparing(INIT, es, h)
    ensures Runs(INIT, es)
    ensures RunsKeeping(After(INIT, es), more, h) && Said(After(INIT, es).table, h) ==>
              Runs(After(INIT, es), more) && Said(After(After(INIT, es), more).table, h)
  {
    hide Good, PendingAreDuplicates, RunsKeeping, RunsSparing, Runs, After, Said;
    InitIsGood();
    InitHasNothingPending(h);
    SparingRunsKeepPending(INIT, es, h);
    if RunsKeeping(After(INIT, es), more, h) && Said(After(INIT, es).table, h) {
      StatementsStay(After(INIT, es), more, h);
    }
  }

  lemma {:induction false} StatementsStay(s: System, es: seq<Event>, h: string)
    requires Good(s) && PendingAreDuplicates(s, h) && RunsKeeping(s, es, h) && Said(s.table, h)
    ensures Runs(s, es) && Said(After(s, es).table, h)
    decreases |es|
  {
    hide Good, PendingAreDuplicates, Enabled, Step, Said, Closes, Says;
    if es != [] {
      StepKeepsGood(s, es[0]);
      StepKeepsPending(s, es[0], h);
      StepKeepsStatement(s, es[0], h);
      StatementsStay(Step(s, es[0]), es[1..], h);
    }
  }

  /** A survivor may be forgotten between the scan and the apply: then the pass folds the last live claim of
      a statement into a closed one, and nothing of it stays live. */
  lemma InterferenceLosesTheStatement() returns (es: seq<Event>)
    ensures Runs(INIT, es) && forall id :: !Live(After(INIT, es).table, id)
  {
    hide Runs, After;
    var s;
    es, s := ScannedAndLoaded();
    var forget := Expire("a", "forgotten", 4);
    RunsExtend(INIT, es, forget);
    es := es + [forget];
    var s1 := Step(s, forget);
    var closed := ClosedRow(EARLIER_ROW, 4, None, Some("forgotten"));
    assert s1.table == map["a" := closed, "b" := LATER_ROW];
    RunsExtend(INIT, es, Apply(0));
    es := es + [Apply(0)];
    var r := LATER_ROW.(supersededAt := Some(3), validUntil := Some(3), supersededBy := Some("a"),
        reason := Some("duplicate"));
    assert Step(s1, Apply(0)).table == map["a" := closed, "b" := r];
  }
}
