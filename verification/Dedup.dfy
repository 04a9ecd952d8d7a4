/** The dedup reconciler: which member of a group survives, and what an undisturbed pass achieves. */
module Dedup {
  import opened Strings
  import opened Temporal
  import opened ClaimTable
  import opened Lifecycle
  import opened ClaimStore

  predicate EarlierMember(a: DupMember, b: DupMember) {
    if a.recordedAt != b.recordedAt then a.recordedAt < b.recordedAt else Less(a.id, b.id)
  }

  /** The survivor of a group. */
  function Best(group: seq<DupMember>): (b: DupMember)
    requires group != []
    ensures b in group
  {
    if |group| == 1 then group[0]
    else
      var n := |group| - 1;
      var b := Best(group[..n]);
      if EarlierMember(group[n], b) then group[n] else b
  }

  /** The identifiers of the members other than `id`, in order. */
  function Others(group: seq<DupMember>, id: string): seq<string> {
    if group == [] then []
    else
      var n := |group| - 1;
      Others(group[..n], id) + if group[n].id != id then [group[n].id] else []
  }

  method Canonical(group: seq<DupMember>) returns (survivor: string, duplicates: seq<string>)
    ensures group == [] ==> survivor == "" && duplicates == []
    ensures group != [] ==> survivor == Best(group).id && duplicates == Others(group, Best(group).id)
    ensures group != [] ==> exists b <- group :: b.id == survivor && forall m <- group ::
                b.recordedAt < m.recordedAt || (b.recordedAt == m.recordedAt && !Less(m.id, b.id))
  {
    if group != [] {
      forall m <- group ensures Best(group).recordedAt < m.recordedAt
                                || (Best(group).recordedAt == m.recordedAt && !Less(m.id, Best(group).id)) {
        var k :| 0 <= k < |group| && group[k] == m;
        BestIsEarliest(group, k);
      }
    }
    if |group| == 0 {
      return "", [];
    }
    var best := group[0];
    for i := 1 to |group|
      invariant best == Best(group[..i])
    {
      assert group[..i + 1][..i] == group[..i];
      if EarlierMember(group[i], best) {
        best := group[i];
      }
    }
    assert group[..|group|] == group;
    duplicates := [];
    for i := 0 to |group|
      invariant duplicates == Others(group[..i], best.id)
    {
      assert group[..i + 1][..i] == group[..i];
      if group[i].id != best.id {
        duplicates := duplicates + [group[i].id];
      }
    }
    survivor := best.id;
  }

  lemma EarlierMemberTransitive(a: DupMember, b: DupMember, c: DupMember)
    requires !EarlierMember(b, a) && !EarlierMember(c, b)
    ensures !EarlierMember(c, a)
  {
    LessTotal(a.id, b.id);
    LessTotal(b.id, c.id);
    LessTotal(a.id, c.id);
    if Less(a.id, b.id) && Less(b.id, c.id) {
      LessTrans(a.id, b.id, c.id);
    }
  }

  /** Every member was recorded after the survivor, or together with it and has no lesser identifier. */
  lemma {:induction false} BestIsEarliest(group: seq<DupMember>, k: nat)
    requires k < |group|
    ensures !EarlierMember(group[k], Best(group))
    ensures var b := Best(group);
            b.recordedAt < group[k].recordedAt
            || (b.recordedAt == group[k].recordedAt && !Less(group[k].id, b.id))
  {
    var n := |group| - 1;
    if n == 0 {
      LessTotal(group[0].id, group[0].id);
    } else {
      var b := Best(group[..n]);
      LessTotal(group[n].id, group[n].id);
      LessTotal(group[n].id, b.id);
      LessTotal(b.id, b.id);
      if k < n {
        BestIsEarliest(group[..n], k);
        EarlierMemberTransitive(Best(group), b, group[k]);
      }
    }
  }

  lemma {:induction false} OthersAreMembers(group: seq<DupMember>, id: string, x: string)
    ensures x in Others(group, id) <==> x != id && exists k :: 0 <= k < |group| && group[k].id == x
  {
    if group != [] {
      var n := |group| - 1;
      OthersAreMembers(group[..n], id, x);
      if k :| 0 <= k < |group| && group[k].id == x {
        assert k < n ==> group[..n][k].id == x;
      }
      if k :| 0 <= k < n && group[..n][k].id == x {
        assert group[k].id == x;
      }
      assert group[n].id == group[n].id;
    }
  }

  ghost predicate Distinct(xs: seq<string>) {
    forall i, j | 0 <= i < j < |xs| :: xs[i] != xs[j]
  }

  lemma {:induction false} OthersAreDistinct(group: seq<DupMember>, id: string)
    requires DistinctIds(group)
    ensures Distinct(Others(group, id))
  {
    if group != [] {
      var n := |group| - 1;
      OthersAreDistinct(group[..n], id);
      OthersAreMembers(group[..n], id, group[n].id);
    }
  }

  // ---------- The plan of a pass ----------

  function JobsFor(dups: seq<string>, survivor: string): seq<Job> {
    seq(|dups|, i requires 0 <= i < |dups| => Job(dups[i], survivor))
  }

  function GroupJobs(group: seq<DupMember>): seq<Job> {
    if group == [] then [] else JobsFor(Others(group, Best(group).id), Best(group).id)
  }

  function AllJobs(groups: seq<seq<DupMember>>): seq<Job> {
    if groups == [] then [] else AllJobs(groups[..|groups| - 1]) + GroupJobs(groups[|groups| - 1])
  }

  lemma NoJobs()
    ensures AllJobs([]) == []
  {
  }

  lemma {:induction false} LastJobs(groups: seq<seq<DupMember>>, j: nat)
    requires groups != [] && j < |AllJobs(groups)|
    ensures var before, group := AllJobs(groups[..|groups| - 1]), groups[|groups| - 1];
            if j < |before| then AllJobs(groups)[j] == before[j]
            else group != [] && j - |before| < |Others(group, Best(group).id)|
                 && AllJobs(groups)[j] == Job(Others(group, Best(group).id)[j - |before|], Best(group).id)
  {
  }

  lemma {:induction false} JobInGroup(groups: seq<seq<DupMember>>, j: nat) returns (g: nat, k: nat)
    requires j < |AllJobs(groups)|
    ensures MemberAt(groups, g, k, AllJobs(groups)[j].dup)
    ensures AllJobs(groups)[j].survivor == Best(groups[g]).id && AllJobs(groups)[j].dup != Best(groups[g]).id
  {
    hide Best, Others;
    var n := |groups| - 1;
    LastJobs(groups, j);
    if j < |AllJobs(groups[..n])| {
      g, k := JobInGroup(groups[..n], j);
    } else {
      var id := AllJobs(groups)[j].dup;
      g := n;
      OthersAreMembers(groups[n], Best(groups[n]).id, id);
      k :| 0 <= k < |groups[n]| && groups[n][k].id == id;
    }
  }

  lemma {:induction false} MemberHasJob(groups: seq<seq<DupMember>>, g: nat, k: nat) returns (j: nat)
    requires g < |groups| && k < |groups[g]| && groups[g][k].id != Best(groups[g]).id
    ensures j < |AllJobs(groups)| && AllJobs(groups)[j].dup == groups[g][k].id
  {
    hide Best, Others;
    var n := |groups| - 1;
    if g < n {
      assert groups[..n][g] == groups[g];
      j := MemberHasJob(groups[..n], g, k);
      hide AllJobs;
      LastJobs(groups, j);
    } else {
      var survivor := Best(groups[g]).id;
      OthersAreMembers(groups[g], survivor, groups[g][k].id);
      var i :| 0 <= i < |Others(groups[g], survivor)| && Others(groups[g], survivor)[i] == groups[g][k].id;
      j := LastMemberHasJob(groups, i);
    }
  }

  lemma {:induction false} LastMemberHasJob(groups: seq<seq<DupMember>>, i: nat) returns (j: nat)
    requires var n := |groups| - 1; groups != [] && groups[n] != [] && i < |Others(groups[n], Best(groups[n]).id)|
    ensures var n := |groups| - 1;
            j < |AllJobs(groups)| && AllJobs(groups)[j].dup == Others(groups[n], Best(groups[n]).id)[i]
  {
    hide Best, Others;
    j := |AllJobs(groups[..|groups| - 1])| + i;
    LastJobs(groups, j);
  }

  lemma {:induction false} SurvivorOfGroup(t: Table, groups: seq<seq<DupMember>>, g: nat, k: nat)
    requires GroupsOf(t, groups) && g < |groups| && k < |groups[g]|
    ensures IsSurvivor(t, Best(groups[g]).id, groups[g][k].id)
    ensures groups[g][k].id != Best(groups[g]).id <==> Duplicate(t, groups[g][k].id)
  {
    var group, b := groups[g], Best(groups[g]);
    var id := group[k].id;
    var m :| 0 <= m < |group| && group[m] == b;
    assert HasTwin(t, id) && HasTwin(t, b.id);
    assert m < k ==> Twins(t, group[m].id, group[k].id);
    assert k < m ==> Twins(t, group[k].id, group[m].id);
    assert Twins(t, b.id, id);
    forall x | Twins(t, x, id) ensures x == b.id || Earlier(t, b.id, x) {
      var l := TwinInGroup(t, groups, g, k, x);
      BestIsEarliest(group, l);
      LessTotal(x, b.id);
    }
    if x :| Twins(t, x, id) && Earlier(t, x, id) {
      LessTotal(x, id);
      LessTotal(b.id, x);
    }
  }

  lemma {:induction false} TwinInGroup(t: Table, groups: seq<seq<DupMember>>, g: nat, k: nat, x: string)
    returns (l: nat)
    requires GroupsOf(t, groups) && g < |groups| && k < |groups[g]| && Twins(t, x, groups[g][k].id)
    ensures l < |groups[g]| && groups[g][l].id == x && groups[g][l].recordedAt == t[x].recordedAt
  {
    var id := groups[g][k].id;
    if x == id {
      l := k;
    } else {
      assert Twins(t, id, x) && HasTwin(t, x);
      var h, i :| MemberAt(groups, h, i, x);
      l := i;
    }
    assert HasTwin(t, groups[g][l].id);
  }

  /** Groups as far as distinctness goes: within a group distinct identifiers, across groups no twins. */
  lemma {:induction false} JobsDistinct(groups: seq<seq<DupMember>>, i: nat, j: nat)
    requires groups != [] && i < j < |AllJobs(groups)| && Separate(groups)
    ensures AllJobs(groups)[i].dup != AllJobs(groups)[j].dup
  {
    hide Best, Others, AllJobs;
    var n := |groups| - 1;
    LastJobs(groups, i);
    LastJobs(groups, j);
    var before := AllJobs(groups[..n]);
    if j < |before| {
      assert Separate(groups[..n]);
      NoJobs();
      JobsDistinct(groups[..n], i, j);
    } else {
      var survivor := Best(groups[n]).id;
      OthersAreDistinct(groups[n], survivor);
      if i < |before| {
        var g, k := JobInGroup(groups[..n], i);
        OthersAreMembers(groups[n], survivor, AllJobs(groups)[j].dup);
        var l :| 0 <= l < |groups[n]| && groups[n][l].id == AllJobs(groups)[j].dup;
        assert groups[g][k].id != groups[n][l].id;
      }
    }
  }

  ghost predicate Separate(groups: seq<seq<DupMember>>) {
    && (forall g | 0 <= g < |groups| :: DistinctIds(groups[g]))
    && (forall g, h, k, l | 0 <= g < h < |groups| && 0 <= k < |groups[g]| && 0 <= l < |groups[h]| ::
          groups[g][k].id != groups[h][l].id)
  }

  lemma {:induction false} GroupsAreSeparate(t: Table, groups: seq<seq<DupMember>>)
    requires GroupsOf(t, groups)
    ensures Separate(groups)
  {
  }

  /** Scanning and choosing survivors yields exactly the plan that the lifecycle's scan event hands over. */
  lemma {:induction false} JobsArePlan(t: Table, groups: seq<seq<DupMember>>)
    requires GroupsOf(t, groups)
    ensures PlanOf(t, AllJobs(groups))
  {
    hide AllJobs, Best, Others;
    var jobs := AllJobs(groups);
    NoJobs();
    GroupsAreSeparate(t, groups);
    forall i | 0 <= i < |jobs| ensures Duplicate(t, jobs[i].dup) && IsSurvivor(t, jobs[i].survivor, jobs[i].dup) {
      var g, k := JobInGroup(groups, i);
      SurvivorOfGroup(t, groups, g, k);
    }
    forall i, j | 0 <= i < j < |jobs| ensures jobs[i].dup != jobs[j].dup {
      JobsDistinct(groups, i, j);
    }
    forall id | Duplicate(t, id) ensures exists i :: 0 <= i < |jobs| && jobs[i].dup == id {
      var x :| Twins(t, x, id) && Earlier(t, x, id);
      LessTotal(x, x);
      assert HasTwin(t, id);
      var g, k :| MemberAt(groups, g, k, id);
      SurvivorOfGroup(t, groups, g, k);
      var j := MemberHasJob(groups, g, k);
    }
  }

  // ---------- Running a pass ----------

  /** Load, compute, persist: one duplicate of a pass. A claim that is no longer live is skipped. */
  function JobStep(t: Table, job: Job, now: Time): (Table, bool) {
    match LoadClaimForSupersession(t, job.dup)
    case None => (t, true)
    case Some(c) =>
      match Supersede(c, job.survivor, now)
      case NotWellFormed => (t, false)
      case Ok(closed) =>
        var (t', outcome) := ApplySupersession(t, closed, "duplicate");
        (t', outcome == Done)
  }

  /** The table after a list of jobs, how many were counted, and whether none failed. */
  function RunJobs(t: Table, jobs: seq<Job>, now: Time): (Table, nat, bool) {
    if jobs == [] then (t, 0, true)
    else
      var (t', merged, ok) := RunJobs(t, jobs[..|jobs| - 1], now);
      if !ok then (t', merged, false)
      else
        var (t'', done) := JobStep(t', jobs[|jobs| - 1], now);
        (t'', if done then merged + 1 else merged, done)
  }

  lemma {:induction false} FailureIsFinal(t: Table, jobs: seq<Job>, now: Time, i: nat)
    requires i <= |jobs| && !RunJobs(t, jobs[..i], now).2
    ensures RunJobs(t, jobs, now) == RunJobs(t, jobs[..i], now)
    decreases |jobs|
  {
    hide JobStep;
    if i == |jobs| {
      assert jobs[..i] == jobs;
    } else {
      assert jobs[..|jobs| - 1][..i] == jobs[..i];
      FailureIsFinal(t, jobs[..|jobs| - 1], now, i);
    }
  }

  lemma NothingRun(t: Table, now: Time)
    ensures RunJobs(t, [], now) == (t, 0, true)
  {
  }

  lemma NextRun(t: Table, jobs: seq<Job>, n: nat, now: Time)
    requires n < |jobs|
    ensures var (t', merged, ok) := RunJobs(t, jobs[..n], now);
            ok ==> var (t'', done) := JobStep(t', jobs[n], now);
                   RunJobs(t, jobs[..n + 1], now) == (t'', if done then merged + 1 else merged, done)
  {
    assert jobs[..n + 1][..n] == jobs[..n];
  }

  method SupersedeDuplicate(store: Store, dupID: string, survivorID: string, now: Time) returns (ok: bool)
    modifies store
    ensures (store.claims, ok) == JobStep(old(store.claims), Job(dupID, survivorID), now)
  {
    var incumbent := store.Load(dupID);
    if incumbent.None? {
      return true;
    }
    var superseded := Supersede(incumbent.value, survivorID, now);
    if superseded.NotWellFormed? {
      return false;
    }
    var outcome := store.Apply(superseded.value, "duplicate");
    ok := outcome == Done;
  }

  function JobsBefore(groups: seq<seq<DupMember>>, g: nat): nat
    requires g <= |groups|
  {
    |AllJobs(groups[..g])|
  }

  /** The jobs of group `g` come after those of the groups before it. */
  lemma {:induction false} JobsOfGroupAt(groups: seq<seq<DupMember>>, g: nat, survivor: string, dups: seq<string>)
    requires g < |groups|
    requires groups[g] == [] ==> dups == []
    requires groups[g] != [] ==> survivor == Best(groups[g]).id && dups == Others(groups[g], survivor)
    ensures JobsBefore(groups, g + 1) == JobsBefore(groups, g) + |dups| <= |AllJobs(groups)|
    ensures forall k | 0 <= k < |dups| :: AllJobs(groups)[JobsBefore(groups, g) + k] == Job(dups[k], survivor)
  {
    hide Best, Others, AllJobs;
    JobsOfGroup(groups, g);
    PrefixOfJobs(groups, g + 1);
  }

  lemma {:induction false} JobsBounds(groups: seq<seq<DupMember>>)
    ensures JobsBefore(groups, 0) == 0 && JobsBefore(groups, |groups|) == |AllJobs(groups)|
  {
    assert groups[..0] == [] && groups[..|groups|] == groups;
  }

  /** One undisturbed pass: it runs the plan of the table it finds, and stops at the first failure. */
  method Run(store: Store, now: Time) returns (merged: nat, ok: bool)
    modifies store
    ensures exists jobs ::
              PlanOf(old(store.claims), jobs) && (store.claims, merged, ok) == RunJobs(old(store.claims), jobs, now)
  {
    hide JobStep, AllJobs, Best, Others, PlanOf, JobsBefore, RunJobs, GroupsOf;
    ghost var t := store.claims;
    var groups := store.LiveDuplicateGroups();
    ghost var jobs := AllJobs(groups);
    JobsArePlan(t, groups);
    JobsBounds(groups);
    merged, ok := 0, true;
    assert jobs[..0] == [];
    NothingRun(t, now);
    for g := 0 to |groups|
      invariant merged == JobsBefore(groups, g) <= |jobs|
      invariant ok && (store.claims, merged, true) == RunJobs(t, jobs[..merged], now)
    {
      var survivor, duplicates := Canonical(groups[g]);
      JobsOfGroupAt(groups, g, survivor, duplicates);
      for k := 0 to |duplicates|
        invariant merged == JobsBefore(groups, g) + k
        invariant ok && (store.claims, merged, true) == RunJobs(t, jobs[..merged], now)
      {
        assert jobs[merged] == Job(duplicates[k], survivor);
        NextRun(t, jobs, merged, now);
        ok := SupersedeDuplicate(store, duplicates[k], survivor, now);
        if !ok {
          FailureIsFinal(t, jobs, now, merged + 1);
          return;
        }
        merged := merged + 1;
      }
    }
    assert jobs[..merged] == jobs;
  }

  lemma {:induction false} PrefixOfJobs(groups: seq<seq<DupMember>>, g: nat)
    requires g <= |groups|
    ensures AllJobs(groups[..g]) <= AllJobs(groups)
    decreases |groups|
  {
    if g < |groups| {
      assert groups[..|groups| - 1][..g] == groups[..g];
      PrefixOfJobs(groups[..|groups| - 1], g);
    } else {
      assert groups[..g] == groups;
    }
  }

  lemma {:induction false} JobsOfGroup(groups: seq<seq<DupMember>>, g: nat)
    requires g < |groups|
    ensures AllJobs(groups[..g + 1]) == AllJobs(groups[..g]) + GroupJobs(groups[g])
  {
    assert groups[..g + 1][..g] == groups[..g];
  }

  // ---------- What an undisturbed pass achieves ----------

  /** The clock is after the start of every duplicate. */
  ghost predicate Ready(t: Table, now: Time) {
    forall id <- t | Duplicate(t, id) :: StartedBefore(t[id], now)
  }

  /** `id` has been closed at `now` in favour of the earliest of its twins. */
  ghost predicate FoldedAway(t: Table, id: string, r: Row, now: Time)
    requires id in t
  {
    && r.supersededBy.Some? && IsSurvivor(t, r.supersededBy.value, id)
    && r == ClosedRow(t[id], now, r.supersededBy, Some("duplicate"))
  }

  /** The duplicates of the first `n` jobs are folded away; every other row is as it was. */
  ghost predicate Folded(t: Table, t': Table, jobs: seq<Job>, n: nat, now: Time)
    requires n <= |jobs|
  {
    && t'.Keys == t.Keys
    && (forall i | 0 <= i < n :: jobs[i].dup in t && FoldedAway(t, jobs[i].dup, t'[jobs[i].dup], now))
    && (forall id | id in t && (forall i | 0 <= i < n :: jobs[i].dup != id) :: t'[id] == t[id])
  }

  /** A job closes its row if that started before the clock, and fails otherwise. */
  lemma {:induction false} JobCloses(t: Table, job: Job, now: Time)
    requires Live(t, job.dup) && t[job.dup].validUntil.None?
    requires job.survivor in t && job.survivor != "" && job.survivor != job.dup
    ensures JobStep(t, job, now) ==
              if StartedBefore(t[job.dup], now)
              then (t[job.dup := ClosedRow(t[job.dup], now, Some(job.survivor), Some("duplicate"))], true)
              else (t, false)
  {
  }

  lemma {:induction false} PlannedJob(t: Table, jobs: seq<Job>, n: nat)
    requires GoodTable(t) && PlanOf(t, jobs) && "" !in t && n < |jobs|
    ensures Live(t, jobs[n].dup) && t[jobs[n].dup].validUntil.None?
    ensures jobs[n].survivor in t && jobs[n].survivor != "" && jobs[n].survivor != jobs[n].dup
    ensures IsSurvivor(t, jobs[n].survivor, jobs[n].dup)
    ensures forall i | 0 <= i < n :: jobs[i].dup != jobs[n].dup
  {
    var dup, survivor := jobs[n].dup, jobs[n].survivor;
    assert Duplicate(t, dup) && IsSurvivor(t, survivor, dup);
    var x :| Twins(t, x, dup) && Earlier(t, x, dup);
    LessTotal(x, dup);
    LessTotal(dup, dup);
  }

  lemma {:induction false} JobFolds(t: Table, t': Table, jobs: seq<Job>, n: nat, now: Time)
    requires GoodTable(t) && PlanOf(t, jobs) && "" !in t && n < |jobs| && Folded(t, t', jobs, n, now)
    ensures jobs[n].dup in t
    ensures var (t'', done) := JobStep(t', jobs[n], now);
            if StartedBefore(t[jobs[n].dup], now) then done && Folded(t, t'', jobs, n + 1, now) else !done && t'' == t'
  {
    PlannedJob(t, jobs, n);
    hide GoodTable, PlanOf, IsSurvivor, JobStep;
    var dup := jobs[n].dup;
    assert t'[dup] == t[dup];
    JobCloses(t', jobs[n], now);
    hide Live, Folded;
    if StartedBefore(t[dup], now) {
      FoldNext(t, t', jobs, n, ClosedRow(t[dup], now, Some(jobs[n].survivor), Some("duplicate")), now);
    }
  }

  lemma {:induction false} FoldNext(t: Table, t': Table, jobs: seq<Job>, n: nat, r: Row, now: Time)
    requires n < |jobs| && Folded(t, t', jobs, n, now) && forall i | 0 <= i < n :: jobs[i].dup != jobs[n].dup
    requires jobs[n].dup in t && FoldedAway(t, jobs[n].dup, r, now)
    ensures Folded(t, t'[jobs[n].dup := r], jobs, n + 1, now)
  {
  }

  /** The first `n` jobs fold away `k` rows: all of them, or those before the first that started too late. */
  ghost predicate FoldsUpTo(t: Table, jobs: seq<Job>, n: nat, k: nat, now: Time)
    requires k <= n <= |jobs|
  {
    && RunJobs(t, jobs[..n], now).1 == k && RunJobs(t, jobs[..n], now).2 == (k == n)
    && Folded(t, RunJobs(t, jobs[..n], now).0, jobs, k, now)
    && (forall i | 0 <= i < k :: StartedBefore(t[jobs[i].dup], now))
    && (k < n ==> jobs[k].dup in t && !StartedBefore(t[jobs[k].dup], now))
  }

  lemma {:induction false} JobsFold(t: Table, jobs: seq<Job>, n: nat, now: Time) returns (k: nat)
    requires GoodTable(t) && PlanOf(t, jobs) && "" !in t && n <= |jobs|
    ensures k <= n && FoldsUpTo(t, jobs, n, k, now)
  {
    hide JobStep, PlanOf, GoodTable, RunJobs, FoldedAway, StartedBefore;
    k := 0;
    if n == 0 {
      assert jobs[..0] == [];
      NothingRun(t, now);
    } else {
      k := JobsFold(t, jobs, n - 1, now);
      hide Folded;
      k := JobsFoldNext(t, jobs, n - 1, k, now);
    }
  }

  lemma {:induction false} JobsFoldNext(t: Table, jobs: seq<Job>, n: nat, k: nat, now: Time) returns (k': nat)
    requires GoodTable(t) && PlanOf(t, jobs) && "" !in t && k <= n < |jobs| && FoldsUpTo(t, jobs, n, k, now)
    ensures k' <= n + 1 && FoldsUpTo(t, jobs, n + 1, k', now)
  {
    hide JobStep, PlanOf, GoodTable, RunJobs, Folded, StartedBefore;
    if k < n {
      k' := k;
      assert jobs[..n + 1][..n] == jobs[..n];
      FailureIsFinal(t, jobs[..n + 1], now, n);
    } else {
      NextRun(t, jobs, n, now);
      JobFolds(t, RunJobs(t, jobs[..n], now).0, jobs, n, now);
      k' := if StartedBefore(t[jobs[n].dup], now) then n + 1 else n;
    }
  }

  /** A pass succeeds exactly when its clock is after the start of every duplicate it found. */
  lemma {:induction false} PassSucceedsIff(t: Table, jobs: seq<Job>, now: Time)
    requires GoodTable(t) && PlanOf(t, jobs) && "" !in t
    ensures RunJobs(t, jobs, now).2 <==> Ready(t, now)
  {
    var k := JobsFold(t, jobs, |jobs|, now);
    assert jobs[..|jobs|] == jobs;
    hide RunJobs, GoodTable, StartedBefore, Folded;
    if k < |jobs| {
      assert Duplicate(t, jobs[k].dup);
    }
  }

  /** Every duplicate is closed in favour of its group's earliest member; nothing else changes, and the
      pass counts exactly what it closed. */
  lemma {:induction false} PassFoldsDuplicates(t: Table, jobs: seq<Job>, now: Time)
    requires GoodTable(t) && PlanOf(t, jobs) && "" !in t && Ready(t, now)
    ensures var (t', merged, ok) := RunJobs(t, jobs, now);
            && ok && merged == |jobs| && t'.Keys == t.Keys
            && forall id <- t :: if Duplicate(t, id) then FoldedAway(t, id, t'[id], now) else t'[id] == t[id]
  {
    PassSucceedsIff(t, jobs, now);
    var k := JobsFold(t, jobs, |jobs|, now);
    assert jobs[..|jobs|] == jobs;
    hide RunJobs, GoodTable, StartedBefore;
    forall id | id in t && Duplicate(t, id) ensures exists i :: 0 <= i < |jobs| && jobs[i].dup == id {
    }
  }

  function LiveIds(t: Table): set<string> {
    set id | id in t && Live(t, id)
  }

  lemma {:induction false} DistinctCount(xs: seq<string>)
    requires Distinct(xs)
    ensures |set x | x in xs| == |xs|
  {
    if xs == [] {
      assert (set x | x in xs) == {};
    } else {
      var n := |xs| - 1;
      DistinctCount(xs[..n]);
      assert xs == xs[..n] + [xs[n]];
      assert (set x | x in xs) == (set x | x in xs[..n]) + {xs[n]};
    }
  }

  /** The rows of the first `k` jobs. */
  function FirstDups(jobs: seq<Job>, k: nat): set<string>
    requires k <= |jobs|
  {
    set i | 0 <= i < k :: jobs[i].dup
  }

  lemma {:induction false} CountOfDups(t: Table, jobs: seq<Job>, k: nat)
    requires PlanOf(t, jobs) && k <= |jobs|
    ensures |FirstDups(jobs, k)| == k
  {
    hide Duplicate, IsSurvivor;
    var dups := seq(k, i requires 0 <= i < k => jobs[i].dup);
    DistinctCount(dups);
    assert forall i | 0 <= i < k :: dups[i] == jobs[i].dup;
    assert FirstDups(jobs, k) == set x | x in dups;
  }

  /** Whether or not a pass fails, the count it returns is the drop in the number of live claims. */
  lemma {:induction false} PassCountsLiveDrop(t: Table, jobs: seq<Job>, now: Time)
    requires GoodTable(t) && PlanOf(t, jobs) && "" !in t
    ensures |LiveIds(t)| == |LiveIds(RunJobs(t, jobs, now).0)| + RunJobs(t, jobs, now).1
  {
    hide RunJobs, Duplicate, GoodTable, StartedBefore;
    var k := JobsFold(t, jobs, |jobs|, now);
    assert jobs[..|jobs|] == jobs;
    var t' := RunJobs(t, jobs, now).0;
    CountOfDups(t, jobs, k);
    LiveAfter(t, t', jobs, k, now);
    hide LiveIds, FirstDups;
    assert LiveIds(t) == LiveIds(t') + FirstDups(jobs, k) && LiveIds(t') !! FirstDups(jobs, k);
  }

  lemma {:induction false} LiveAfter(t: Table, t': Table, jobs: seq<Job>, k: nat, now: Time)
    requires PlanOf(t, jobs) && k <= |jobs| && Folded(t, t', jobs, k, now)
    ensures LiveIds(t') == LiveIds(t) - FirstDups(jobs, k) && FirstDups(jobs, k) <= LiveIds(t)
  {
    hide IsSurvivor, Earlier;
    var dups := FirstDups(jobs, k);
    forall id | id in dups ensures Live(t, id) && id in t' && !Live(t', id) {
      var i :| 0 <= i < k && jobs[i].dup == id;
      assert Duplicate(t, jobs[i].dup);
    }
    forall id | id in t && id !in dups ensures t'[id] == t[id] {
      assert forall i | 0 <= i < k :: jobs[i].dup in dups;
    }
  }

  /** After a pass every statement that was live has exactly one live claim, the earliest one. */
  lemma {:induction false} OneLiveClaimPerStatement(t: Table, jobs: seq<Job>, now: Time, s: string, id: string,
      x: string)
    requires GoodTable(t) && PlanOf(t, jobs) && "" !in t && Ready(t, now) && IsSurvivor(t, s, id)
    ensures var t' := RunJobs(t, jobs, now).0;
            Live(t', s) && (Twins(t', x, s) ==> x == s)
    ensures forall y | Twins(t, y, id) ::
              t[s].recordedAt < t[y].recordedAt || (t[s].recordedAt == t[y].recordedAt && !Less(y, s))
  {
    forall y | Twins(t, y, id)
      ensures t[s].recordedAt < t[y].recordedAt || (t[s].recordedAt == t[y].recordedAt && !Less(y, s))
    {
      LessTotal(y, s);
    }
    PassFoldsDuplicates(t, jobs, now);
    var t' := RunJobs(t, jobs, now).0;
    if Duplicate(t, s) {
      var y :| Twins(t, y, s) && Earlier(t, y, s);
      assert Twins(t, y, id);
      LessTotal(y, s);
    }
    if Twins(t', x, s) && x != s {
      assert x in t && !Duplicate(t, x);
      assert Twins(t, x, id) && Earlier(t, s, x);
      assert Twins(t, s, x);
    }
  }

  /** A second pass finds nothing to do. */
  lemma {:induction false} SecondPassIsIdle(t: Table, jobs: seq<Job>, now: Time, jobs': seq<Job>, now': Time)
    requires GoodTable(t) && PlanOf(t, jobs) && "" !in t && Ready(t, now)
    requires PlanOf(RunJobs(t, jobs, now).0, jobs')
    ensures jobs' == [] && RunJobs(RunJobs(t, jobs, now).0, jobs', now').1 == 0
  {
    PassFoldsDuplicates(t, jobs, now);
    var t' := RunJobs(t, jobs, now).0;
    if jobs' != [] {
      var id := jobs'[0].dup;
      assert Duplicate(t', id);
      var x :| Twins(t', x, id) && Earlier(t', x, id);
      assert !Duplicate(t, x) && !Duplicate(t, id);
      assert Twins(t, x, id) && Earlier(t, x, id);
    }
  }

  // ---------- The pass is one of the interleavings ----------

  /** What one job of the pass does to the table is done by loading and applying it. */
  lemma {:induction false} JobIsARun(s: System, w: nat, todo: seq<Job>, now: Time) returns (es: seq<Event>)
    requires todo != [] && s.PassOf(w) == Running(todo, now, None)
    ensures Runs(s, es) && After(s, es).table == JobStep(s.table, todo[0], now).0
    ensures JobStep(s.table, todo[0], now).1 ==> After(s, es).PassOf(w) == Running(todo[1..], now, None)
  {
    hide Supersede, ApplySupersession, LoadClaimForSupersession, Runs, After;
    RunsOne(s, Load(w));
    es := [Load(w)];
    var loaded := Step(s, Load(w));
    if loaded.PassOf(w).Running? && loaded.PassOf(w).loaded.Some? {
      RunsOne(loaded, Apply(w));
      RunsAppend(s, es, [Apply(w)]);
      es := es + [Apply(w)];
    }
  }

  lemma {:induction false} JobsAreARun(s: System, w: nat, jobs: seq<Job>, n: nat, now: Time) returns (es: seq<Event>)
    requires n <= |jobs| && s.PassOf(w) == Running(jobs, now, None)
    ensures Runs(s, es) && After(s, es).table == RunJobs(s.table, jobs[..n], now).0
    ensures RunJobs(s.table, jobs[..n], now).2 ==> After(s, es).PassOf(w) == Running(jobs[n..], now, None)
    decreases n
  {
    hide JobStep, Enabled, Step, RunJobs, Runs, After;
    if n == 0 {
      es := [];
      assert jobs[..0] == [] && jobs[0..] == jobs;
      NothingRun(s.table, now);
      RunsNothing(s);
    } else {
      es := JobsAreARun(s, w, jobs, n - 1, now);
      NextRun(s.table, jobs, n - 1, now);
      if RunJobs(s.table, jobs[..n - 1], now).2 {
        assert jobs[n - 1..][0] == jobs[n - 1] && jobs[n - 1..][1..] == jobs[n..];
        var fs := JobIsARun(After(s, es), w, jobs[n - 1..], now);
        RunsAppend(s, es, fs);
        es := es + fs;
      } else {
        assert jobs[..n][..n - 1] == jobs[..n - 1];
        FailureIsFinal(s.table, jobs[..n], now, n - 1);
      }
    }
  }

  /** The pass refines the event model: whatever it does to the table, some run of scan, load and apply events
      by an idle worker does too, so what holds of every interleaving holds of it. */
  lemma {:induction false} PassIsARun(s: System, w: nat, jobs: seq<Job>, now: Time) returns (es: seq<Event>)
    requires s.PassOf(w).Idle? && PlanOf(s.table, jobs)
    ensures Runs(s, es) && After(s, es).table == RunJobs(s.table, jobs, now).0
  {
    hide PlanOf, RunJobs, Runs, After;
    var scan, start := Scan(w, jobs), Start(w, now);
    RunsOne(s, scan);
    RunsExtend(s, [scan], start);
    es := JobsAreARun(Step(Step(s, scan), start), w, jobs, |jobs|, now);
    assert jobs[..|jobs|] == jobs;
    RunsAppend(s, [scan] + [start], es);
    es := [scan] + [start] + es;
  }
}
