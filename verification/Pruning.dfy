/** The bound on a scope's growth: when a scope is over its ceiling, its lowest-value live claims expire. */
module Pruning {
  import opened Strings
  import opened Temporal
  import opened ClaimTable
  import opened ClaimStore
  import opened Limit

  function LiveIn(t: Table, scope: string): set<string> {
    set id | id in t && Live(t, id) && t[id].content.scope == scope
  }

  /** Lower confidence first, then older, then by identifier. */
  predicate Cheaper(t: Table, a: string, b: string)
    requires a in t && b in t
  {
    if t[a].content.confidence != t[b].content.confidence then t[a].content.confidence < t[b].content.confidence
    else if t[a].recordedAt != t[b].recordedAt then t[a].recordedAt < t[b].recordedAt
    else Less(a, b)
  }

  lemma CheaperTotal(t: Table, a: string, b: string)
    requires a in t && b in t
    ensures a == b || Cheaper(t, a, b) || Cheaper(t, b, a)
    ensures !(Cheaper(t, a, b) && Cheaper(t, b, a)) && !Cheaper(t, a, a)
  {
    LessTotal(a, b);
    LessTotal(a, a);
  }

  lemma CheaperTrans(t: Table, a: string, b: string, c: string)
    requires a in t && b in t && c in t && Cheaper(t, a, b) && Cheaper(t, b, c)
    ensures Cheaper(t, a, c)
  {
    if Less(a, b) && Less(b, c) {
      LessTrans(a, b, c);
    }
  }

  /** Every member of `ids` is cheaper than every other member of `all`. */
  ghost predicate Lowest(t: Table, ids: set<string>, all: set<string>) {
    ids <= all && all <= t.Keys && forall a, b | a in ids && b in all - ids :: Cheaper(t, a, b)
  }

  function Least(a: nat, b: nat): nat {
    if a <= b then a else b
  }

  /** Of the live rows of the scope, those picked have less confidence than the others, or the same and are older, or
      of the same age and have lesser identifiers. */
  lemma {:induction false} PickedAreLowest(t: Table, scope: string, n: nat, ids: set<string>, a: string, b: string)
    requires Picked(t, scope, n, ids) && a in ids
    requires Live(t, b) && t[b].content.scope == scope && b !in ids
    ensures Live(t, a) && t[a].content.scope == scope
    ensures var (x, y) := (t[a].content.confidence, t[b].content.confidence);
            || x < y
            || (x == y && t[a].recordedAt < t[b].recordedAt)
            || (x == y && t[a].recordedAt == t[b].recordedAt && Less(a, b))
    ensures |ids| == n
  {
    assert b in LiveIn(t, scope) && Cheaper(t, a, b);
    SmallerSubset(ids, LiveIn(t, scope));
  }

  /** The rows that a prune of `n` closes. */
  ghost predicate Picked(t: Table, scope: string, n: nat, ids: set<string>) {
    Lowest(t, ids, LiveIn(t, scope)) && |ids| == Least(n, |LiveIn(t, scope)|)
  }

  /** There is only one such set: a prune is reproducible. */
  lemma PickedIsUnique(t: Table, scope: string, n: nat, ids: set<string>, ids': set<string>)
    requires Picked(t, scope, n, ids) && Picked(t, scope, n, ids')
    ensures ids == ids'
  {
    if a :| a in ids && a !in ids' {
      if b :| b in ids' && b !in ids {
        CheaperTotal(t, a, b);
        assert false;
      }
      assert ids' < ids;
      SmallerSubset(ids', ids);
    } else {
      assert ids <= ids';
      if ids != ids' { SmallerSubset(ids, ids'); }
    }
  }

  lemma SmallerSubset(a: set<string>, b: set<string>)
    requires a < b
    ensures |a| < |b|
  {
    assert b == a + (b - a) && |b - a| > 0;
  }

  method Cheapest(t: Table, rest: set<string>) returns (least: string)
    requires rest != {} && rest <= t.Keys
    ensures least in rest && forall x | x in rest && x != least :: Cheaper(t, least, x)
  {
    hide Cheaper;
    least :| least in rest;
    var todo := rest - {least};
    while todo != {}
      invariant todo <= rest && least in rest && least !in todo
      invariant forall x | x in rest && x !in todo && x != least :: Cheaper(t, least, x)
      decreases |todo|
    {
      var x :| x in todo;
      todo := todo - {x};
      CheaperTotal(t, x, least);
      if Cheaper(t, x, least) {
        forall y | y in rest && y !in todo && y != x ensures Cheaper(t, x, y) {
          if y != least { CheaperTrans(t, x, least, y); }
        }
        least := x;
      }
    }
  }

  /** The rows are closed at the clock, as pruned and without a successor; nothing else changes. */
  ghost predicate Pruned(t: Table, t': Table, ids: set<string>, now: Time) {
    && t'.Keys == t.Keys
    && forall id <- t :: t'[id] ==
         if id in ids
         then t[id].(supersededAt := Some(now), validUntil := Some(now), supersededBy := None, reason := Some("pruned"))
         else t[id]
  }

  lemma ClosedArePruned(t: Table, ids: set<string>, now: Time)
    requires forall id <- ids :: Live(t, id)
    ensures var (t', outcome) := CloseAll(t, ids, "pruned", now);
            if outcome == Done then Pruned(t, t', ids, now) else t' == t
  {
  }

  method ScopeClaimCount(store: Store, scope: string) returns (n: nat)
    ensures n == |LiveIn(store.claims, scope)|
  {
    n := |LiveIn(store.claims, scope)|;
  }

  /** One statement: the `n` lowest live rows of the scope are closed, or none when a constraint refuses. */
  method PruneScope(store: Store, scope: string, n: int, now: Time)
    returns (closed: nat, outcome: Outcome, ghost ids: set<string>)
    modifies store
    ensures n <= 0 ==> closed == 0 && store.claims == old(store.claims)
    ensures n > 0 ==> Picked(old(store.claims), scope, n, ids)
                      && (store.claims, outcome) == CloseAll(old(store.claims), ids, "pruned", now)
                      && closed == if outcome == Done then |ids| else 0
    ensures n > 0 && outcome == Done ==> Pruned(old(store.claims), store.claims, ids, now)
    ensures outcome != Done ==> store.claims == old(store.claims)
  {
    ids := {};
    if n <= 0 {
      return 0, Done, ids;
    }
    hide Cheaper, LiveIn;
    var t := store.claims;
    var all := LiveClaims(t, scope);
    var chosen: set<string> := {};
    while |chosen| < n && chosen != all
      invariant chosen <= all && |chosen| <= Least(n, |all|) && Lowest(t, chosen, all)
      decreases |all - chosen|
    {
      var least := Cheapest(t, all - chosen);
      SmallerSubset(chosen, all);
      assert all - (chosen + {least}) < all - chosen;
      SmallerSubset(all - (chosen + {least}), all - chosen);
      chosen := chosen + {least};
    }
    if chosen != all { SmallerSubset(chosen, all); }
    ids := chosen;
    var (t', o) := CloseAll(t, chosen, "pruned", now);
    ClosedArePruned(t, chosen, now);
    hide CloseAll, Pruned;
    store.claims := t';
    outcome := o;
    closed := if o == Done then |chosen| else 0;
  }

  function LiveClaims(t: Table, scope: string): (ids: set<string>)
    ensures ids == LiveIn(t, scope) && forall id <- ids :: Live(t, id)
  {
    LiveIn(t, scope)
  }

  /** Count, decide, close: the pruner's pass over one scope. */
  method Prune(store: Store, scope: string, cfg: Config, now: Time)
    returns (pruned: nat, outcome: Outcome, ghost ids: set<string>)
    modifies store
    ensures var target := PruneTarget(|LiveIn(old(store.claims), scope)|, cfg);
            if target <= 0 then pruned == 0 && store.claims == old(store.claims)
            else Picked(old(store.claims), scope, target, ids)
                 && (store.claims, outcome) == CloseAll(old(store.claims), ids, "pruned", now)
                 && pruned == if outcome == Done then |ids| else 0
    ensures pruned > 0 ==> Pruned(old(store.claims), store.claims, ids, now)
    ensures outcome != Done ==> store.claims == old(store.claims)
  {
    ids := {};
    var live := ScopeClaimCount(store, scope);
    var target := PruneTarget(live, cfg);
    if target <= 0 {
      return 0, Done, ids;
    }
    pruned, outcome, ids := PruneScope(store, scope, target, now);
  }

  lemma {:induction false} LiveAfterPrune(t: Table, scope: string, ids: set<string>, now: Time)
    requires ids <= LiveIn(t, scope) && CloseAll(t, ids, "pruned", now).1 == Done
    ensures LiveIn(CloseAll(t, ids, "pruned", now).0, scope) == LiveIn(t, scope) - ids
    ensures |LiveIn(CloseAll(t, ids, "pruned", now).0, scope)| == |LiveIn(t, scope)| - |ids|
    ensures forall id <- t | id !in ids ::
              id in CloseAll(t, ids, "pruned", now).0 && CloseAll(t, ids, "pruned", now).0[id] == t[id]
  {
    var all := LiveIn(t, scope);
    assert all == (all - ids) + ids;
  }

  /** A pass that is not refused leaves exactly the target fewer, keeps the more valuable claims and touches
      nothing else. It meets the ceiling unless a negative headroom takes back a whole claim, and then leaves
      the next pass nothing to do. (A negative target prunes nothing.) */
  lemma {:induction false} PruneMeetsCeiling(t: Table, scope: string, cfg: Config, ids: set<string>, now: Time)
    requires cfg.scopeClaimCeiling > 0 && PruneTarget(|LiveIn(t, scope)|, cfg) >= 0
    requires Picked(t, scope, PruneTarget(|LiveIn(t, scope)|, cfg), ids) && CloseAll(t, ids, "pruned", now).1 == Done
    ensures var t', live := CloseAll(t, ids, "pruned", now).0, |LiveIn(t, scope)|;
            |LiveIn(t', scope)| == live - PruneTarget(live, cfg)
    ensures var t', live := CloseAll(t, ids, "pruned", now).0, |LiveIn(t, scope)|;
            |LiveIn(t', scope)| <= cfg.scopeClaimCeiling <==> live <= cfg.scopeClaimCeiling || MeetsCeiling(live, cfg)
    ensures var t' := CloseAll(t, ids, "pruned", now).0;
            |LiveIn(t', scope)| <= cfg.scopeClaimCeiling ==> PruneTarget(|LiveIn(t', scope)|, cfg) == 0
    ensures var t' := CloseAll(t, ids, "pruned", now).0;
            && (forall a, b | a in ids && b in LiveIn(t', scope) :: Cheaper(t, a, b))
            && (forall id | id in t && id !in ids :: id in t' && t'[id] == t[id])
  {
    hide Cheaper, CloseAll, PruneTarget, MeetsCeiling;
    var all := LiveIn(t, scope);
    PruneIsBounded(|all|, cfg);
    if |all| > cfg.scopeClaimCeiling { PruneReachesCeilingIff(|all|, cfg); }
    LiveAfterPrune(t, scope, ids, now);
    hide LiveIn;
    PruneIsBounded(|all - ids|, cfg);
  }

  /** It is refused exactly when one of the rows started no earlier than the clock. */
  lemma RefusedIffNotLater(t: Table, scope: string, ids: set<string>, now: Time)
    requires GoodTable(t) && ids <= LiveIn(t, scope)
    ensures CloseAll(t, ids, "pruned", now).1 == Rejected
            <==> exists id <- ids :: t[id].recordedAt >= now || t[id].validFrom >= now
  {
  }
}
