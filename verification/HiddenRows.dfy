/** What rows that a principal may not read change of its answers. The searches rank all live claims before
    access is decided, so a hidden row takes a rank from the readable ones below it. */
module HiddenRows {
  import opened Strings
  import opened Acl
  import opened Rrf
  import opened Recall
  import Temporal

  type Rows = seq<(string, real)>

  /** The live claims that each search matches, best first. */
  datatype Rankings = Rankings(dense: Rows, lexical: Rows)

  function Top(rows: Rows, depth: nat): Rows {
    if |rows| > depth then rows[..depth] else rows
  }

  /** What the two searches return. */
  function ArmsOf(r: Rankings, depth: nat): Arms {
    map[DENSE := Ranks(Top(r.dense, depth)), LEXICAL := Ranks(Top(r.lexical, depth))]
  }

  function ReadableRows(t: Tables, rows: Rows, p: string, now: Temporal.Time): Rows {
    if rows == [] then []
    else
      var n := |rows| - 1;
      ReadableRows(t, rows[..n], p, now) + if MayRead(t, rows[n].0, p, now) then [rows[n]] else []
  }

  /** The database without the claims that `p` may not read, and its rankings. */
  function TablesWithoutHidden(t: Tables, p: string, now: Temporal.Time): Tables {
    t.(claims := map id | id in t.claims && MayRead(t, id, p, now) :: t.claims[id])
  }

  function RankingsWithoutHidden(t: Tables, r: Rankings, p: string, now: Temporal.Time): Rankings {
    Rankings(ReadableRows(t, r.dense, p, now), ReadableRows(t, r.lexical, p, now))
  }

  /** No hidden row ranks above a readable one that the search would return without it. */
  predicate HiddenBelow(t: Tables, rows: Rows, depth: nat, p: string, now: Temporal.Time) {
    forall k | 0 <= k < |rows| && k < depth && k < |ReadableRows(t, rows, p, now)| :: MayRead(t, rows[k].0, p, now)
  }

  // ---------- Readable rows ----------

  lemma {:induction false} ReadablePrefix(t: Tables, rows: Rows, m: nat, p: string, now: Temporal.Time)
    requires m <= |rows| && forall k | 0 <= k < m :: MayRead(t, rows[k].0, p, now)
    ensures m <= |ReadableRows(t, rows, p, now)| <= |rows|
    ensures ReadableRows(t, rows, p, now)[..m] == rows[..m]
  {
    hide MayRead;
    if rows != [] {
      var n := |rows| - 1;
      if m <= n {
        ReadablePrefix(t, rows[..n], m, p, now);
        assert rows[..n][..m] == rows[..m];
      } else {
        ReadablePrefix(t, rows[..n], n, p, now);
        assert rows == rows[..n] + [rows[n]];
      }
    }
  }

  lemma {:induction false} RestIsHidden(t: Tables, rows: Rows, m: nat, j: nat, p: string, now: Temporal.Time)
    requires m <= j < |rows| && forall k | 0 <= k < m :: MayRead(t, rows[k].0, p, now)
    requires |ReadableRows(t, rows, p, now)| == m
    ensures !MayRead(t, rows[j].0, p, now)
  {
    hide MayRead;
    var n := |rows| - 1;
    ReadablePrefix(t, rows[..n], m, p, now);
    if j < n {
      RestIsHidden(t, rows[..n], m, j, p, now);
    }
  }

  lemma {:induction false} RowIsReadable(t: Tables, rows: Rows, k: nat, p: string, now: Temporal.Time)
    requires k < |ReadableRows(t, rows, p, now)|
    ensures k < |rows| && MayRead(t, ReadableRows(t, rows, p, now)[k].0, p, now)
  {
    hide MayRead;
    ReadablePrefix(t, rows, 0, p, now);
    var n := |rows| - 1;
    if k < |ReadableRows(t, rows[..n], p, now)| {
      RowIsReadable(t, rows[..n], k, p, now);
    }
  }

  lemma {:induction false} OfArmPrefix(arm: string, rs: seq<Ranked>, m: nat, id: string)
    requires m <= |rs| && forall j | m <= j < |rs| :: rs[j].id != id
    ensures OfArm(arm, rs, id) == OfArm(arm, rs[..m], id)
  {
    var n := |rs| - 1;
    if m <= n {
      OfArmPrefix(arm, rs[..n], m, id);
      assert rs[..n][..m] == rs[..m];
    } else {
      assert rs[..m] == rs;
    }
  }

  /** With the hidden rows below, an arm gives a readable claim what it would without them. */
  lemma {:induction false} SameContributions(t: Tables, rows: Rows, depth: nat, arm: string, id: string, p: string,
      now: Temporal.Time)
    requires HiddenBelow(t, rows, depth, p, now) && MayRead(t, id, p, now)
    ensures OfArm(arm, Ranks(Top(rows, depth)), id) == OfArm(arm, Ranks(Top(ReadableRows(t, rows, p, now), depth)), id)
  {
    hide MayRead, OfArm;
    var readable := ReadableRows(t, rows, p, now);
    ReadablePrefix(t, rows, 0, p, now);
    var m := if |readable| < depth then |readable| else depth;
    ReadablePrefix(t, rows, m, p, now);
    var all, few := Ranks(Top(rows, depth)), Ranks(Top(readable, depth));
    forall k | 0 <= k < m ensures all[k] == few[k] {
      assert readable[..m][k] == rows[..m][k];
    }
    assert few == all[..m];
    forall j | m <= j < |all| ensures all[j].id != id {
      RestIsHidden(t, rows, m, j, p, now);
    }
    OfArmPrefix(arm, all, m, id);
  }

  // ---------- What the principal sees ----------

  function FusedOf(vs: seq<Candidate>): seq<Fused> {
    seq(|vs|, i requires 0 <= i < |vs| => vs[i].fused)
  }

  lemma {:induction false} ShownIsVisible(t: Tables, fused: seq<Fused>, i: nat, p: string, now: Temporal.Time)
    returns (k: nat)
    requires i < |fused| && Shown(t, fused[i], p, now)
    ensures k < |Visible(t, fused, p, now)|
        && Visible(t, fused, p, now)[k] == Candidate(fused[i], Joined(t, fused[i].id))
  {
    hide MayRead;
    var n := |fused| - 1;
    if i < n {
      k := ShownIsVisible(t, fused[..n], i, p, now);
    } else {
      k := |Visible(t, fused[..n], p, now)|;
    }
  }

  lemma {:induction false} VisibleMembers(t: Tables, fused: seq<Fused>, f: Fused, p: string, now: Temporal.Time)
    ensures f in FusedOf(Visible(t, fused, p, now)) <==> f in fused && Shown(t, f, p, now)
  {
    hide Shown, Visible;
    var vs := Visible(t, fused, p, now);
    if f in FusedOf(vs) {
      var k :| 0 <= k < |FusedOf(vs)| && FusedOf(vs)[k] == f;
      VisibleAt(t, fused, k, p, now);
    }
    if f in fused && Shown(t, f, p, now) {
      var i :| 0 <= i < |fused| && fused[i] == f;
      var k := ShownIsVisible(t, fused, i, p, now);
      assert FusedOf(vs)[k] == f;
    }
  }

  lemma {:induction false} VisibleAt(t: Tables, fused: seq<Fused>, k: nat, p: string, now: Temporal.Time)
    requires k < |Visible(t, fused, p, now)|
    ensures var v := Visible(t, fused, p, now)[k];
            v.fused in fused && Shown(t, v.fused, p, now) && v == Candidate(v.fused, Joined(t, v.fused.id))
  {
    VisibleIsReadable(t, fused, p, now, k);
  }

  lemma {:induction false} VisibleIsOrdered(t: Tables, fused: seq<Fused>, p: string, now: Temporal.Time)
    requires Ordered(fused)
    ensures Ordered(FusedOf(Visible(t, fused, p, now)))
  {
    hide Visible, Before;
    var vs := Visible(t, fused, p, now);
    forall i, j | 0 <= i < j < |vs| ensures Before(FusedOf(vs)[i], FusedOf(vs)[j]) {
      VisibleInOrder(t, fused, p, now, i, j);
    }
  }

  /** Every readable claim gets the same from both arms. */
  ghost predicate SameForReadable(t: Tables, arms: Arms, arms': Arms, p: string, now: Temporal.Time)
    requires arms.Keys == arms'.Keys == {DENSE, LEXICAL}
  {
    forall id | MayRead(t, id, p, now) ::
      OfArm(DENSE, arms[DENSE], id) == OfArm(DENSE, arms'[DENSE], id)
      && OfArm(LEXICAL, arms[LEXICAL], id) == OfArm(LEXICAL, arms'[LEXICAL], id)
  }

  lemma {:induction false} SameEntry(t: Tables, arms: Arms, arms': Arms, fused: seq<Fused>, fused': seq<Fused>,
      f: Fused, p: string, now: Temporal.Time)
    requires arms.Keys == arms'.Keys == {DENSE, LEXICAL} && SameForReadable(t, arms, arms', p, now)
    requires Fusion(arms, [DENSE, LEXICAL], fused) && Fusion(arms', [DENSE, LEXICAL], fused')
    requires f in fused && Shown(t, f, p, now)
    ensures f in fused'
  {
    hide OfArm, OfArms, Total, Ordered, Ascending, Readable;
    var names := [DENSE, LEXICAL];
    var i :| 0 <= i < |fused| && fused[i] == f;
    assert Entry(arms, names, fused[i]);
    OfTwoArms(arms, f.id);
    OfTwoArms(arms', f.id);
    var k := ContributionHasArm(arms', names, f.id, f.contributions[0]);
    var j :| 0 <= j < |fused'| && fused'[j].id == f.id;
    assert Entry(arms', names, fused'[j]);
  }

  lemma {:induction false} SameVisible(t: Tables, arms: Arms, arms': Arms, fused: seq<Fused>, fused': seq<Fused>,
                                       p: string, now: Temporal.Time)
    requires arms.Keys == arms'.Keys == {DENSE, LEXICAL} && SameForReadable(t, arms, arms', p, now)
    requires Fusion(arms, [DENSE, LEXICAL], fused) && Fusion(arms', [DENSE, LEXICAL], fused')
    ensures Visible(t, fused, p, now) == Visible(t, fused', p, now)
  {
    hide OfArm, Entry, Visible, Shown, Found, NamesOf;
    var vs, vs' := Visible(t, fused, p, now), Visible(t, fused', p, now);
    forall f ensures f in FusedOf(vs) <==> f in FusedOf(vs') {
      VisibleMembers(t, fused, f, p, now);
      VisibleMembers(t, fused', f, p, now);
      if f in fused && Shown(t, f, p, now) { SameEntry(t, arms, arms', fused, fused', f, p, now); }
      if f in fused' && Shown(t, f, p, now) { SameEntry(t, arms', arms, fused', fused, f, p, now); }
    }
    hide SameForReadable, Fusion;
    OrderedFusion(arms, [DENSE, LEXICAL], fused);
    OrderedFusion(arms', [DENSE, LEXICAL], fused');
    VisibleIsOrdered(t, fused, p, now);
    VisibleIsOrdered(t, fused', p, now);
    SameOrder(FusedOf(vs), FusedOf(vs'));
    SameCandidates(t, fused, fused', p, now);
  }

  lemma {:induction false} SameCandidates(t: Tables, fused: seq<Fused>, fused': seq<Fused>, p: string,
      now: Temporal.Time)
    requires FusedOf(Visible(t, fused, p, now)) == FusedOf(Visible(t, fused', p, now))
    ensures Visible(t, fused, p, now) == Visible(t, fused', p, now)
  {
    hide Visible, Shown;
    var vs, vs' := Visible(t, fused, p, now), Visible(t, fused', p, now);
    assert |vs| == |FusedOf(vs)| == |FusedOf(vs')| == |vs'|;
    forall k | 0 <= k < |vs| ensures vs[k] == vs'[k] {
      VisibleAt(t, fused, k, p, now);
      VisibleAt(t, fused', k, p, now);
      assert FusedOf(vs)[k] == FusedOf(vs')[k];
    }
  }

  // ---------- What it is given ----------

  /** Whatever the limits, the packages are the same. */
  ghost predicate SamePackages(vs: seq<Candidate>, vs': seq<Candidate>) {
    forall limit: nat, budget: nat, count: Counter :: Pack(vs, limit, budget, count) == Pack(vs', limit, budget, count)
  }

  /** With enough room, everything is packed. */
  lemma {:induction false} PackAll(vs: seq<Candidate>, limit: nat)
    requires |vs| <= limit
    ensures var pkg := Pack(vs, limit, 0, None);
            && |pkg.claims| == |vs| && pkg.tokensUsed == 0
            && forall k | 0 <= k < |vs| :: pkg.claims[k] == ScoredOf(None, vs[k])
  {
    hide ScoredOf;
    if vs != [] {
      PackAll(vs[..|vs| - 1], limit);
    }
  }

  lemma {:induction false} SamePackagesIff(t: Tables, t': Tables, fused: seq<Fused>, fused': seq<Fused>, p: string,
      now: Temporal.Time)
    ensures SamePackages(Visible(t, fused, p, now), Visible(t', fused', p, now))
            <==> Visible(t, fused, p, now) == Visible(t', fused', p, now)
  {
    hide Visible, Readable, Pack;
    var vs, vs' := Visible(t, fused, p, now), Visible(t', fused', p, now);
    if SamePackages(vs, vs') {
      var limit := |vs| + |vs'|;
      PackAll(vs, limit);
      PackAll(vs', limit);
      assert Pack(vs, limit, 0, None) == Pack(vs', limit, 0, None);
      forall k | 0 <= k < |vs| ensures vs[k] == vs'[k] {
        assert Pack(vs, limit, 0, None).claims[k] == Pack(vs', limit, 0, None).claims[k];
        VisibleIsReadable(t, fused, p, now, k);
        VisibleIsReadable(t', fused', p, now, k);
      }
    }
  }

  lemma {:induction false} HidingIsInvisible(t: Tables, fused: seq<Fused>, p: string, now: Temporal.Time)
    ensures Visible(TablesWithoutHidden(t, p, now), fused, p, now) == Visible(t, fused, p, now)
  {
    hide Readable;
    SameReadableRows(t, TablesWithoutHidden(t, p, now), fused, p, now);
  }

  lemma {:induction false} NamesAre(arms: Arms, names: seq<string>)
    requires arms.Keys == {DENSE, LEXICAL} && NamesOf(arms, names)
    ensures names == [DENSE, LEXICAL]
  {
    assert Less(DENSE, LEXICAL);
    SameNames(names, [DENSE, LEXICAL]);
  }

  /** If the principal sees the same, what ranks at `k` without hidden rows ranks at `k` with them. */
  lemma {:induction false} SameRank(t: Tables, arms: Arms, arms': Arms, fused: seq<Fused>, fused': seq<Fused>,
      arm: string, k: nat, p: string, now: Temporal.Time)
    requires arms.Keys == arms'.Keys == {DENSE, LEXICAL}
    requires Fusion(arms, [DENSE, LEXICAL], fused) && Fusion(arms', [DENSE, LEXICAL], fused')
    requires Visible(t, fused, p, now) == Visible(t, fused', p, now)
    requires arm in arms && ByPosition(arms[arm]) && ByPosition(arms'[arm])
    requires k < |arms'[arm]| && MayRead(t, arms'[arm][k].id, p, now)
    ensures k < |arms[arm]| && arms[arm][k].id == arms'[arm][k].id
  {
    hide OfArm, OfArms, Total, Ordered, Ascending, Visible, MayRead;
    var names, id := [DENSE, LEXICAL], arms'[arm][k].id;
    assert Found(arms', arm, k, id);
    var j :| 0 <= j < |fused'| && fused'[j].id == id;
    var f := fused'[j];
    assert Entry(arms', names, f);
    VisibleMembers(t, fused, f, p, now);
    VisibleMembers(t, fused', f, p, now);
    var i :| 0 <= i < |fused| && fused[i] == f;
    assert Entry(arms, names, fused[i]);
    var c := Contributed(arm, arms'[arm][k]);
    FoundContributes(arm, arms'[arm], k);
    var a :| 0 <= a < |names| && names[a] == arm;
    ArmContributes(arms', names, a, id, c);
    var r := ContributionHasArm(arms, names, id, c);
  }

  /** Ranked from 1 by position. */
  ghost predicate ByPosition(rs: seq<Ranked>) {
    forall k | 0 <= k < |rs| :: rs[k].rank == k + 1
  }

  lemma {:induction false} SeenImpliesBelow(t: Tables, rows: Rows, depth: nat, arm: string, arms: Arms, arms': Arms,
                                            fused: seq<Fused>, fused': seq<Fused>, p: string, now: Temporal.Time)
    requires arms.Keys == arms'.Keys == {DENSE, LEXICAL}
    requires Fusion(arms, [DENSE, LEXICAL], fused) && Fusion(arms', [DENSE, LEXICAL], fused')
    requires Visible(t, fused, p, now) == Visible(t, fused', p, now)
    requires arm in arms && arms[arm] == Ranks(Top(rows, depth))
        && arms'[arm] == Ranks(Top(ReadableRows(t, rows, p, now), depth))
    ensures HiddenBelow(t, rows, depth, p, now)
  {
    hide Fusion, Visible, MayRead, ReadableRows;
    forall k | 0 <= k < |rows| && k < depth && k < |ReadableRows(t, rows, p, now)|
      ensures MayRead(t, rows[k].0, p, now)
    {
      RowIsReadable(t, rows, k, p, now);
      SameRank(t, arms, arms', fused, fused', arm, k, p, now);
    }
  }

  /** Hidden rows leave no trace in any package exactly when, in both searches, they rank below the readable
      rows that would be returned without them. `fused` and `fused'` are what fusing with and without them gives. */
  lemma {:induction false} HiddenRowsLeaveNoTraceIff(t: Tables, r: Rankings, depth: nat, p: string, now: Temporal.Time,
      names: seq<string>, fused: seq<Fused>, names': seq<string>, fused': seq<Fused>)
    requires Fusion(ArmsOf(r, depth), names, fused)
    requires Fusion(ArmsOf(RankingsWithoutHidden(t, r, p, now), depth), names', fused')
    ensures SamePackages(Visible(t, fused, p, now), Visible(TablesWithoutHidden(t, p, now), fused', p, now))
            <==> HiddenBelow(t, r.dense, depth, p, now) && HiddenBelow(t, r.lexical, depth, p, now)
    ensures HiddenBelow(t, r.dense, depth, p, now) && HiddenBelow(t, r.lexical, depth, p, now) ==>
              |Visible(t, fused, p, now)| == |Visible(TablesWithoutHidden(t, p, now), fused', p, now)|
  {
    hide Visible, HiddenBelow, SamePackages, TablesWithoutHidden, MayRead, ReadableRows, Top, OfArm;
    var arms, arms' := ArmsOf(r, depth), ArmsOf(RankingsWithoutHidden(t, r, p, now), depth);
    assert arms.Keys == arms'.Keys == {DENSE, LEXICAL};
    NamesAre(arms, names);
    NamesAre(arms', names');
    hide Fusion;
    SamePackagesIff(t, TablesWithoutHidden(t, p, now), fused, fused', p, now);
    HidingIsInvisible(t, fused', p, now);
    if HiddenBelow(t, r.dense, depth, p, now) && HiddenBelow(t, r.lexical, depth, p, now) {
      forall id | MayRead(t, id, p, now)
        ensures OfArm(DENSE, arms[DENSE], id) == OfArm(DENSE, arms'[DENSE], id)
                && OfArm(LEXICAL, arms[LEXICAL], id) == OfArm(LEXICAL, arms'[LEXICAL], id)
      {
        SameContributions(t, r.dense, depth, DENSE, id, p, now);
        SameContributions(t, r.lexical, depth, LEXICAL, id, p, now);
      }
      SameVisible(t, arms, arms', fused, fused', p, now);
    }
    if Visible(t, fused, p, now) == Visible(t, fused', p, now) {
      SeenImpliesBelow(t, r.dense, depth, DENSE, arms, arms', fused, fused', p, now);
      SeenImpliesBelow(t, r.lexical, depth, LEXICAL, arms, arms', fused, fused', p, now);
    }
  }

  // ---------- A hidden row decides what is returned ----------

  const SAMPLE := Rankings([("h", 0.0), ("a", 0.0)], [("b", 0.0)])

  /** "h" may not be read; it stands first in the dense search. */
  ghost predicate SampleTables(t: Tables, p: string, now: Temporal.Time) {
    MayRead(t, "a", p, now) && MayRead(t, "b", p, now) && !MayRead(t, "h", p, now)
  }

  /** Such tables: three claims share the evidence that everyone may read, and "h" has no grants of its own. */
  lemma SampleTablesExist() returns (t: Tables)
    ensures t.claims.Keys == t.evidence.Keys == {"a", "b", "h"}
    ensures t.evidence["a"] == t.evidence["b"] == t.evidence["h"]
    ensures SampleTables(t, "reader", 1)
  {
    var row, e, everyone := ClaimRow("s", 0), [EvidenceRow("e", "text")], [Grant("reader", 0)];
    t := Tables(map["a" := row, "b" := row, "h" := row], map["a" := e, "b" := e, "h" := e],
                map["a" := everyone, "b" := everyone], map["e" := everyone]);
    forall id | id == "a" || id == "b" ensures MayRead(t, id, "reader", 1) {
      assert Current(everyone[0], 1) && everyone[0] in everyone;
      assert everyone[0].principal == "reader";
      assert Admits(everyone, "reader", 1);
      JoinedBy(t, id);
      assert t.evidence[id] == e && t.claimGrants[id] == everyone;
      assert e[0].id == "e" && GrantsOf(t.evidenceGrants, e[0].id) == everyone;
      assert EvidenceOf(t, id)[0].acl == everyone;
    }
  }

  /** The identifier that a limit of one lets through. */
  ghost predicate OnlyReturned(vs: seq<Candidate>, id: string) {
    forall budget: nat :: |Pack(vs, 1, budget, None).claims| == 1 && Pack(vs, 1, budget, None).claims[0].claim.id == id
  }

  lemma {:induction false} FirstIsReturned(vs: seq<Candidate>, budget: nat)
    requires vs != []
    ensures Pack(vs, 1, budget, None).claims == [ScoredOf(None, vs[0])] && Pack(vs, 1, budget, None).tokensUsed == 0
  {
    hide ScoredOf;
    if |vs| == 1 {
      assert vs[..0] == [];
    } else {
      FirstIsReturned(vs[..|vs| - 1], budget);
    }
  }

  /** Of two readable results the one that the other does not precede is seen first. */
  lemma {:induction false} FirstSeen(t: Tables, arms: Arms, fused: seq<Fused>, x: string, y: string, arm: string,
                                     p: string, now: Temporal.Time)
    requires arms.Keys == {DENSE, LEXICAL} && Fusion(arms, [DENSE, LEXICAL], fused)
    requires MayRead(t, x, p, now) && Found(arms, arm, 0, x)
    requires forall arm, k, id | Found(arms, arm, k, id) && MayRead(t, id, p, now) :: id == x || id == y
    requires forall f, g | f in fused && g in fused && f.id == x && g.id == y :: !Before(g, f)
    ensures Visible(t, fused, p, now) != [] && Visible(t, fused, p, now)[0].claim.id == x
  {
    hide OfArm, OfArms, Total, Ascending, Visible, MayRead, Before, Ordered, Found;
    var vs := Visible(t, fused, p, now);
    var i :| 0 <= i < |fused| && fused[i].id == x;
    var k := ShownIsVisible(t, fused, i, p, now);
    VisibleIsReadable(t, fused, p, now, 0);
    var f := vs[0].fused;
    var j :| 0 <= j < |fused| && fused[j] == f;
    assert Entry(arms, [DENSE, LEXICAL], fused[j]);
    var r := ContributionHasArm(arms, [DENSE, LEXICAL], f.id, f.contributions[0]);
    VisibleAt(t, fused, 0, p, now);
    if f.id != x {
      assert f.id == y;
      OrderedFusion(arms, [DENSE, LEXICAL], fused);
      VisibleInOrder(t, fused, p, now, 0, k);
    }
  }

  function SampleArms(hidden: bool): Arms {
    map[DENSE := if hidden then [Ranked("h", 1, 0.0), Ranked("a", 2, 0.0)] else [Ranked("a", 1, 0.0)],
        LEXICAL := [Ranked("b", 1, 0.0)]]
  }

  lemma {:induction false} SampleArmsAre(t: Tables, p: string, now: Temporal.Time)
    requires SampleTables(t, p, now)
    ensures ArmsOf(SAMPLE, 50) == SampleArms(true)
    ensures ArmsOf(RankingsWithoutHidden(t, SAMPLE, p, now), 50) == SampleArms(false)
  {
    hide MayRead;
    var d, l := SAMPLE.dense, SAMPLE.lexical;
    assert d[..1] == [("h", 0.0)] && d[..1][..0] == [] && l[..0] == [];
    assert ReadableRows(t, d[..1], p, now) == [];
    assert ReadableRows(t, d, p, now) == [("a", 0.0)] && ReadableRows(t, l, p, now) == [("b", 0.0)];
    assert Ranks(d) == SampleArms(true)[DENSE] && Ranks(l) == SampleArms(true)[LEXICAL];
    assert Ranks([("a", 0.0)]) == SampleArms(false)[DENSE];
  }

  /** With the hidden row "b" scores higher than "a"; without it they tie, and "a" comes first. */
  lemma {:induction false} SampleScores(hidden: bool, a: Fused, b: Fused)
    requires Entry(SampleArms(hidden), [DENSE, LEXICAL], a) && a.id == "a"
    requires Entry(SampleArms(hidden), [DENSE, LEXICAL], b) && b.id == "b"
    ensures if hidden then !Before(a, b) else !Before(b, a)
  {
    hide OfArms, OfArm, Total, Share;
    var arms := SampleArms(hidden);
    assert |DENSE| != |LEXICAL| && arms.Keys == {DENSE, LEXICAL} && Less(DENSE, LEXICAL);
    assert NamesOf(arms, [DENSE, LEXICAL]);
    assert Once(arms[DENSE]) && Once(arms[LEXICAL]);
    ScoreOfTwoArms(arms, [DENSE, LEXICAL], a);
    ScoreOfTwoArms(arms, [DENSE, LEXICAL], b);
    assert Found(arms, DENSE, if hidden then 1 else 0, "a") && Found(arms, LEXICAL, 0, "b");
    assert !FoundBy(arms, LEXICAL, "a") && !FoundBy(arms, DENSE, "b");
    var ad := ShareOfArm(arms, DENSE, "a");
    var al := ShareOfArm(arms, LEXICAL, "a");
    var bd := ShareOfArm(arms, DENSE, "b");
    var bl := ShareOfArm(arms, LEXICAL, "b");
  }

  lemma {:induction false} SampleFound(hidden: bool)
    ensures SampleArms(hidden).Keys == {DENSE, LEXICAL}
    ensures Found(SampleArms(hidden), LEXICAL, 0, "b") && Found(SampleArms(false), DENSE, 0, "a")
    ensures forall arm, k, id | Found(SampleArms(hidden), arm, k, id) :: id == "h" || id == "a" || id == "b"
  {
    assert |DENSE| != |LEXICAL|;
  }

  lemma {:induction false} SampleFirst(t: Tables, hidden: bool, fused: seq<Fused>, p: string, now: Temporal.Time)
    requires SampleTables(t, p, now) && Fusion(SampleArms(hidden), [DENSE, LEXICAL], fused)
    ensures Visible(t, fused, p, now) != []
    ensures Visible(t, fused, p, now)[0].claim.id == if hidden then "b" else "a"
  {
    var arms := SampleArms(hidden);
    SampleFound(hidden);
    hide MayRead, Before, OfArms, Total, Ordered, Found, SampleArms, Visible;
    var x, y := if hidden then "b" else "a", if hidden then "a" else "b";
    forall f, g | f in fused && g in fused && f.id == x && g.id == y ensures !Before(g, f) {
      var i :| 0 <= i < |fused| && fused[i] == f;
      var j :| 0 <= j < |fused| && fused[j] == g;
      assert Entry(arms, [DENSE, LEXICAL], fused[i]) && Entry(arms, [DENSE, LEXICAL], fused[j]);
      if hidden { SampleScores(hidden, g, f); } else { SampleScores(hidden, f, g); }
    }
    FirstSeen(t, arms, fused, x, y, if hidden then LEXICAL else DENSE, p, now);
  }

  /** A leak: a recall limited to one claim returns "b" when the hidden row is there, and "a" when it is not. */
  lemma {:induction false} HiddenRowDecides(t: Tables, p: string, now: Temporal.Time)
    requires SampleTables(t, p, now)
    ensures forall names, fused | Fusion(ArmsOf(SAMPLE, 50), names, fused) ::
        OnlyReturned(Visible(t, fused, p, now), "b")
    ensures forall names, fused | Fusion(ArmsOf(RankingsWithoutHidden(t, SAMPLE, p, now), 50), names, fused) ::
              OnlyReturned(Visible(TablesWithoutHidden(t, p, now), fused, p, now), "a")
  {
    SampleArmsAre(t, p, now);
    SampleFound(true);
    SampleFound(false);
    hide MayRead, Visible, SampleArms, ArmsOf, RankingsWithoutHidden, TablesWithoutHidden, Found;
    forall names, fused | Fusion(SampleArms(true), names, fused) ensures OnlyReturned(Visible(t, fused, p, now), "b") {
      NamesAre(SampleArms(true), names);
      SampleFirst(t, true, fused, p, now);
      FirstOnly(Visible(t, fused, p, now));
    }
    forall names, fused | Fusion(SampleArms(false), names, fused)
      ensures OnlyReturned(Visible(TablesWithoutHidden(t, p, now), fused, p, now), "a")
    {
      NamesAre(SampleArms(false), names);
      SampleFirst(t, false, fused, p, now);
      HidingIsInvisible(t, fused, p, now);
      FirstOnly(Visible(t, fused, p, now));
    }
  }

  lemma {:induction false} FirstOnly(vs: seq<Candidate>)
    requires vs != []
    ensures OnlyReturned(vs, vs[0].claim.id)
  {
    forall budget: nat ensures Pack(vs, 1, budget, None).claims == [ScoredOf(None, vs[0])] {
      FirstIsReturned(vs, budget);
    }
  }
}
