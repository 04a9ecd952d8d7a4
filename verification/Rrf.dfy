/** Reciprocal rank fusion. Scores are exact reals. */
module Rrf {
  import opened Strings

  datatype Ranked = Ranked(id: string, rank: int, raw: real)

  datatype Contribution = Contribution(arm: string, rank: int, raw: real, score: real)

  datatype Fused = Fused(id: string, score: real, contributions: seq<Contribution>)

  type Arms = map<string, seq<Ranked>>

  const K: real := 60.0

  function Reciprocal(rank: int): real
    requires rank >= 1
  {
    1.0 / (K + rank as real)
  }

  // ---------- What a fused list is ----------

  function Contributed(arm: string, r: Ranked): Contribution
    requires r.rank >= 1
  {
    Contribution(arm, r.rank, r.raw, Reciprocal(r.rank))
  }

  /** What one arm contributes to `id`, in the arm's order. Ranks below 1 contribute nothing. */
  function OfArm(arm: string, rs: seq<Ranked>, id: string): seq<Contribution> {
    if rs == [] then []
    else
      var n := |rs| - 1;
      OfArm(arm, rs[..n], id) + if rs[n].id == id && rs[n].rank >= 1 then [Contributed(arm, rs[n])] else []
  }

  function OfArms(arms: Arms, names: seq<string>, id: string): seq<Contribution>
    requires forall name <- names :: name in arms
  {
    if names == [] then []
    else
      var n := |names| - 1;
      OfArms(arms, names[..n], id) + OfArm(names[n], arms[names[n]], id)
  }

  function Total(cs: seq<Contribution>): real {
    if cs == [] then 0.0 else Total(cs[..|cs| - 1]) + cs[|cs| - 1].score
  }

  /** Higher scores first, ties by identifier. */
  predicate Before(a: Fused, b: Fused) {
    if a.score != b.score then a.score > b.score else Less(a.id, b.id)
  }

  ghost predicate Ascending(names: seq<string>) {
    forall i, j | 0 <= i < j < |names| :: Less(names[i], names[j])
  }

  ghost predicate Ordered(out: seq<Fused>) {
    forall i, j | 0 <= i < j < |out| :: Before(out[i], out[j])
  }

  ghost predicate NamesOf(arms: Arms, names: seq<string>) {
    Ascending(names) && forall name :: name in names <==> name in arms
  }

  predicate Found(arms: Arms, arm: string, k: int, id: string) {
    arm in arms && 0 <= k < |arms[arm]| && arms[arm][k].id == id && arms[arm][k].rank >= 1
  }

  ghost predicate Entry(arms: Arms, names: seq<string>, f: Fused)
    requires forall name <- names :: name in arms
  {
    f.contributions == OfArms(arms, names, f.id) != [] && f.score == Total(f.contributions)
  }

  /** Strictly ordered; each identifier some arm found at a valid rank appears, with what it got from each arm. */
  ghost predicate Fusion(arms: Arms, names: seq<string>, out: seq<Fused>) {
    && NamesOf(arms, names) && Ordered(out)
    && (forall i | 0 <= i < |out| :: Entry(arms, names, out[i]))
    && (forall arm, k, id | Found(arms, arm, k, id) :: exists i :: 0 <= i < |out| && out[i].id == id)
  }

  // ---------- Fusion ----------

  function Got(m: map<string, Fused>, id: string): seq<Contribution> {
    if id in m then m[id].contributions else []
  }

  ghost predicate Sums(m: map<string, Fused>) {
    forall id <- m :: m[id].id == id && m[id].contributions != [] && m[id].score == Total(m[id].contributions)
  }

  /** The keys in ascending order. */
  method SortedNames(keys: set<string>) returns (names: seq<string>)
    ensures Ascending(names) && forall name :: name in names <==> name in keys
  {
    names := [];
    var rest := keys;
    while rest != {}
      invariant rest <= keys && Ascending(names)
      invariant forall name :: name in names <==> name in keys && name !in rest
      decreases |rest|
    {
      var name :| name in rest;
      rest := rest - {name};
      var k := 0;
      while k < |names| && Less(names[k], name)
        invariant 0 <= k <= |names|
        invariant forall i | 0 <= i < k :: Less(names[i], name)
      {
        k := k + 1;
      }
      InsertName(names, name, k);
      names := names[..k] + [name] + names[k..];
    }
  }

  lemma {:induction false} InsertName(names: seq<string>, name: string, k: nat)
    requires Ascending(names) && name !in names && k <= |names|
    requires forall i | 0 <= i < k :: Less(names[i], name)
    requires k < |names| ==> !Less(names[k], name)
    ensures Ascending(names[..k] + [name] + names[k..])
    ensures forall x :: x in names[..k] + [name] + names[k..] <==> x in names || x == name
  {
    assert names == names[..k] + names[k..];
    if k < |names| {
      LessTotal(name, names[k]);
      forall j | k < j < |names| ensures Less(name, names[j]) {
        LessTrans(name, names[k], names[j]);
      }
    }
  }

  lemma BeforeTotal(a: Fused, b: Fused)
    ensures Before(a, b) || Before(b, a) || (a.score == b.score && a.id == b.id)
    ensures !(Before(a, b) && Before(b, a)) && !Before(a, a)
  {
    LessTotal(a.id, b.id);
    LessTotal(a.id, a.id);
  }

  lemma BeforeTrans(a: Fused, b: Fused, c: Fused)
    requires Before(a, b) && Before(b, c)
    ensures Before(a, c)
  {
    if Less(a.id, b.id) && Less(b.id, c.id) {
      LessTrans(a.id, b.id, c.id);
    }
  }

  lemma {:induction false} InsertFused(out: seq<Fused>, f: Fused, k: nat)
    requires Ordered(out) && k <= |out| && forall i | 0 <= i < |out| :: out[i].id != f.id
    requires forall i | 0 <= i < k :: Before(out[i], f)
    requires k < |out| ==> !Before(out[k], f)
    ensures Ordered(out[..k] + [f] + out[k..])
    ensures forall x :: x in out[..k] + [f] + out[k..] <==> x in out || x == f
  {
    assert out == out[..k] + out[k..];
    if k < |out| {
      BeforeTotal(f, out[k]);
      forall j | k < j < |out| ensures Before(f, out[j]) {
        BeforeTrans(f, out[k], out[j]);
      }
    }
  }

  /** The values of a map, sorted, whatever the order the map hands them over in. */
  method SortedValues(byID: map<string, Fused>) returns (out: seq<Fused>)
    requires Sums(byID)
    ensures Ordered(out) && forall f :: f in out <==> f.id in byID && f == byID[f.id]
  {
    out := [];
    var rest := byID.Keys;
    while rest != {}
      invariant rest <= byID.Keys && Ordered(out)
      invariant forall f :: f in out <==> f.id in byID && f == byID[f.id] && f.id !in rest
      decreases |rest|
    {
      var id :| id in rest;
      rest := rest - {id};
      var f := byID[id];
      var k := 0;
      while k < |out| && Before(out[k], f)
        invariant 0 <= k <= |out|
        invariant forall i | 0 <= i < k :: Before(out[i], f)
      {
        k := k + 1;
      }
      assert forall i | 0 <= i < |out| :: out[i] in out;
      InsertFused(out, f, k);
      out := out[..k] + [f] + out[k..];
    }
  }

  /** The state of the two loops: arms before `a` are in, and the first `k` results of arm `a`. */
  ghost predicate Fusing(arms: Arms, names: seq<string>, a: nat, k: nat, m: map<string, Fused>)
    requires a < |names| && (forall name <- names :: name in arms) && k <= |arms[names[a]]|
  {
    && Sums(m)
    && forall id :: Got(m, id) == OfArms(arms, names[..a], id) + OfArm(names[a], arms[names[a]][..k], id)
  }

  /** The first `a` arms are in. */
  ghost predicate FusedArms(arms: Arms, names: seq<string>, a: nat, m: map<string, Fused>)
    requires a <= |names| && forall name <- names :: name in arms
  {
    Sums(m) && forall id :: Got(m, id) == OfArms(arms, names[..a], id)
  }

  lemma {:induction false} FusingNext(arms: Arms, names: seq<string>, a: nat, k: nat, m: map<string, Fused>,
      m': map<string, Fused>)
    requires a < |names| && (forall name <- names :: name in arms) && k < |arms[names[a]]|
        && Fusing(arms, names, a, k, m)
    requires var r := arms[names[a]][k];
             if r.rank < 1 then m' == m
             else var f := if r.id in m then m[r.id] else Fused(r.id, 0.0, []);
                  var c := Contributed(names[a], r);
                  m' == m[r.id := Fused(f.id, f.score + c.score, f.contributions + [c])]
    ensures Fusing(arms, names, a, k + 1, m')
  {
    hide OfArm, OfArms, Total;
    var rs, name := arms[names[a]], names[a];
    var r := rs[k];
    NextRank(name, rs, k);
    if r.rank >= 1 {
      NextTotal(Got(m, r.id), Contributed(name, r));
      forall id ensures Got(m', id) == OfArms(arms, names[..a], id) + OfArm(name, rs[..k + 1], id) {
        assert Got(m, id) == OfArms(arms, names[..a], id) + OfArm(name, rs[..k], id);
      }
    }
  }

  method FuseRRF(arms: Arms) returns (out: seq<Fused>)
    ensures exists names :: Fusion(arms, names, out)
    ensures FusedList(arms, out)
  {
    hide FusedList, Total, OfArm, OfArms, Ordered, Ascending, Less, Fusion, Fusing, FusedArms, Reciprocal,
      Before;
    var sorted := SortedNames(arms.Keys);
    var byID: map<string, Fused> := map[];
    NothingFused(arms, sorted);
    for a := 0 to |sorted|
      invariant FusedArms(arms, sorted, a, byID)
    {
      var name := sorted[a];
      FusingArm(arms, sorted, a, byID);
      for k := 0 to |arms[name]|
        invariant Fusing(arms, sorted, a, k, byID)
      {
        var r := arms[name][k];
        ghost var was := byID;
        if r.rank >= 1 {
          var score := Reciprocal(r.rank);
          var f := if r.id in byID then byID[r.id] else Fused(r.id, 0.0, []);
          var c := Contribution(name, r.rank, r.raw, score);
          byID := byID[r.id := Fused(f.id, f.score + score, f.contributions + [c])];
        }
        FusingNext(arms, sorted, a, k, was, byID);
      }
      FusedArm(arms, sorted, a, byID);
    }
    AllFused(arms, sorted, byID);
    out := SortedValues(byID);
    FuseEnds(arms, sorted, byID, out);
  }

  lemma {:induction false} FuseEnds(arms: Arms, names: seq<string>, byID: map<string, Fused>, out: seq<Fused>)
    requires NamesOf(arms, names) && FusedArms(arms, names, |names|, byID)
    requires Ordered(out) && forall f :: f in out <==> f.id in byID && f == byID[f.id]
    ensures (exists names :: Fusion(arms, names, out)) && FusedList(arms, out)
  {
    hide Fusion, FusedList, OfArms, Ordered, NamesOf;
    assert names[..|names|] == names;
    FuseCovers(arms, names, byID, out);
    FusionIsList(arms, names, out);
  }

  lemma {:induction false} FusingArm(arms: Arms, names: seq<string>, a: nat, m: map<string, Fused>)
    requires a < |names| && (forall name <- names :: name in arms) && FusedArms(arms, names, a, m)
    ensures Fusing(arms, names, a, 0, m)
  {
  }

  lemma {:induction false} FusedArm(arms: Arms, names: seq<string>, a: nat, m: map<string, Fused>)
    requires a < |names| && (forall name <- names :: name in arms) && Fusing(arms, names, a, |arms[names[a]]|, m)
    ensures FusedArms(arms, names, a + 1, m)
  {
    hide OfArm, OfArms;
    NextArm(arms, names, a);
    var rs := arms[names[a]];
    assert rs[..|rs|] == rs;
  }

  lemma NothingFused(arms: Arms, names: seq<string>)
    requires forall name <- names :: name in arms
    ensures FusedArms(arms, names, 0, map[])
  {
    NoArms(arms);
    assert names[..0] == [];
  }

  lemma AllFused(arms: Arms, names: seq<string>, m: map<string, Fused>)
    requires (forall name <- names :: name in arms) && FusedArms(arms, names, |names|, m)
    ensures Sums(m)
  {
  }

  lemma NoArms(arms: Arms)
    ensures Total([]) == 0.0 && forall id :: OfArms(arms, [], id) == []
  {
  }

  lemma NoRanks(arm: string, rs: seq<Ranked>)
    ensures Total([]) == 0.0 && forall id :: OfArm(arm, rs[..0], id) == []
  {
  }

  lemma NextRank(arm: string, rs: seq<Ranked>, k: nat)
    requires k < |rs|
    ensures forall id :: OfArm(arm, rs[..k + 1], id)
                         == OfArm(arm, rs[..k], id)
                            + if rs[k].id == id && rs[k].rank >= 1 then [Contributed(arm, rs[k])] else []
  {
    assert rs[..k + 1][..k] == rs[..k];
  }

  lemma NextArm(arms: Arms, names: seq<string>, a: nat)
    requires a < |names| && forall name <- names :: name in arms
    ensures forall id ::
              OfArms(arms, names[..a + 1], id) == OfArms(arms, names[..a], id) + OfArm(names[a], arms[names[a]], id)
  {
    assert names[..a + 1][..a] == names[..a];
  }

  lemma NextTotal(cs: seq<Contribution>, c: Contribution)
    ensures Total(cs + [c]) == Total(cs) + c.score
    ensures Total([]) == 0.0
  {
  }

  lemma {:induction false} FoundContributes(arm: string, rs: seq<Ranked>, k: nat)
    requires k < |rs| && rs[k].rank >= 1
    ensures Contributed(arm, rs[k]) in OfArm(arm, rs, rs[k].id)
  {
    var n := |rs| - 1;
    if k < n {
      FoundContributes(arm, rs[..n], k);
    }
  }

  lemma {:induction false} ArmContributes(arms: Arms, names: seq<string>, a: nat, id: string, c: Contribution)
    requires forall name <- names :: name in arms
    requires a < |names| && c in OfArm(names[a], arms[names[a]], id)
    ensures c in OfArms(arms, names, id)
  {
    var n := |names| - 1;
    if a < n {
      ArmContributes(arms, names[..n], a, id, c);
    }
  }

  lemma {:induction false} FuseCovers(arms: Arms, names: seq<string>, byID: map<string, Fused>, out: seq<Fused>)
    requires NamesOf(arms, names) && Sums(byID) && forall id :: Got(byID, id) == OfArms(arms, names, id)
    requires Ordered(out) && forall f :: f in out <==> f.id in byID && f == byID[f.id]
    ensures Fusion(arms, names, out)
  {
    hide Ordered, OfArm, OfArms, Ascending;
    forall i | 0 <= i < |out| ensures Entry(arms, names, out[i]) {
      assert out[i] in out;
      assert Got(byID, out[i].id) == out[i].contributions;
    }
    forall arm, k, id | Found(arms, arm, k, id) ensures exists i :: 0 <= i < |out| && out[i].id == id {
      FoundContributes(arm, arms[arm], k);
      var a :| 0 <= a < |names| && names[a] == arm;
      ArmContributes(arms, names, a, id, Contributed(arm, arms[arm][k]));
      assert Got(byID, id) == OfArms(arms, names, id);
      assert byID[id] in out;
      var i :| 0 <= i < |out| && out[i] == byID[id];
    }
  }

  // ---------- What a fused list says ----------

  /** A result of one arm. */
  datatype Place = Place(arm: string, k: int)

  predicate EarlierPlace(a: Place, b: Place) {
    Less(a.arm, b.arm) || (a.arm == b.arm && a.k < b.k)
  }

  /** One over sixty plus the rank. */
  ghost predicate EarnedAt(arms: Arms, id: string, c: Contribution, at: Place) {
    && Found(arms, at.arm, at.k, id)
    && var r := arms[at.arm][at.k]; c == Contribution(at.arm, r.rank, r.raw, 1.0 / (60.0 + r.rank as real))
  }

  /** The contributions are what the identifier earned at all places with a valid rank, arm by arm in order. */
  ghost predicate Earned(arms: Arms, id: string, cs: seq<Contribution>, ps: seq<Place>) {
    && |ps| == |cs| && (forall i | 0 <= i < |ps| :: EarnedAt(arms, id, cs[i], ps[i]))
    && (forall i, j | 0 <= i < j < |ps| :: EarlierPlace(ps[i], ps[j]))
    && (forall arm, k | Found(arms, arm, k, id) :: Place(arm, k) in ps)
  }

  ghost predicate EarnedSomehow(arms: Arms, f: Fused) {
    exists ps :: Earned(arms, f.id, f.contributions, ps)
  }

  /** The list: higher sums of contributions first, then lesser identifiers; whatever some arm found is there. */
  ghost predicate FusedList(arms: Arms, out: seq<Fused>) {
    && (forall i | 0 <= i < |out| :: out[i].contributions != [] && out[i].score == Total(out[i].contributions))
    && (forall i | 0 <= i < |out| :: EarnedSomehow(arms, out[i]))
    && (forall i, j | 0 <= i < j < |out| ::
          out[i].score > out[j].score || (out[i].score == out[j].score && Less(out[i].id, out[j].id)))
    && (forall arm, k, id | Found(arms, arm, k, id) :: exists i :: 0 <= i < |out| && out[i].id == id)
  }

  /** As `Earned`, up to result `n` of one arm. */
  ghost predicate EarnedIn(arms: Arms, arm: string, n: nat, id: string, cs: seq<Contribution>, ps: seq<Place>) {
    && |ps| == |cs| && (forall i | 0 <= i < |ps| :: EarnedAt(arms, id, cs[i], ps[i]))
    && (forall i | 0 <= i < |ps| :: ps[i].arm == arm && ps[i].k < n)
    && (forall i, j | 0 <= i < j < |ps| :: ps[i].k < ps[j].k)
    && (forall k | k < n && Found(arms, arm, k, id) :: Place(arm, k) in ps)
  }

  lemma {:induction false} ArmEarns(arms: Arms, arm: string, n: nat, id: string) returns (ps: seq<Place>)
    requires arm in arms && n <= |arms[arm]|
    ensures EarnedIn(arms, arm, n, id, OfArm(arm, arms[arm][..n], id), ps)
  {
    hide EarnedAt, EarnedIn;
    ps := [];
    if n == 0 {
      NothingEarned(arms, arm, id);
    } else {
      var was := ArmEarns(arms, arm, n - 1, id);
      NextRank(arm, arms[arm], n - 1);
      hide OfArm;
      ps := was + if Found(arms, arm, n - 1, id) then [Place(arm, n - 1)] else [];
      NextEarned(arms, arm, n - 1, id, OfArm(arm, arms[arm][..n - 1], id), was);
    }
  }

  lemma NothingEarned(arms: Arms, arm: string, id: string)
    requires arm in arms
    ensures EarnedIn(arms, arm, 0, id, OfArm(arm, arms[arm][..0], id), [])
  {
  }

  lemma {:induction false} NextEarned(arms: Arms, arm: string, n: nat, id: string, cs: seq<Contribution>,
      ps: seq<Place>)
    requires arm in arms && n < |arms[arm]| && EarnedIn(arms, arm, n, id, cs, ps)
    ensures var r := arms[arm][n];
            if r.id == id && r.rank >= 1
            then EarnedIn(arms, arm, n + 1, id, cs + [Contributed(arm, r)], ps + [Place(arm, n)])
            else EarnedIn(arms, arm, n + 1, id, cs + [], ps + [])
  {
    assert cs + [] == cs && ps + [] == ps;
    if Found(arms, arm, n, id) {
      assert EarnedAt(arms, id, Contributed(arm, arms[arm][n]), Place(arm, n));
      hide EarnedAt;
      var more := ps + [Place(arm, n)];
      forall k | k < n + 1 && Found(arms, arm, k, id) ensures Place(arm, k) in more {
        if k == n { assert more[|ps|] == Place(arm, n); } else { assert Place(arm, k) in ps; }
      }
    }
  }

  /** As `Earned`, for the first `a` arms. */
  ghost predicate EarnedBy(arms: Arms, names: seq<string>, a: nat, id: string, cs: seq<Contribution>, ps: seq<Place>)
    requires a <= |names|
  {
    && |ps| == |cs| && (forall i | 0 <= i < |ps| :: EarnedAt(arms, id, cs[i], ps[i]) && ps[i].arm in names[..a])
    && (forall i, j | 0 <= i < j < |ps| :: EarlierPlace(ps[i], ps[j]))
    && (forall arm, k | arm in names[..a] && Found(arms, arm, k, id) :: Place(arm, k) in ps)
  }

  lemma {:induction false} ArmsEarn(arms: Arms, names: seq<string>, a: nat, id: string) returns (ps: seq<Place>)
    requires a <= |names| && Ascending(names) && forall name <- names :: name in arms
    ensures EarnedBy(arms, names, a, id, OfArms(arms, names[..a], id), ps)
  {
    ps := [];
    if a > 0 {
      var was := ArmsEarn(arms, names, a - 1, id);
      var more := ArmEarns(arms, names[a - 1], |arms[names[a - 1]]|, id);
      NextArm(arms, names, a - 1);
      assert arms[names[a - 1]][..|arms[names[a - 1]]|] == arms[names[a - 1]];
      hide OfArm, OfArms;
      ps := JoinEarned(arms, names, a, id, OfArms(arms, names[..a - 1], id), was,
                       OfArm(names[a - 1], arms[names[a - 1]], id), more);
    }
  }

  lemma {:induction false} JoinEarned(arms: Arms, names: seq<string>, a: nat, id: string, cs: seq<Contribution>,
      was: seq<Place>, ds: seq<Contribution>, more: seq<Place>) returns (ps: seq<Place>)
    requires 0 < a <= |names| && Ascending(names) && (forall name <- names :: name in arms)
    requires EarnedBy(arms, names, a - 1, id, cs, was)
    requires EarnedIn(arms, names[a - 1], |arms[names[a - 1]]|, id, ds, more)
    ensures EarnedBy(arms, names, a, id, cs + ds, ps)
  {
    hide EarnedAt, Less;
    ps := was + more;
    assert names[..a] == names[..a - 1] + [names[a - 1]];
    forall i, j | 0 <= i < j < |ps| ensures EarlierPlace(ps[i], ps[j]) {
      if i < |was| <= j {
        var b :| 0 <= b < a - 1 && names[b] == was[i].arm;
        assert Less(names[b], names[a - 1]);
      }
    }
    forall arm, k | arm in names[..a] && Found(arms, arm, k, id) ensures Place(arm, k) in ps {
      assert arm in names[..a - 1] || arm == names[a - 1];
      assert Place(arm, k) in was || Place(arm, k) in more;
    }
    forall i | 0 <= i < |ps| ensures EarnedAt(arms, id, (cs + ds)[i], ps[i]) && ps[i].arm in names[..a] {
      if i >= |was| {
        assert EarnedAt(arms, id, ds[i - |was|], more[i - |was|]) && more[i - |was|].arm == names[a - 1];
      } else {
        assert EarnedAt(arms, id, cs[i], was[i]) && was[i].arm in names[..a - 1];
      }
    }
  }

  lemma {:induction false} FusionIsList(arms: Arms, names: seq<string>, out: seq<Fused>)
    requires Fusion(arms, names, out)
    ensures FusedList(arms, out)
  {
    hide OfArms, OfArm, Total, Less, Earned;
    forall i | 0 <= i < |out|
      ensures out[i].contributions != [] && out[i].score == Total(out[i].contributions)
      ensures EarnedSomehow(arms, out[i])
    {
      assert Entry(arms, names, out[i]);
      var ps := EntryIsEarned(arms, names, out[i]);
    }
    forall i, j | 0 <= i < j < |out|
      ensures out[i].score > out[j].score || (out[i].score == out[j].score && Less(out[i].id, out[j].id))
    {
      assert Before(out[i], out[j]);
    }
  }

  lemma {:induction false} EntryIsEarned(arms: Arms, names: seq<string>, f: Fused) returns (ps: seq<Place>)
    requires NamesOf(arms, names) && Entry(arms, names, f)
    ensures Earned(arms, f.id, f.contributions, ps)
  {
    ps := ArmsEarn(arms, names, |names|, f.id);
    assert names[..|names|] == names;
    hide OfArms, OfArm, Total, EarnedAt, EarlierPlace;
    forall arm, k | Found(arms, arm, k, f.id) ensures Place(arm, k) in ps {
      assert arm in names;
    }
  }

  // ---------- The fused list is a function of the ranks alone ----------

  lemma {:induction false} SameNames(a: seq<string>, b: seq<string>)
    requires Ascending(a) && Ascending(b) && forall name :: name in a <==> name in b
    ensures a == b
    decreases |a|
  {
    assert b != [] ==> b[0] in b;
    if a != [] {
      assert a[0] in b && b != [] && b[0] in a;
      var i :| 0 <= i < |b| && b[i] == a[0];
      var j :| 0 <= j < |a| && a[j] == b[0];
      LessTotal(a[0], b[0]);
      assert a[0] == b[0];
      forall name ensures name in a[1..] <==> name in b[1..] {
        LessTotal(a[0], a[0]);
        assert name in a[1..] ==> name in a && name != a[0];
        assert name in b[1..] ==> name in b && name != b[0];
      }
      SameNames(a[1..], b[1..]);
      assert a == [a[0]] + a[1..] && b == [b[0]] + b[1..];
    }
  }

  lemma {:induction false} SameOrder(a: seq<Fused>, b: seq<Fused>)
    requires Ordered(a) && Ordered(b) && forall f :: f in a <==> f in b
    ensures a == b
    decreases |a|
  {
    hide Before;
    assert b != [] ==> b[0] in b;
    if a != [] {
      assert a[0] in b && b != [] && b[0] in a;
      var i :| 0 <= i < |b| && b[i] == a[0];
      var j :| 0 <= j < |a| && a[j] == b[0];
      BeforeTotal(a[0], b[0]);
      assert a[0] == b[0];
      forall f ensures f in a[1..] <==> f in b[1..] {
        BeforeTotal(a[0], a[0]);
        assert f in a[1..] ==> f in a && f != a[0];
        assert f in b[1..] ==> f in b && f != b[0];
      }
      SameOrder(a[1..], b[1..]);
      assert a == [a[0]] + a[1..] && b == [b[0]] + b[1..];
    }
  }

  lemma {:induction false} ContributionWasFound(arm: string, rs: seq<Ranked>, id: string, c: Contribution)
    returns (k: nat)
    requires c in OfArm(arm, rs, id)
    ensures k < |rs| && rs[k].id == id && rs[k].rank >= 1 && c == Contributed(arm, rs[k])
  {
    var n := |rs| - 1;
    if c in OfArm(arm, rs[..n], id) {
      k := ContributionWasFound(arm, rs[..n], id, c);
    } else {
      k := n;
    }
  }

  lemma {:induction false} ContributionHasArm(arms: Arms, names: seq<string>, id: string, c: Contribution)
    returns (k: nat)
    requires (forall name <- names :: name in arms) && c in OfArms(arms, names, id)
    ensures Found(arms, c.arm, k, id) && c == Contributed(c.arm, arms[c.arm][k])
  {
    var n := |names| - 1;
    if c in OfArms(arms, names[..n], id) {
      k := ContributionHasArm(arms, names[..n], id, c);
    } else {
      k := ContributionWasFound(names[n], arms[names[n]], id, c);
    }
  }

  /** An entry's identifier was found, and so appears in every fusion of the same arms with the same entry. */
  lemma {:induction false} EntryIsShared(arms: Arms, names: seq<string>, out: seq<Fused>, out': seq<Fused>, f: Fused)
    requires Fusion(arms, names, out) && Fusion(arms, names, out') && f in out
    ensures f in out'
  {
    hide OfArms, OfArm, Total, Ordered, Ascending;
    var i :| 0 <= i < |out| && out[i] == f;
    assert Entry(arms, names, out[i]);
    var k := ContributionHasArm(arms, names, f.id, f.contributions[0]);
    var j :| 0 <= j < |out'| && out'[j].id == f.id;
    assert Entry(arms, names, out'[j]);
  }

  lemma {:induction false} FusionIsUnique(arms: Arms, names: seq<string>, out: seq<Fused>, names': seq<string>,
      out': seq<Fused>)
    requires Fusion(arms, names, out) && Fusion(arms, names', out')
    ensures out == out'
  {
    hide OfArms, Ordered, Ascending, Entry;
    SameNames(names, names');
    forall f ensures f in out <==> f in out' {
      if f in out { EntryIsShared(arms, names, out, out', f); }
      if f in out' { EntryIsShared(arms, names, out', out, f); }
    }
    SameOrder(out, out');
  }

  /** Each identifier once. */
  lemma {:induction false} FusedOnce(arms: Arms, names: seq<string>, out: seq<Fused>, i: nat, j: nat)
    requires Fusion(arms, names, out) && i < j < |out|
    ensures out[i].id != out[j].id
  {
    hide OfArms, Total;
    assert Entry(arms, names, out[i]) && Entry(arms, names, out[j]);
    LessTotal(out[i].id, out[j].id);
    LessTotal(out[i].id, out[i].id);
  }

  // ---------- Agreement between the arms ----------

  const DENSE := "dense"
  const LEXICAL := "lexical"

  ghost predicate Once(rs: seq<Ranked>) {
    forall i, j | 0 <= i < j < |rs| :: rs[i].id != rs[j].id
  }

  ghost predicate Within(rs: seq<Ranked>, depth: int) {
    forall i | 0 <= i < |rs| :: rs[i].rank <= depth
  }

  /** Results as a search hands them over: at most `depth`, ranked from 1 by position, each identifier once. */
  ghost predicate Searched(rs: seq<Ranked>, depth: int) {
    && Once(rs) && |rs| <= depth
    && forall i | 0 <= i < |rs| :: rs[i].rank == i + 1
  }

  ghost predicate SearchArms(arms: Arms, depth: int) {
    arms.Keys == {DENSE, LEXICAL} && Searched(arms[DENSE], depth) && Searched(arms[LEXICAL], depth)
  }

  /** Two arms: each identifier once per arm, no rank beyond the depth. */
  ghost predicate AtDepth(arms: Arms, depth: int) {
    && arms.Keys == {DENSE, LEXICAL}
    && Once(arms[DENSE]) && Within(arms[DENSE], depth) && Once(arms[LEXICAL]) && Within(arms[LEXICAL], depth)
  }

  ghost predicate FoundBy(arms: Arms, arm: string, id: string) {
    exists k :: Found(arms, arm, k, id)
  }

  ghost predicate FoundByBoth(arms: Arms, id: string) {
    FoundBy(arms, DENSE, id) && FoundBy(arms, LEXICAL, id)
  }

  lemma {:induction false} OnlyContribution(arm: string, rs: seq<Ranked>, id: string, k: nat)
    requires Once(rs) && k < |rs| && rs[k].id == id && rs[k].rank >= 1
    ensures OfArm(arm, rs, id) == [Contributed(arm, rs[k])]
  {
    var n := |rs| - 1;
    if k < n {
      OnlyContribution(arm, rs[..n], id, k);
      assert rs[k].id != rs[n].id;
    } else {
      assert forall i | 0 <= i < n :: rs[i].id != rs[n].id;
      NoContribution(arm, rs[..n], id);
    }
  }

  lemma {:induction false} NoContribution(arm: string, rs: seq<Ranked>, id: string)
    requires forall k | 0 <= k < |rs| :: rs[k].id != id || rs[k].rank < 1
    ensures OfArm(arm, rs, id) == []
  {
    if rs != [] {
      NoContribution(arm, rs[..|rs| - 1], id);
    }
  }

  function Share(arms: Arms, arm: string, id: string): real
    requires arm in arms
  {
    Total(OfArm(arm, arms[arm], id))
  }

  /** An identifier's share of one arm: its only result there, or nothing. */
  lemma {:induction false} ShareOfArm(arms: Arms, arm: string, id: string) returns (k: nat)
    requires arm in arms && Once(arms[arm])
    ensures if FoundBy(arms, arm, id)
            then Found(arms, arm, k, id) && Share(arms, arm, id) == Reciprocal(arms[arm][k].rank)
            else Share(arms, arm, id) == 0.0
  {
    hide Once, Reciprocal, OfArm;
    k := 0;
    if i :| Found(arms, arm, i, id) {
      k := i;
      OnlyContribution(arm, arms[arm], id, i);
      NextTotal([], Contributed(arm, arms[arm][i]));
      assert [] + [Contributed(arm, arms[arm][i])] == [Contributed(arm, arms[arm][i])];
    } else {
      forall j | 0 <= j < |arms[arm]| ensures arms[arm][j].id != id || arms[arm][j].rank < 1 {
        assert !Found(arms, arm, j, id);
      }
      NoContribution(arm, arms[arm], id);
      NoRanks(arm, arms[arm]);
    }
  }

  lemma {:induction false} ShareBounds(arms: Arms, arm: string, id: string, depth: int)
    requires arm in arms && Once(arms[arm]) && Within(arms[arm], depth)
    ensures 0.0 <= Share(arms, arm, id) <= 1.0 / 61.0
    ensures if FoundBy(arms, arm, id) then depth >= 1 && Share(arms, arm, id) >= Reciprocal(depth)
            else Share(arms, arm, id) == 0.0
  {
    hide Share, Once;
    var k := ShareOfArm(arms, arm, id);
    if FoundBy(arms, arm, id) {
      ReciprocalFalls(1, arms[arm][k].rank);
      ReciprocalFalls(arms[arm][k].rank, depth);
    }
  }

  lemma ReciprocalFalls(a: int, b: int)
    requires 1 <= a <= b
    ensures 0.0 < Reciprocal(b) <= Reciprocal(a)
  {
    var x, y := K + a as real, K + b as real;
    assert 1.0 / x - 1.0 / y == (y - x) / (x * y);
    assert (y - x) / (x * y) >= 0.0;
  }

  lemma {:induction false} TotalOfTwo(cs: seq<Contribution>, ds: seq<Contribution>)
    ensures Total(cs + ds) == Total(cs) + Total(ds)
    decreases |ds|
  {
    if ds == [] {
      assert cs + ds == cs;
    } else {
      var n := |ds| - 1;
      assert (cs + ds)[..|cs| + n] == cs + ds[..n];
      TotalOfTwo(cs, ds[..n]);
    }
  }

  lemma {:induction false} OfTwoArms(arms: Arms, id: string)
    requires arms.Keys == {DENSE, LEXICAL}
    ensures OfArms(arms, [DENSE, LEXICAL], id) == OfArm(DENSE, arms[DENSE], id) + OfArm(LEXICAL, arms[LEXICAL], id)
  {
    hide OfArm;
    assert [DENSE, LEXICAL][..1] == [DENSE] && [DENSE][..0] == [];
    assert OfArms(arms, [DENSE], id) == OfArms(arms, [DENSE][..0], id) + OfArm(DENSE, arms[DENSE], id);
  }

  lemma {:induction false} ScoreOfTwoArms(arms: Arms, names: seq<string>, f: Fused)
    requires NamesOf(arms, names) && arms.Keys == {DENSE, LEXICAL} && Entry(arms, names, f)
    ensures f.score == Share(arms, DENSE, f.id) + Share(arms, LEXICAL, f.id)
  {
    hide Total, OfArm, OfArms;
    assert Less(DENSE, LEXICAL);
    SameNames(names, [DENSE, LEXICAL]);
    OfTwoArms(arms, f.id);
    TotalOfTwo(OfArm(DENSE, arms[DENSE], f.id), OfArm(LEXICAL, arms[LEXICAL], f.id));
  }

  /** Whatever both searches found precedes whatever only one found. */
  ghost predicate AgreementWins(depth: int) {
    forall arms, names, out, i, j ::
      SearchArms(arms, depth) && Fusion(arms, names, out) && BothThenOne(arms, out, i, j) ==> i < j
  }

  ghost predicate BothThenOne(arms: Arms, out: seq<Fused>, i: int, j: int) {
    0 <= i < |out| && 0 <= j < |out| && FoundByBoth(arms, out[i].id) && !FoundByBoth(arms, out[j].id)
  }

  lemma {:induction false} AgreementScoresHigher(arms: Arms, names: seq<string>, out: seq<Fused>, i: int, j: int,
      depth: int)
    requires depth <= 61 && AtDepth(arms, depth) && Fusion(arms, names, out) && BothThenOne(arms, out, i, j)
    ensures i < j
  {
    hide Ordered, OfArms, OfArm, Total, Ascending, Less, Once, Within, FoundBy;
    var a, b := out[i], out[j];
    ScoreOfTwoArms(arms, names, a);
    ScoreOfTwoArms(arms, names, b);
    ShareBounds(arms, DENSE, a.id, depth);
    ShareBounds(arms, LEXICAL, a.id, depth);
    ShareBounds(arms, DENSE, b.id, depth);
    ShareBounds(arms, LEXICAL, b.id, depth);
    ReciprocalFalls(depth, 61);
    assert a.score > b.score;
    HigherComesFirst(out, i, j);
  }

  lemma HigherComesFirst(out: seq<Fused>, i: int, j: int)
    requires Ordered(out) && 0 <= i < |out| && 0 <= j < |out| && out[i].score > out[j].score
    ensures i < j
  {
  }

  // ---------- Every arms have a fusion ----------

  lemma {:induction false} SortedSet(fs: set<Fused>) returns (out: seq<Fused>)
    requires forall f, g | f in fs && g in fs && f.id == g.id :: f == g
    ensures Ordered(out) && forall f :: f in out <==> f in fs
    decreases fs
  {
    out := [];
    if fs != {} {
      var f :| f in fs;
      out := SortedSet(fs - {f});
      var k := 0;
      while k < |out| && Before(out[k], f)
        invariant 0 <= k <= |out|
        invariant forall i | 0 <= i < k :: Before(out[i], f)
      {
        k := k + 1;
      }
      assert forall i | 0 <= i < |out| :: out[i] in out;
      InsertFused(out, f, k);
      out := out[..k] + [f] + out[k..];
    }
  }

  function FoundIds(arms: Arms, arm: string): set<string>
    requires arm in arms
  {
    set k | 0 <= k < |arms[arm]| && arms[arm][k].rank >= 1 :: arms[arm][k].id
  }

  lemma {:induction false} FusionExists(arms: Arms) returns (out: seq<Fused>)
    requires arms.Keys == {DENSE, LEXICAL}
    ensures Fusion(arms, [DENSE, LEXICAL], out)
  {
    var names := [DENSE, LEXICAL];
    assert Less(DENSE, LEXICAL);
    assert NamesOf(arms, names);
    var byID := map id | id in FoundIds(arms, DENSE) + FoundIds(arms, LEXICAL)
      :: Fused(id, Total(OfArms(arms, names, id)), OfArms(arms, names, id));
    hide Total, OfArm, OfArms, Less, Before;
    forall id ensures Got(byID, id) == OfArms(arms, names, id) && (id in byID ==> OfArms(arms, names, id) != []) {
      IdIsFound(arms, names, id);
    }
    var fs := byID.Values;
    out := SortedSet(fs);
    forall f ensures f in out <==> f.id in byID && f == byID[f.id] {
    }
    FuseCovers(arms, names, byID, out);
  }

  lemma {:induction false} IdIsFound(arms: Arms, names: seq<string>, id: string)
    requires arms.Keys == {DENSE, LEXICAL} && NamesOf(arms, names)
    ensures id in FoundIds(arms, DENSE) + FoundIds(arms, LEXICAL) <==> OfArms(arms, names, id) != []
  {
    hide OfArms, OfArm, Ascending;
    if OfArms(arms, names, id) != [] {
      var c := OfArms(arms, names, id)[0];
      var k := ContributionHasArm(arms, names, id, c);
    }
    forall arm | arm in arms && id in FoundIds(arms, arm) ensures OfArms(arms, names, id) != [] {
      var k :| 0 <= k < |arms[arm]| && arms[arm][k].rank >= 1 && arms[arm][k].id == id;
      FoundContributes(arm, arms[arm], k);
      var a :| 0 <= a < |names| && names[a] == arm;
      ArmContributes(arms, names, a, id, Contributed(arm, arms[arm][k]));
    }
  }

  // ---------- A tie at depth 62 ----------

  function Filler(c: char, n: nat): string {
    seq(n, _ => c)
  }

  function DenseId(k: nat): string {
    if k == 0 then "a" else if k == 61 then "b" else Filler('x', k)
  }

  function LexicalId(k: nat): string {
    if k == 61 then "b" else Filler('y', k + 1)
  }

  /** Full arms at depth 62: "a" is the first dense result, "b" the last of both, and nothing else is shared. */
  function TieArms(): Arms {
    map[DENSE := seq(62, k requires 0 <= k < 62 => Ranked(DenseId(k), k + 1, 0.0)),
        LEXICAL := seq(62, k requires 0 <= k < 62 => Ranked(LexicalId(k), k + 1, 0.0))]
  }

  lemma {:induction false} FillerIs(c: char, n: nat)
    ensures |Filler(c, n)| == n && (n > 0 ==> Filler(c, n)[0] == c)
  {
  }

  lemma {:induction false} DenseIdsDiffer(i: nat, j: nat)
    requires i < j < 62
    ensures DenseId(i) != DenseId(j)
  {
    FillerIs('x', i);
    FillerIs('x', j);
  }

  lemma {:induction false} LexicalIdsDiffer(i: nat, j: nat)
    requires i < j < 62
    ensures LexicalId(i) != LexicalId(j) && LexicalId(i) != "a" && LexicalId(j) != "a"
  {
    FillerIs('y', i + 1);
    FillerIs('y', j + 1);
  }

  lemma {:induction false} TieArmsAreSearched(depth: int)
    requires depth >= 62
    ensures SearchArms(TieArms(), depth)
    ensures !FoundBy(TieArms(), LEXICAL, "a")
    ensures Found(TieArms(), DENSE, 0, "a") && Found(TieArms(), DENSE, 61, "b") && Found(TieArms(), LEXICAL, 61, "b")
  {
    hide DenseId, LexicalId;
    assert |DENSE| != |LEXICAL|;
    var d, l := TieArms()[DENSE], TieArms()[LEXICAL];
    forall i, j | 0 <= i < j < 62 ensures d[i].id != d[j].id && l[i].id != l[j].id {
      DenseIdsDiffer(i, j);
      LexicalIdsDiffer(i, j);
    }
    forall k | 0 <= k < 62 ensures l[k].id != "a" {
      if k < 61 { LexicalIdsDiffer(k, 61); } else { LexicalIdsDiffer(0, k); }
    }
    TieEnds();
  }

  lemma TieEnds()
    ensures DenseId(0) == "a" && DenseId(61) == "b" && LexicalId(61) == "b"
  {
  }

  /** Two results at rank 62 only tie with one at rank 1, and the identifier decides. */
  lemma {:induction false} TieAtSixtyTwo(depth: int)
    requires depth >= 62
    ensures !AgreementWins(depth)
  {
    var arms := TieArms();
    TieArmsAreSearched(depth);
    hide TieArms, OfArms, OfArm, Total, Before;
    var out := FusionExists(arms);
    var i :| 0 <= i < |out| && out[i].id == "b";
    var j :| 0 <= j < |out| && out[j].id == "a";
    assert Entry(arms, [DENSE, LEXICAL], out[i]) && Entry(arms, [DENSE, LEXICAL], out[j]);
    TieScores(arms, [DENSE, LEXICAL], out[i], out[j], depth);
    TieOrder(out[i], out[j]);
    assert BothThenOne(arms, out, i, j) && !(i < j);
  }

  lemma TieOrder(b: Fused, a: Fused)
    requires a.id == "a" && b.id == "b" && a.score == b.score
    ensures !Before(b, a)
  {
  }

  lemma {:induction false} TieScores(arms: Arms, names: seq<string>, b: Fused, a: Fused, depth: int)
    requires SearchArms(arms, depth) && NamesOf(arms, names)
    requires Entry(arms, names, a) && Entry(arms, names, b) && a.id == "a" && b.id == "b"
        && !FoundBy(arms, LEXICAL, "a")
    requires Found(arms, DENSE, 0, "a") && Found(arms, DENSE, 61, "b") && Found(arms, LEXICAL, 61, "b")
    ensures a.score == b.score
  {
    hide OfArms, OfArm, Total, Share;
    ScoreOfTwoArms(arms, names, a);
    ScoreOfTwoArms(arms, names, b);
    var ad := ShareOfArm(arms, DENSE, "a");
    var al := ShareOfArm(arms, LEXICAL, "a");
    var bd := ShareOfArm(arms, DENSE, "b");
    var bl := ShareOfArm(arms, LEXICAL, "b");
  }

  /** Agreement is guaranteed to win exactly up to depth 61; the default depth is 50. */
  lemma AgreementWinsIff(depth: int)
    ensures AgreementWins(depth) <==> depth <= 61
  {
    if depth <= 61 {
      forall arms, names, out, i, j | SearchArms(arms, depth) && Fusion(arms, names, out)
          && BothThenOne(arms, out, i, j)
        ensures i < j
      {
        AgreementScoresHigher(arms, names, out, i, j, depth);
      }
    } else {
      TieAtSixtyTwo(depth);
    }
  }

  // ---------- Around fusion ----------

  /** Rows of a search, in the order the database returned them, are ranked from 1. */
  method CollectHits(rows: seq<(string, real)>) returns (out: seq<Ranked>)
    ensures |out| == |rows| && forall i | 0 <= i < |rows| :: out[i] == Ranked(rows[i].0, i + 1, rows[i].1)
  {
    out := [];
    var rank := 1;
    for i := 0 to |rows|
      invariant rank == i + 1 && |out| == i
      invariant forall k | 0 <= k < i :: out[k] == Ranked(rows[k].0, k + 1, rows[k].1)
    {
      out := out + [Ranked(rows[i].0, rank, rows[i].1)];
      rank := rank + 1;
    }
  }

  method EqualDepth(arms: Arms, depth: int) returns (ok: bool)
    ensures ok <==> forall arm <- arms :: |arms[arm]| <= depth
  {
    var rest := arms.Keys;
    while rest != {}
      invariant rest <= arms.Keys && forall arm <- arms :: arm in rest || |arms[arm]| <= depth
      decreases |rest|
    {
      var arm :| arm in rest;
      rest := rest - {arm};
      if |arms[arm]| > depth {
        return false;
      }
    }
    return true;
  }

  /** How many results the arm alone found. */
  function Alone(fused: seq<Fused>, arm: string): nat {
    if fused == [] then 0
    else
      var f := fused[|fused| - 1];
      Alone(fused[..|fused| - 1], arm) + if FoundAlone(f, arm) then 1 else 0
  }

  /** The places of those results. */
  ghost function AlonePlaces(fused: seq<Fused>, arm: string): set<int> {
    set i | 0 <= i < |fused| && OnlyFrom(fused[i], arm)
  }

  /** The result has one contribution, from the arm. */
  ghost predicate OnlyFrom(f: Fused, arm: string) {
    exists c :: f.contributions == [c] && c.arm == arm
  }

  lemma FoundAloneIff(f: Fused, arm: string)
    ensures FoundAlone(f, arm) <==> OnlyFrom(f, arm)
  {
    if |f.contributions| == 1 {
      assert f.contributions == [f.contributions[0]];
    }
  }

  predicate FoundAlone(f: Fused, arm: string) {
    |f.contributions| == 1 && f.contributions[0].arm == arm
  }

  lemma {:induction false} AloneCounts(fused: seq<Fused>, arm: string)
    ensures Alone(fused, arm) == |AlonePlaces(fused, arm)|
  {
    var all := AlonePlaces(fused, arm);
    hide FoundAlone, OnlyFrom;
    if fused == [] {
      assert forall i :: i !in all;
      assert all == {};
    } else {
      var n := |fused| - 1;
      AloneCounts(fused[..n], arm);
      FoundAloneIff(fused[n], arm);
      assert all == AlonePlaces(fused[..n], arm)
          + if OnlyFrom(fused[n], arm) then {n} else {};
    }
  }

  function At(counts: map<string, nat>, arm: string): nat {
    if arm in counts then counts[arm] else 0
  }

  /** The arm that alone found most of the first `n` results, the least such name on a tie. */
  ghost predicate Dominant(fused: seq<Fused>, best: string, most: nat) {
    && (forall arm :: Alone(fused, arm) <= most)
    && (most == 0 ==> best == "")
    && (most > 0 ==> Alone(fused, best) == most)
    && (most > 0 ==> forall arm | Alone(fused, arm) == most :: best == arm || Less(best, arm))
  }

  /** The dominant arm of the first `limit` results, and the fraction of them it alone found. */
  ghost predicate DominatedBy(fused: seq<Fused>, limit: nat, best: string, share: real) {
    var n := if limit > |fused| then |fused| else limit;
    if n == 0 then best == "" && share == 0.0
    else exists most: nat :: Dominant(fused[..n], best, most) && share == most as real / n as real
  }

  method SingleArmShare(fused: seq<Fused>, limit: nat) returns (best: string, share: real)
    ensures DominatedBy(fused, limit, best, share)
  {
    var n := if limit > |fused| then |fused| else limit;
    if n == 0 {
      return "", 0.0;
    }
    var counts: map<string, nat> := map[];
    for i := 0 to n
      invariant forall arm :: At(counts, arm) == Alone(fused[..i], arm)
    {
      var f := fused[i];
      assert fused[..i + 1][..i] == fused[..i];
      ghost var was := counts;
      if |f.contributions| == 1 {
        var arm := f.contributions[0].arm;
        counts := counts[arm := At(counts, arm) + 1];
      }
      assert forall arm :: At(was, arm) == Alone(fused[..i], arm);
    }
    var most := 0;
    best, most := Most(counts);
    share := most as real / n as real;
    forall arm ensures Alone(fused[..n], arm) <= most {
      assert At(counts, arm) == Alone(fused[..n], arm);
    }
    assert At(counts, best) == Alone(fused[..n], best);
    assert Dominant(fused[..n], best, most);
  }

  /** The loop over the counts, in the map's order. */
  method Most(counts: map<string, nat>) returns (best: string, most: nat)
    ensures forall arm :: At(counts, arm) <= most
    ensures most == 0 ==> best == ""
    ensures most > 0 ==> At(counts, best) == most
    ensures most > 0 ==> forall arm | At(counts, arm) == most :: best == arm || Less(best, arm)
  {
    best, most := "", 0;
    var rest := counts.Keys;
    while rest != {}
      invariant rest <= counts.Keys
      invariant forall arm | arm !in rest :: At(counts, arm) <= most
      invariant most == 0 ==> best == ""
      invariant most > 0 ==> best !in rest && At(counts, best) == most
      invariant most > 0 ==> forall arm | arm !in rest && At(counts, arm) == most :: best == arm || Less(best, arm)
      decreases |rest|
    {
      var arm :| arm in rest;
      rest := rest - {arm};
      var c := counts[arm];
      LessTotal(arm, best);
      if c > most || (c == most && Less(arm, best)) {
        if c == most {
          forall other | other !in rest && At(counts, other) == c ensures arm == other || Less(arm, other) {
            if other != arm && other != best { LessTrans(arm, best, other); }
          }
        }
        best, most := arm, c;
      }
    }
  }

  lemma OneDominant(fused: seq<Fused>, best: string, most: nat, best': string, most': nat)
    requires Dominant(fused, best, most) && Dominant(fused, best', most')
    ensures best == best' && most == most'
  {
    assert most > 0 ==> most <= most';
    assert most' > 0 ==> most' <= most;
    LessTotal(best, best');
    LessTotal(best, best);
  }

  /** The dominant arm does not depend on the map's order. */
  lemma DominantIsUnique(fused: seq<Fused>, limit: nat, best: string, share: real, best': string, share': real)
    requires DominatedBy(fused, limit, best, share) && DominatedBy(fused, limit, best', share')
    ensures best == best' && share == share'
  {
    hide Dominant;
    var n := if limit > |fused| then |fused| else limit;
    if n > 0 {
      var most: nat :| Dominant(fused[..n], best, most) && share == most as real / n as real;
      var most': nat :| Dominant(fused[..n], best', most') && share' == most' as real / n as real;
      OneDominant(fused[..n], best, most, best', most');
    }
  }
}
