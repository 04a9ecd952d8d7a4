/** The recall pipeline: fuse, decide access, then budget. Rows come from tables given as maps. */
module Recall {
  import opened Strings
  import Temporal
  import opened Acl
  import opened Limit
  import opened Rrf
  import RateWindow

  datatype Scored = Scored(claim: Claim, score: real, contributions: seq<Contribution>, tokens: nat)

  datatype Package = Package(claims: seq<Scored>, tokensUsed: nat, omitted: nat)

  // ---------- Hydration: a join ----------

  /** A claim row carries neither evidence nor grants, an evidence row no grants. */
  datatype ClaimRow = ClaimRow(statement: string, recordedAt: Temporal.Time)

  datatype EvidenceRow = EvidenceRow(id: string, text: string)

  datatype Tables = Tables(claims: map<string, ClaimRow>, evidence: map<string, seq<EvidenceRow>>,
                           claimGrants: map<string, ACL>, evidenceGrants: map<string, ACL>)

  function GrantsOf(grants: map<string, ACL>, id: string): ACL {
    if id in grants then grants[id] else []
  }

  function EvidenceOf(t: Tables, id: string): seq<Evidence> {
    var rows := if id in t.evidence then t.evidence[id] else [];
    seq(|rows|, i requires 0 <= i < |rows| =>
      Evidence(rows[i].id, rows[i].text, GrantsOf(t.evidenceGrants, rows[i].id)))
  }

  function Joined(t: Tables, id: string): Claim
    requires id in t.claims
  {
    Claim(id, t.claims[id].statement, t.claims[id].recordedAt, GrantsOf(t.claimGrants, id), EvidenceOf(t, id))
  }

  lemma JoinedBy(t: Tables, id: string)
    requires id in t.claims
    ensures Joined(t, id)
        == Claim(id, t.claims[id].statement, t.claims[id].recordedAt, GrantsOf(t.claimGrants, id), EvidenceOf(t, id))
  {
  }

  ghost predicate DistinctClaims(claims: seq<Claim>) {
    forall i, j | 0 <= i < j < |claims| :: claims[i].id != claims[j].id
  }

  /** A claim as it is loaded, before its evidence and grants are attached. */
  function BareClaim(t: Tables, id: string): Claim
    requires id in t.claims
  {
    Claim(id, t.claims[id].statement, t.claims[id].recordedAt, [], [])
  }

  /** The rows with one of the identifiers, in no particular order. */
  method LoadClaims(t: Tables, ids: seq<string>) returns (claims: seq<Claim>)
    ensures DistinctClaims(claims)
    ensures forall i | 0 <= i < |claims| ::
              claims[i].id in ids && claims[i].id in t.claims
              && claims[i] == BareClaim(t, claims[i].id)
    ensures forall id | id in ids && id in t.claims :: exists i :: 0 <= i < |claims| && claims[i].id == id
  {
    claims := [];
    var rest := t.claims.Keys;
    while rest != {}
      invariant rest <= t.claims.Keys && DistinctClaims(claims)
      invariant forall i | 0 <= i < |claims| ::
                  claims[i].id !in rest && claims[i].id in ids && claims[i].id in t.claims
                  && claims[i] == BareClaim(t, claims[i].id)
      invariant forall id | id in ids && id in t.claims && id !in rest ::
                  exists i :: 0 <= i < |claims| && claims[i].id == id
      decreases |rest|
    {
      var id :| id in rest;
      rest := rest - {id};
      if id in ids {
        ghost var was := claims;
        claims := claims + [BareClaim(t, id)];
        assert claims[|was|].id == id;
        forall x | x in ids && x in t.claims && x !in rest ensures exists i :: 0 <= i < |claims| && claims[i].id == x {
          if x != id {
            var i :| 0 <= i < |was| && was[i].id == x;
            assert claims[i].id == x;
          }
        }
      }
    }
  }

  /** One row for every fused identifier that has a claim, each joined with its evidence and grants. */
  ghost predicate Hydrated(t: Tables, fused: seq<Fused>, claims: seq<Claim>) {
    && DistinctClaims(claims)
    && forall c :: c in claims <==> c.id in t.claims && c == Joined(t, c.id) && HasId(fused, c.id)
  }

  method Hydrate(t: Tables, fused: seq<Fused>) returns (out: seq<Claim>)
    ensures Hydrated(t, fused, out)
  {
    hide Joined, EvidenceOf;
    var ids := seq(|fused|, i requires 0 <= i < |fused| => fused[i].id);
    var rows := LoadClaims(t, ids);
    var claims := new Claim[|rows|](i requires 0 <= i < |rows| => rows[i]);
    for i := 0 to claims.Length
      invariant forall k | 0 <= k < i :: claims[k] == Joined(t, rows[k].id)
      invariant forall k | i <= k < |rows| :: claims[k] == rows[k]
    {
      claims[i] := claims[i].(acl := GrantsOf(t.claimGrants, claims[i].id));
      var es := AttachGrants(t, claims[i].id);
      JoinedBy(t, rows[i].id);
      claims[i] := claims[i].(evidence := es);
    }
    out := claims[..];
    JoinedRows(t, fused, ids, rows, out);
  }

  ghost predicate HasId(fused: seq<Fused>, id: string) {
    exists i :: 0 <= i < |fused| && fused[i].id == id
  }

  lemma {:induction false} JoinedRows(t: Tables, fused: seq<Fused>, ids: seq<string>, rows: seq<Claim>, out: seq<Claim>)
    requires |ids| == |fused| && forall i | 0 <= i < |ids| :: ids[i] == fused[i].id
    requires DistinctClaims(rows) && forall i | 0 <= i < |rows| :: rows[i].id in ids && rows[i].id in t.claims
    requires forall id | id in ids && id in t.claims :: exists i :: 0 <= i < |rows| && rows[i].id == id
    requires |out| == |rows| && forall k | 0 <= k < |rows| :: out[k] == Joined(t, rows[k].id)
    ensures Hydrated(t, fused, out)
  {
  }

  method AttachGrants(t: Tables, id: string) returns (es: seq<Evidence>)
    ensures es == EvidenceOf(t, id)
  {
    var rows := if id in t.evidence then t.evidence[id] else [];
    es := seq(|rows|, i requires 0 <= i < |rows| => Evidence(rows[i].id, rows[i].text, []));
    for j := 0 to |es|
      invariant |es| == |rows|
      invariant forall k | 0 <= k < j :: es[k] == EvidenceOf(t, id)[k]
      invariant forall k | j <= k < |rows| :: es[k] == Evidence(rows[k].id, rows[k].text, [])
    {
      es := es[j := es[j].(acl := GrantsOf(t.evidenceGrants, es[j].id))];
    }
  }

  // ---------- What a principal can see ----------

  datatype Candidate = Candidate(fused: Fused, claim: Claim)

  predicate MayRead(t: Tables, id: string, p: string, now: Temporal.Time) {
    id in t.claims && Readable(Joined(t, id), p, now)
  }

  predicate Shown(t: Tables, f: Fused, p: string, now: Temporal.Time) {
    MayRead(t, f.id, p, now)
  }

  /** The candidates `p` may read, in fused order, with their claims. */
  function Visible(t: Tables, fused: seq<Fused>, p: string, now: Temporal.Time): seq<Candidate> {
    if fused == [] then []
    else
      var n := |fused| - 1;
      Visible(t, fused[..n], p, now)
      + if Shown(t, fused[n], p, now) then [Candidate(fused[n], Joined(t, fused[n].id))] else []
  }

  lemma {:induction false} VisibleOfConcat(t: Tables, a: seq<Fused>, b: seq<Fused>, p: string, now: Temporal.Time)
    ensures Visible(t, a + b, p, now) == Visible(t, a, p, now) + Visible(t, b, p, now)
    decreases |b|
  {
    hide Shown;
    if b == [] {
      assert a + b == a;
    } else {
      var n := |b| - 1;
      assert (a + b)[..|a| + n] == a + b[..n];
      VisibleOfConcat(t, a, b[..n], p, now);
    }
  }

  /** Deleting a candidate the principal may not read changes nothing of what it sees. */
  lemma {:induction false} UnreadableIsInvisible(t: Tables, fused: seq<Fused>, i: nat, p: string, now: Temporal.Time)
    requires i < |fused| && !Shown(t, fused[i], p, now)
    ensures Visible(t, fused[..i] + fused[i + 1..], p, now) == Visible(t, fused, p, now)
  {
    hide Shown, Visible;
    assert fused == fused[..i] + ([fused[i]] + fused[i + 1..]);
    VisibleOfConcat(t, fused[..i], [fused[i]] + fused[i + 1..], p, now);
    VisibleOfConcat(t, [fused[i]], fused[i + 1..], p, now);
    VisibleOfConcat(t, fused[..i], fused[i + 1..], p, now);
    NothingVisible(t, fused[i], p, now);
  }

  lemma NothingVisible(t: Tables, f: Fused, p: string, now: Temporal.Time)
    requires !Shown(t, f, p, now)
    ensures Visible(t, [f], p, now) == []
  {
  }

  /** Two databases that agree on what the principal may read look the same to it. */
  lemma {:induction false} SameReadableRows(t: Tables, t': Tables, fused: seq<Fused>, p: string, now: Temporal.Time)
    requires forall f <- fused :: Shown(t, f, p, now) <==> Shown(t', f, p, now)
    requires forall f <- fused :: Shown(t, f, p, now) && Shown(t', f, p, now) ==> Joined(t, f.id) == Joined(t', f.id)
    ensures Visible(t, fused, p, now) == Visible(t', fused, p, now)
  {
    if fused != [] {
      var n := |fused| - 1;
      SameReadableRows(t, t', fused[..n], p, now);
      assert fused[n] in fused;
    }
  }

  lemma {:induction false} VisibleIsReadable(t: Tables, fused: seq<Fused>, p: string, now: Temporal.Time, k: nat)
    requires k < |Visible(t, fused, p, now)|
    ensures var c := Visible(t, fused, p, now)[k];
            c.fused in fused && c.claim.id == c.fused.id && c.fused.id in t.claims
            && c.claim == Joined(t, c.fused.id) && Readable(c.claim, p, now)
  {
    var n := |fused| - 1;
    if k < |Visible(t, fused[..n], p, now)| {
      VisibleIsReadable(t, fused[..n], p, now, k);
    }
  }

  // ---------- Packing ----------

  type Counter = Option<string -> nat>

  function Count(count: Counter, c: Claim): nat {
    if count.None? then 0 else count.value(c.statement) + CountAll(count.value, c.evidence)
  }

  function CountAll(count: string -> nat, es: seq<Evidence>): nat {
    if es == [] then 0 else CountAll(count, es[..|es| - 1]) + count(es[|es| - 1].text)
  }

  method CountTokens(count: Counter, c: Claim) returns (n: nat)
    ensures n == Count(count, c)
  {
    if count.None? {
      return 0;
    }
    n := count.value(c.statement);
    for i := 0 to |c.evidence|
      invariant n == count.value(c.statement) + CountAll(count.value, c.evidence[..i])
    {
      assert c.evidence[..i + 1][..i] == c.evidence[..i];
      n := n + count.value(c.evidence[i].text);
    }
    assert c.evidence[..|c.evidence|] == c.evidence;
  }

  function ScoredOf(count: Counter, v: Candidate): Scored {
    Scored(v.claim, v.fused.score, v.fused.contributions, Count(count, v.claim))
  }

  /** One candidate: kept when there is room for it, counted as omitted otherwise. */
  function PackOne(pkg: Package, v: Candidate, limit: nat, budget: nat, count: Counter): Package {
    if |pkg.claims| >= limit || pkg.tokensUsed + Count(count, v.claim) > budget then pkg.(omitted := pkg.omitted + 1)
    else Package(pkg.claims + [ScoredOf(count, v)], pkg.tokensUsed + Count(count, v.claim), pkg.omitted)
  }

  function Pack(vs: seq<Candidate>, limit: nat, budget: nat, count: Counter): Package {
    if vs == [] then Package([], 0, 0)
    else PackOne(Pack(vs[..|vs| - 1], limit, budget, count), vs[|vs| - 1], limit, budget, count)
  }

  function TokensOf(claims: seq<Scored>): nat {
    if claims == [] then 0 else TokensOf(claims[..|claims| - 1]) + claims[|claims| - 1].tokens
  }

  /** Which candidates were kept. */
  ghost predicate Kept(vs: seq<Candidate>, pkg: Package, count: Counter, ks: seq<nat>) {
    && |ks| == |pkg.claims|
    && (forall i | 0 <= i < |ks| :: ks[i] < |vs| && pkg.claims[i] == ScoredOf(count, vs[ks[i]]))
    && (forall i, j | 0 <= i < j < |ks| :: ks[i] < ks[j])
  }

  /** A package is an order-preserving selection of the candidates within both limits. Every candidate is
      returned or counted as omitted, and no omitted one would still fit. */
  lemma {:induction false} PackageIsMaximal(vs: seq<Candidate>, limit: nat, budget: nat, count: Counter)
    returns (ks: seq<nat>)
    ensures Packed(vs, Pack(vs, limit, budget, count), ks, limit, budget, count)
  {
    hide Count;
    ks := [];
    if vs != [] {
      var n := |vs| - 1;
      ks := PackageIsMaximal(vs[..n], limit, budget, count);
      ks := OneMore(vs, Pack(vs[..n], limit, budget, count), ks, limit, budget, count);
    }
  }

  /** The invariant of the packing loop, kept by one more candidate. */
  lemma {:induction false} OneMore(vs: seq<Candidate>, before: Package, was: seq<nat>, limit: nat, budget: nat,
      count: Counter)
    returns (ks: seq<nat>)
    requires vs != [] && Packed(vs[..|vs| - 1], before, was, limit, budget, count)
    ensures Packed(vs, PackOne(before, vs[|vs| - 1], limit, budget, count), ks, limit, budget, count)
  {
    hide Count, ScoredOf;
    var n := |vs| - 1;
    var pkg := PackOne(before, vs[n], limit, budget, count);
    if pkg.omitted != before.omitted {
      ks := was;
      SkipOne(vs, before, pkg, was, limit, budget, count);
    } else {
      ks := was + [n];
      assert ks[|was|] == n;
      ScoredTokens(count, vs[n]);
      KeepOne(vs, before, was, pkg.claims, count);
      hide Kept, TokensOf;
      forall k | 0 <= k < |vs| && k !in ks ensures NoRoom(pkg, vs[k], limit, budget, count) {
        assert k in was ==> k in ks;
        assert NoRoom(before, vs[..n][k], limit, budget, count);
      }
    }
  }

  lemma {:induction false} SkipOne(vs: seq<Candidate>, before: Package, pkg: Package, ks: seq<nat>, limit: nat,
      budget: nat, count: Counter)
    requires vs != [] && Packed(vs[..|vs| - 1], before, ks, limit, budget, count)
    requires NoRoom(before, vs[|vs| - 1], limit, budget, count) && pkg == before.(omitted := before.omitted + 1)
    ensures Packed(vs, pkg, ks, limit, budget, count)
  {
    hide Count, ScoredOf, TokensOf;
    var n := |vs| - 1;
    forall k | 0 <= k < |vs| && k !in ks ensures NoRoom(pkg, vs[k], limit, budget, count) {
      assert k < n ==> NoRoom(before, vs[..n][k], limit, budget, count);
    }
  }

  lemma {:induction false} KeepOne(vs: seq<Candidate>, before: Package, was: seq<nat>, claims: seq<Scored>,
      count: Counter)
    requires vs != [] && Kept(vs[..|vs| - 1], before, count, was)
    requires claims == before.claims + [ScoredOf(count, vs[|vs| - 1])]
    ensures forall pkg: Package :: pkg.claims == claims ==> Kept(vs, pkg, count, was + [|vs| - 1])
    ensures TokensOf(claims) == TokensOf(before.claims) + ScoredOf(count, vs[|vs| - 1]).tokens
  {
  }

  lemma ScoredTokens(count: Counter, v: Candidate)
    ensures ScoredOf(count, v).tokens == Count(count, v.claim)
  {
  }

  ghost predicate Packed(vs: seq<Candidate>, pkg: Package, ks: seq<nat>, limit: nat, budget: nat, count: Counter) {
    && Kept(vs, pkg, count, ks)
    && |pkg.claims| <= limit && pkg.tokensUsed == TokensOf(pkg.claims) <= budget
    && |pkg.claims| + pkg.omitted == |vs|
    && forall k | 0 <= k < |vs| && k !in ks :: NoRoom(pkg, vs[k], limit, budget, count)
  }

  ghost predicate NoRoom(pkg: Package, v: Candidate, limit: nat, budget: nat, count: Counter) {
    |pkg.claims| >= limit || pkg.tokensUsed + Count(count, v.claim) > budget
  }

  // ---------- What an answer is ----------

  /** An unexpired grant to `p`. */
  predicate Granted(grants: map<string, ACL>, id: string, p: string, now: Temporal.Time) {
    id in grants && exists g <- grants[id] :: g.principal == p && (g.expiresAt == 0 || now < g.expiresAt)
  }

  /** Someone may read a claim that rests on evidence if they have a grant for it and for every piece of that. */
  predicate Entitled(t: Tables, id: string, p: string, now: Temporal.Time) {
    && id in t.claims && id in t.evidence && t.evidence[id] != []
    && Granted(t.claimGrants, id, p, now) && forall row <- t.evidence[id] :: Granted(t.evidenceGrants, row.id, p, now)
  }

  /** The statement of a claim and the texts it rests on. */
  function Texts(t: Tables, id: string): seq<string> {
    (if id in t.claims then [t.claims[id].statement] else [])
    + if id in t.evidence then RowTexts(t.evidence[id]) else []
  }

  function RowTexts(rows: seq<EvidenceRow>): seq<string> {
    seq(|rows|, i requires 0 <= i < |rows| => rows[i].text)
  }

  function AllTexts(t: Tables, ids: seq<string>): seq<string> {
    if ids == [] then [] else AllTexts(t, ids[..|ids| - 1]) + Texts(t, ids[|ids| - 1])
  }

  /** The counts of some texts, added up. */
  function Tokens(count: Counter, texts: seq<string>): nat {
    if count.None? || texts == [] then 0 else Tokens(count, texts[..|texts| - 1]) + count.value(texts[|texts| - 1])
  }

  /** The claim as the database has it, with the score of its result and the tokens of its texts. */
  ghost predicate Tells(t: Tables, f: Fused, s: Scored, count: Counter) {
    && s.claim.id == f.id && s.score == f.score && s.contributions == f.contributions
    && s.tokens == Tokens(count, Texts(t, f.id))
    && f.id in t.claims && s.claim.statement == t.claims[f.id].statement
    && s.claim.recordedAt == t.claims[f.id].recordedAt
    && f.id in t.claimGrants && s.claim.acl == t.claimGrants[f.id]
    && f.id in t.evidence && |s.claim.evidence| == |t.evidence[f.id]|
    && forall i | 0 <= i < |s.claim.evidence| ::
         && s.claim.evidence[i].id == t.evidence[f.id][i].id && s.claim.evidence[i].text == t.evidence[f.id][i].text
         && s.claim.evidence[i].id in t.evidenceGrants
         && s.claim.evidence[i].acl == t.evidenceGrants[s.claim.evidence[i].id]
  }

  function ReturnedIds(claims: seq<Scored>): seq<string> {
    seq(|claims|, i requires 0 <= i < |claims| => claims[i].claim.id)
  }

  /** In ascending `ks`, the first `j` are below `k` and the others are not. */
  predicate Splits(ks: seq<nat>, j: int, k: int) {
    0 <= j <= |ks| && (j > 0 ==> ks[j - 1] < k) && (j < |ks| ==> ks[j] >= k)
  }

  /** There is room for the claim after the first `j` returned ones. */
  ghost predicate Fits(t: Tables, claims: seq<Scored>, j: nat, id: string, limit: nat, budget: nat, count: Counter)
    requires j <= |claims|
  {
    j < limit && Tokens(count, AllTexts(t, ReturnedIds(claims[..j]) + [id])) <= budget
  }

  /** The results at places `ks` are returned: one after the other, each that the principal may read and that there
      is room for after those already taken. */
  ghost predicate Selected(t: Tables, fused: seq<Fused>, claims: seq<Scored>, ks: seq<nat>, p: string,
      now: Temporal.Time, limit: nat, budget: nat, count: Counter)
  {
    && |ks| == |claims|
    && (forall i | 0 <= i < |ks| :: ks[i] < |fused| && Tells(t, fused[ks[i]], claims[i], count))
    && (forall i, j | 0 <= i < j < |ks| :: ks[i] < ks[j])
    && (forall k, j | 0 <= k < |fused| && Splits(ks, j, k) ::
          k in ks <==> Entitled(t, fused[k].id, p, now) && Fits(t, claims, j, fused[k].id, limit, budget, count))
  }

  lemma {:induction false} MayReadIsEntitled(t: Tables, id: string, p: string, now: Temporal.Time)
    ensures MayRead(t, id, p, now) <==> Entitled(t, id, p, now)
  {
    if id in t.claims {
      var rows := if id in t.evidence then t.evidence[id] else [];
      var es := EvidenceOf(t, id);
      AdmitsIsGranted(t.claimGrants, id, p, now);
      forall row ensures Admits(GrantsOf(t.evidenceGrants, row), p, now) <==> Granted(t.evidenceGrants, row, p, now) {
        AdmitsIsGranted(t.evidenceGrants, row, p, now);
      }
      hide Admits, Granted;
      assert |es| == |rows| && forall i | 0 <= i < |rows| :: es[i].acl == GrantsOf(t.evidenceGrants, rows[i].id);
      if AllAdmit(es, p, now) {
        forall row <- rows ensures Granted(t.evidenceGrants, row.id, p, now) {
          var i :| 0 <= i < |rows| && rows[i] == row;
          assert es[i] in es;
        }
      }
      if forall row <- rows :: Granted(t.evidenceGrants, row.id, p, now) {
        forall e <- es ensures Admits(e.acl, p, now) {
          var i :| 0 <= i < |es| && es[i] == e;
          assert rows[i] in rows;
        }
      }
    }
  }

  lemma AdmitsIsGranted(grants: map<string, ACL>, id: string, p: string, now: Temporal.Time)
    ensures Admits(GrantsOf(grants, id), p, now) <==> Granted(grants, id, p, now)
  {
  }

  lemma {:induction false} TokensConcat(count: Counter, a: seq<string>, b: seq<string>)
    ensures Tokens(count, a + b) == Tokens(count, a) + Tokens(count, b)
    decreases |b|
  {
    if b == [] {
      assert a + b == a;
    } else {
      var n := |b| - 1;
      assert (a + b)[..|a| + n] == a + b[..n];
      TokensConcat(count, a, b[..n]);
    }
  }

  lemma {:induction false} CountAllIsTokens(count: Counter, rows: seq<EvidenceRow>, es: seq<Evidence>)
    requires count.Some? && |es| == |rows| && forall i | 0 <= i < |es| :: es[i].text == rows[i].text
    ensures CountAll(count.value, es) == Tokens(count, RowTexts(rows))
  {
    if es != [] {
      var n := |es| - 1;
      CountAllIsTokens(count, rows[..n], es[..n]);
      assert RowTexts(rows)[..n] == RowTexts(rows[..n]);
    }
  }

  /** Counting a claim is adding up the counts of its texts. */
  lemma {:induction false} CountIsTokens(t: Tables, id: string, count: Counter)
    requires id in t.claims
    ensures Count(count, Joined(t, id)) == Tokens(count, Texts(t, id))
  {
    if count.Some? {
      var statement := [t.claims[id].statement];
      var rows := if id in t.evidence then t.evidence[id] else [];
      CountAllIsTokens(count, rows, EvidenceOf(t, id));
      TokensConcat(count, statement, RowTexts(rows));
      assert statement[..0] == [] && statement + [] == statement;
      assert Tokens(count, statement) == count.value(t.claims[id].statement);
      assert Texts(t, id) == statement + RowTexts(rows);
    }
  }

  lemma {:induction false} NextTokens(t: Tables, ids: seq<string>, id: string, count: Counter)
    ensures Tokens(count, AllTexts(t, ids + [id])) == Tokens(count, AllTexts(t, ids)) + Tokens(count, Texts(t, id))
  {
    TokensConcat(count, AllTexts(t, ids), Texts(t, id));
  }

  /** The greedy selection, result by result. */
  lemma {:induction false} PackSelects(t: Tables, fused: seq<Fused>, p: string, now: Temporal.Time, limit: nat,
      budget: nat, count: Counter) returns (ks: seq<nat>)
    ensures var pkg := Pack(Visible(t, fused, p, now), limit, budget, count);
            && Selected(t, fused, pkg.claims, ks, p, now, limit, budget, count)
            && pkg.tokensUsed == Tokens(count, AllTexts(t, ReturnedIds(pkg.claims)))
  {
    hide Selected, PackOne, MayRead, Tokens, AllTexts;
    if fused == [] {
      ks := [];
      NothingSelected(t, p, now, limit, budget, count);
    } else {
      var n := |fused| - 1;
      var f := fused[n];
      var before := Pack(Visible(t, fused[..n], p, now), limit, budget, count);
      var was := PackSelects(t, fused[..n], p, now, limit, budget, count);
      MayReadIsEntitled(t, f.id, p, now);
      var v := Visible(t, fused[..n], p, now);
      if MayRead(t, f.id, p, now) {
        var c := Candidate(f, Joined(t, f.id));
        PackSnoc(v, c, limit, budget, count);
        ks := SelectOne(t, fused, before, was, p, now, limit, budget, count);
      } else {
        assert v + [] == v;
        ks := was;
        SkipResult(t, fused, before.claims, was, p, now, limit, budget, count);
      }
    }
  }

  lemma NothingSelected(t: Tables, p: string, now: Temporal.Time, limit: nat, budget: nat, count: Counter)
    ensures Pack(Visible(t, [], p, now), limit, budget, count) == Package([], 0, 0)
    ensures Selected(t, [], [], [], p, now, limit, budget, count) && Tokens(count, AllTexts(t, ReturnedIds([]))) == 0
  {
  }

  lemma {:induction false} SkipResult(t: Tables, fused: seq<Fused>, claims: seq<Scored>, ks: seq<nat>, p: string,
      now: Temporal.Time, limit: nat, budget: nat, count: Counter)
    requires fused != [] && Selected(t, fused[..|fused| - 1], claims, ks, p, now, limit, budget, count)
    requires !Entitled(t, fused[|fused| - 1].id, p, now)
             || !Fits(t, claims, |claims|, fused[|fused| - 1].id, limit, budget, count)
    ensures Selected(t, fused, claims, ks, p, now, limit, budget, count)
  {
    hide Entitled, Fits, Tells;
    var n := |fused| - 1;
    forall k, j | 0 <= k < |fused| && Splits(ks, j, k)
      ensures k in ks <==> Entitled(t, fused[k].id, p, now) && Fits(t, claims, j, fused[k].id, limit, budget, count)
    {
      if k == n {
        assert forall i | 0 <= i < |ks| :: ks[i] < n;
        assert j == |ks|;
      } else {
        assert fused[..n][k] == fused[k];
      }
    }
  }

  lemma {:induction false} SelectOne(t: Tables, fused: seq<Fused>, before: Package, was: seq<nat>, p: string,
      now: Temporal.Time, limit: nat, budget: nat, count: Counter) returns (ks: seq<nat>)
    requires var n := |fused| - 1;
             fused != [] && MayRead(t, fused[n].id, p, now)
             && Selected(t, fused[..n], before.claims, was, p, now, limit, budget, count)
             && before.tokensUsed == Tokens(count, AllTexts(t, ReturnedIds(before.claims)))
    ensures var n := |fused| - 1;
            var pkg := PackOne(before, Candidate(fused[n], Joined(t, fused[n].id)), limit, budget, count);
            && Selected(t, fused, pkg.claims, ks, p, now, limit, budget, count)
            && pkg.tokensUsed == Tokens(count, AllTexts(t, ReturnedIds(pkg.claims)))
  {
    hide Selected, Tokens, AllTexts, Texts, Entitled, MayRead, Count, Joined, Fits, ScoredOf, Tells;
    var n := |fused| - 1;
    var f := fused[n];
    MayReadIsEntitled(t, f.id, p, now);
    MayReadIsThere(t, f.id, p, now);
    FitsIffCounted(t, before, f.id, limit, budget, count);
    if Fits(t, before.claims, |before.claims|, f.id, limit, budget, count) {
      ks := was + [n];
      JoinedTells(t, f, p, now, count);
      var s := ScoredOf(count, Candidate(f, Joined(t, f.id)));
      NextTokensUsed(t, before, f, p, now, count);
      TakeResult(t, fused, before.claims, was, s, p, now, limit, budget, count);
    } else {
      ks := was;
      SkipResult(t, fused, before.claims, was, p, now, limit, budget, count);
    }
  }

  lemma MayReadIsThere(t: Tables, id: string, p: string, now: Temporal.Time)
    requires MayRead(t, id, p, now)
    ensures id in t.claims
  {
  }

  lemma {:induction false} FitsIffCounted(t: Tables, before: Package, id: string, limit: nat, budget: nat,
      count: Counter)
    requires id in t.claims && before.tokensUsed == Tokens(count, AllTexts(t, ReturnedIds(before.claims)))
    ensures Fits(t, before.claims, |before.claims|, id, limit, budget, count)
            <==> |before.claims| < limit && before.tokensUsed + Count(count, Joined(t, id)) <= budget
  {
    hide Tokens, AllTexts, Texts, Count, Joined;
    CountIsTokens(t, id, count);
    NextTokens(t, ReturnedIds(before.claims), id, count);
    assert before.claims[..|before.claims|] == before.claims;
  }

  lemma {:induction false} NextTokensUsed(t: Tables, before: Package, f: Fused, p: string, now: Temporal.Time,
      count: Counter)
    requires MayRead(t, f.id, p, now) && f.id in t.claims
    requires before.tokensUsed == Tokens(count, AllTexts(t, ReturnedIds(before.claims)))
    ensures var c := Joined(t, f.id);
            before.tokensUsed + Count(count, c)
            == Tokens(count, AllTexts(t, ReturnedIds(before.claims + [ScoredOf(count, Candidate(f, c))])))
  {
    hide Tokens, AllTexts, Texts, Count, MayRead;
    CountIsTokens(t, f.id, count);
    NextTokens(t, ReturnedIds(before.claims), f.id, count);
    assert ReturnedIds(before.claims + [ScoredOf(count, Candidate(f, Joined(t, f.id)))])
        == ReturnedIds(before.claims) + [f.id];
  }

  lemma JoinedTells(t: Tables, f: Fused, p: string, now: Temporal.Time, count: Counter)
    requires MayRead(t, f.id, p, now)
    ensures Tells(t, f, ScoredOf(count, Candidate(f, Joined(t, f.id))), count)
  {
    MayReadIsEntitled(t, f.id, p, now);
    CountIsTokens(t, f.id, count);
    hide MayRead, Count, Tokens, Texts;
    EvidenceIsJoined(t, f.id);
    forall row <- t.evidence[f.id] ensures row.id in t.evidenceGrants {
      GrantedIsThere(t.evidenceGrants, row.id, p, now);
    }
    GrantedIsThere(t.claimGrants, f.id, p, now);
    hide Granted, Entitled, EvidenceOf;
    assert forall i | 0 <= i < |t.evidence[f.id]| :: t.evidence[f.id][i] in t.evidence[f.id];
  }

  lemma GrantedIsThere(grants: map<string, ACL>, id: string, p: string, now: Temporal.Time)
    requires Granted(grants, id, p, now)
    ensures id in grants && GrantsOf(grants, id) == grants[id]
  {
  }

  lemma EvidenceIsJoined(t: Tables, id: string)
    requires id in t.evidence
    ensures |EvidenceOf(t, id)| == |t.evidence[id]|
    ensures forall i | 0 <= i < |t.evidence[id]| ::
              EvidenceOf(t, id)[i] == Evidence(t.evidence[id][i].id, t.evidence[id][i].text,
                                               GrantsOf(t.evidenceGrants, t.evidence[id][i].id))
  {
  }

  lemma {:induction false} TakeResult(t: Tables, fused: seq<Fused>, claims: seq<Scored>, ks: seq<nat>, s: Scored,
      p: string, now: Temporal.Time, limit: nat, budget: nat, count: Counter)
    requires fused != [] && Selected(t, fused[..|fused| - 1], claims, ks, p, now, limit, budget, count)
    requires var f := fused[|fused| - 1];
             Entitled(t, f.id, p, now) && Fits(t, claims, |claims|, f.id, limit, budget, count) && Tells(t, f, s, count)
    ensures Selected(t, fused, claims + [s], ks + [|fused| - 1], p, now, limit, budget, count)
  {
    hide Entitled, Tells;
    var n, all, more := |fused| - 1, claims + [s], ks + [|fused| - 1];
    forall k, j | 0 <= k < |fused| && Splits(more, j, k)
      ensures k in more <==> Entitled(t, fused[k].id, p, now) && Fits(t, all, j, fused[k].id, limit, budget, count)
    {
      assert more[|ks|] == n;
      assert forall i | 0 <= i < |ks| :: ks[i] == more[i] < n;
      assert j <= |ks|;
      assert all[..j] == claims[..j];
      if k == n {
        assert j == |ks|;
      } else {
        assert Splits(ks, j, k);
        assert fused[..n][k] == fused[k];
        assert k in more <==> k in ks;
      }
    }
  }

  /** What may be read and is not returned, though there are fewer claims than the limit, would exceed the budget. */
  lemma {:induction false} NothingOmittedFits(t: Tables, fused: seq<Fused>, claims: seq<Scored>, ks: seq<nat>,
      p: string, now: Temporal.Time, limit: nat, budget: nat, count: Counter, k: nat)
    requires Selected(t, fused, claims, ks, p, now, limit, budget, count) && |claims| < limit
    requires k < |fused| && Entitled(t, fused[k].id, p, now) && k !in ks
    ensures Tokens(count, AllTexts(t, ReturnedIds(claims)) + Texts(t, fused[k].id)) > budget
  {
    var id := fused[k].id;
    var j := SplitAt(ks, k);
    assert !Fits(t, claims, j, id, limit, budget, count);
    hide Selected, Tokens, AllTexts, Texts, Entitled;
    NextTokens(t, ReturnedIds(claims[..j]), id, count);
    TokensOfPrefix(t, claims, j, count);
    TokensConcat(count, AllTexts(t, ReturnedIds(claims)), Texts(t, id));
  }

  lemma {:induction false} SplitAt(ks: seq<nat>, k: nat) returns (j: nat)
    ensures Splits(ks, j, k)
  {
    j := 0;
    while j < |ks| && ks[j] < k
      invariant j <= |ks| && (j > 0 ==> ks[j - 1] < k)
    {
      j := j + 1;
    }
  }

  lemma {:induction false} TokensOfPrefix(t: Tables, claims: seq<Scored>, j: nat, count: Counter)
    requires j <= |claims|
    ensures Tokens(count, AllTexts(t, ReturnedIds(claims[..j]))) <= Tokens(count, AllTexts(t, ReturnedIds(claims)))
    decreases |claims|
  {
    hide Tokens, AllTexts, Texts;
    if j < |claims| {
      var n := |claims| - 1;
      assert claims[..n][..j] == claims[..j];
      TokensOfPrefix(t, claims[..n], j, count);
      NextTokens(t, ReturnedIds(claims[..n]), claims[n].claim.id, count);
      assert ReturnedIds(claims) == ReturnedIds(claims[..n]) + [claims[n].claim.id];
    } else {
      assert claims[..j] == claims;
    }
  }

  // ---------- Counting what is authorized ----------

  lemma {:induction false} IdsOfVisible(t: Tables, fused: seq<Fused>, p: string, now: Temporal.Time)
    returns (ids: set<string>)
    requires forall i, j | 0 <= i < j < |fused| :: fused[i].id != fused[j].id
    ensures |ids| == |Visible(t, fused, p, now)|
    ensures forall id :: id in ids <==> exists f <- fused :: f.id == id && Shown(t, f, p, now)
  {
    hide Shown;
    ids := {};
    if fused != [] {
      var n := |fused| - 1;
      var before := IdsOfVisible(t, fused[..n], p, now);
      ids := if Shown(t, fused[n], p, now) then before + {fused[n].id} else before;
      assert fused == fused[..n] + [fused[n]];
      assert fused[n].id !in before;
      hide Visible;
      forall id ensures id in ids <==> exists f <- fused :: f.id == id && Shown(t, f, p, now) {
        assert id in before <==> exists f <- fused[..n] :: f.id == id && Shown(t, f, p, now);
      }
    }
  }

  lemma {:induction false} IdsOfReaders(claims: seq<Claim>, p: string, now: Temporal.Time) returns (ids: set<string>)
    requires DistinctClaims(claims)
    ensures |ids| == |Readers(claims, p, now)|
    ensures forall id :: id in ids <==> exists c <- claims :: c.id == id && Readable(c, p, now)
  {
    hide Readable;
    ids := {};
    if claims != [] {
      var n := |claims| - 1;
      var before := IdsOfReaders(claims[..n], p, now);
      ids := if Readable(claims[n], p, now) then before + {claims[n].id} else before;
      assert claims[n].id !in before;
      hide Readers, DistinctClaims;
      forall id ensures id in ids <==> exists c <- claims :: c.id == id && Readable(c, p, now) {
        NextReader(claims, id, p, now);
      }
    }
  }

  lemma {:induction false} NextReader(claims: seq<Claim>, id: string, p: string, now: Temporal.Time)
    requires claims != []
    ensures var n := |claims| - 1;
            (exists c <- claims :: c.id == id && Readable(c, p, now))
            <==> (exists c <- claims[..n] :: c.id == id && Readable(c, p, now))
                 || (claims[n].id == id && Readable(claims[n], p, now))
  {
    hide Readable;
    assert claims == claims[..|claims| - 1] + [claims[|claims| - 1]];
  }

  /** The claims that survive access control are as many as the candidates the principal sees. */
  lemma {:induction false} AuthorizedAreVisible(t: Tables, fused: seq<Fused>, claims: seq<Claim>, p: string,
      now: Temporal.Time)
    requires (forall i, j | 0 <= i < j < |fused| :: fused[i].id != fused[j].id) && Hydrated(t, fused, claims)
    ensures |Readers(claims, p, now)| == |Visible(t, fused, p, now)|
  {
    hide Readable, Readers, Visible;
    var a := IdsOfVisible(t, fused, p, now);
    var b := IdsOfReaders(claims, p, now);
    forall id ensures id in a <==> id in b {
      if id in a {
        var f :| f in fused && f.id == id && Shown(t, f, p, now);
        assert Joined(t, id) in claims;
      }
      if id in b {
        var c :| c in claims && c.id == id && Readable(c, p, now);
        var i :| 0 <= i < |fused| && fused[i].id == c.id;
        assert fused[i] in fused && Shown(t, fused[i], p, now);
      }
    }
    assert a == b;
  }

  // ---------- The service ----------

  datatype Request = Request(principal: string, limit: int, budget: int, depth: int, now: Temporal.Time)

  datatype Failure = RateExceeded | ModelMismatch | DepthExceeded

  datatype Answer =
    | Denied(failure: Failure)
    | Answer(package: Package, authorized: nat, candidates: nat, dominant: string, share: real, staleness: int)

  function Clamped(req: Request, started: Temporal.Time, limits: Option<Config>): Request {
    var limit := if req.limit <= 0 then 10 else req.limit;
    Request(req.principal,
            if limits.Some? && PackageCap(limits.value) > 0 && limit > PackageCap(limits.value)
            then PackageCap(limits.value) else limit,
            if req.budget <= 0 then 4000 else req.budget,
            if req.depth <= 0 then 50 else req.depth,
            if req.now == 0 then started else req.now)
  }

  /** Whatever a client asks for, the limit is positive and within the server's cap; what it leaves out defaults to ten
      claims, 4000 tokens, depth fifty and the present. */
  lemma ClampedIsWithinCap(req: Request, started: Temporal.Time, limits: Option<Config>)
    ensures var q := Clamped(req, started, limits);
            && q.limit > 0 && q.budget > 0 && q.depth > 0
            && (limits.Some? && limits.value.maxPackageClaims > 0 ==> q.limit <= limits.value.maxPackageClaims)
            && (req.limit > 0 ==> q.limit <= req.limit)
            && (q.limit == (if req.limit > 0 then req.limit else 10)
                || (limits.Some? && q.limit == limits.value.maxPackageClaims))
            && q.budget == (if req.budget > 0 then req.budget else 4000)
            && q.depth == (if req.depth > 0 then req.depth else 50)
            && q.now == (if req.now > 0 then req.now else started) && q.principal == req.principal
  {
  }

  predicate WithinRate(limits: Option<Config>, ledger: seq<RateWindow.Recorded>, p: string, now: Temporal.Time) {
    limits.Some? ==>
      RecallRate(RateWindow.Since(ledger, p, WindowStart(now, limits.value.recallWindow)), limits.value).allowed
  }

  /** The recorded recalls of `p` in the window that ends at `now`: after its start, which is one width before. */
  ghost function RecallsWithin(ledger: seq<RateWindow.Recorded>, p: string, now: int, width: int): set<int> {
    set i | 0 <= i < |ledger| && ledger[i].principal == p && now - width < ledger[i].at
  }

  lemma {:induction false} SinceCounts(ledger: seq<RateWindow.Recorded>, p: string, now: int, width: int)
    ensures RateWindow.Since(ledger, p, WindowStart(now, width)) == |RecallsWithin(ledger, p, now, width)|
  {
    var all := RecallsWithin(ledger, p, now, width);
    if ledger == [] {
      assert forall i :: i !in all;
      assert all == {};
    } else {
      var n := |ledger| - 1;
      SinceCounts(ledger[..n], p, now, width);
      assert all == RecallsWithin(ledger[..n], p, now, width)
          + if ledger[n].principal == p && now - width < ledger[n].at then {n} else {};
    }
  }

  ghost predicate RateReached(limits: Option<Config>, ledger: seq<RateWindow.Recorded>, p: string,
      now: Temporal.Time)
  {
    && limits.Some? && limits.value.recallRate > 0
    && |RecallsWithin(ledger, p, now, limits.value.recallWindow)| >= limits.value.recallRate
  }

  /** A recall is refused exactly when a rate is set and that many are recorded in the window. */
  lemma {:induction false} WithinRateIff(limits: Option<Config>, ledger: seq<RateWindow.Recorded>, p: string,
      now: Temporal.Time)
    ensures WithinRate(limits, ledger, p, now) <==> !RateReached(limits, ledger, p, now)
  {
    if limits.Some? {
      SinceCounts(ledger, p, now, limits.value.recallWindow);
    }
  }

  ghost predicate AnswerFor(t: Tables, arms: Arms, q: Request, count: Counter, a: Answer)
    requires q.limit >= 0 && q.budget >= 0
  {
    exists names, fused :: Fusion(arms, names, fused) && PackageFor(t, fused, q, count, a)
  }

  ghost predicate PackageFor(t: Tables, fused: seq<Fused>, q: Request, count: Counter, a: Answer)
    requires q.limit >= 0 && q.budget >= 0
  {
    && a.Answer? && a.package == Pack(Visible(t, fused, q.principal, q.now), q.limit, q.budget, count)
    && a.authorized == |Visible(t, fused, q.principal, q.now)| && a.candidates == |fused|
    && a.staleness == Staleness(a.package.claims, q.now)
    && DominatedBy(fused, q.limit, a.dominant, a.share)
  }

  /** `age` is that of the claim recorded first. */
  ghost predicate AgeOfOldest(claims: seq<Scored>, now: Temporal.Time, age: int) {
    && (exists k :: 0 <= k < |claims| && age == now - claims[k].claim.recordedAt)
    && forall i | 0 <= i < |claims| :: now - claims[i].claim.recordedAt <= age
  }

  /** How many of the results the principal may read. */
  ghost function ReadableCount(t: Tables, fused: seq<Fused>, p: string, now: Temporal.Time): nat {
    |ReadablePlaces(t, fused, p, now)|
  }

  ghost function ReadablePlaces(t: Tables, fused: seq<Fused>, p: string, now: Temporal.Time): set<int> {
    set k | 0 <= k < |fused| && Entitled(t, fused[k].id, p, now)
  }

  /** The whole answer, said of the tables and the fused results. */
  ghost predicate Delivered(t: Tables, fused: seq<Fused>, q: Request, count: Counter, a: Answer)
    requires q.limit >= 0 && q.budget >= 0
  {
    && a.Answer?
    && (exists ks :: Selected(t, fused, a.package.claims, ks, q.principal, q.now, q.limit, q.budget, count))
    && a.package.tokensUsed == Tokens(count, AllTexts(t, ReturnedIds(a.package.claims)))
    && a.candidates == |fused| && a.authorized == ReadableCount(t, fused, q.principal, q.now)
    && a.package.omitted == a.authorized - |a.package.claims|
    && DominatedBy(fused, q.limit, a.dominant, a.share)
    && (a.package.claims == [] ==> a.staleness == 0)
    && (a.package.claims != [] && AllDated(a.package.claims) ==> AgeOfOldest(a.package.claims, q.now, a.staleness))
  }

  lemma {:induction false} VisibleAreReadable(t: Tables, fused: seq<Fused>, p: string, now: Temporal.Time)
    ensures |Visible(t, fused, p, now)| == ReadableCount(t, fused, p, now)
  {
    hide MayRead, Entitled;
    var all := ReadablePlaces(t, fused, p, now);
    if fused == [] {
      assert forall k :: k !in all;
      assert all == {};
    } else {
      var n := |fused| - 1;
      VisibleAreReadable(t, fused[..n], p, now);
      MayReadIsEntitled(t, fused[n].id, p, now);
      MorePlaces(t, fused, p, now);
    }
  }

  lemma {:induction false} MorePlaces(t: Tables, fused: seq<Fused>, p: string, now: Temporal.Time)
    requires fused != []
    ensures var n := |fused| - 1;
            ReadableCount(t, fused, p, now)
            == ReadableCount(t, fused[..n], p, now) + if Entitled(t, fused[n].id, p, now) then 1 else 0
  {
    hide Entitled;
    var n := |fused| - 1;
    assert ReadablePlaces(t, fused, p, now)
        == ReadablePlaces(t, fused[..n], p, now) + if Entitled(t, fused[n].id, p, now) then {n} else {};
  }

  predicate AllDated(claims: seq<Scored>) {
    forall i | 0 <= i < |claims| :: claims[i].claim.recordedAt > 0
  }

  lemma {:induction false} StalenessBounds(claims: seq<Scored>, now: Temporal.Time)
    ensures claims == [] ==> Staleness(claims, now) == 0
    ensures claims != [] && AllDated(claims) ==> AgeOfOldest(claims, now, Staleness(claims, now))
  {
    if claims != [] && AllDated(claims) {
      var k := StalenessIsOfTheOldest(claims, now);
    }
  }

  lemma {:induction false} AnswerDelivers(t: Tables, fused: seq<Fused>, q: Request, count: Counter, a: Answer)
    requires q.limit >= 0 && q.budget >= 0 && PackageFor(t, fused, q, count, a)
    ensures Delivered(t, fused, q, count, a)
  {
    hide Selected, Visible, Pack, DominatedBy, ReadableCount, Tokens, AllTexts, Kept, NoRoom, Staleness, AgeOfOldest;
    var ks := PackSelects(t, fused, q.principal, q.now, q.limit, q.budget, count);
    var js := PackageIsMaximal(Visible(t, fused, q.principal, q.now), q.limit, q.budget, count);
    VisibleAreReadable(t, fused, q.principal, q.now);
    StalenessBounds(a.package.claims, q.now);
  }

  /** The earliest start among the claims; a zero start is passed over. */
  function Oldest(claims: seq<Scored>): Temporal.Time {
    if claims == [] then 0
    else
      var oldest, c := Oldest(claims[..|claims| - 1]), claims[|claims| - 1].claim;
      if oldest == 0 || c.recordedAt < oldest then c.recordedAt else oldest
  }

  function Staleness(claims: seq<Scored>, now: Temporal.Time): int {
    if Oldest(claims) == 0 then 0 else now - Oldest(claims)
  }

  method Stalest(claims: seq<Scored>, now: Temporal.Time) returns (seconds: int)
    ensures seconds == Staleness(claims, now)
  {
    var oldest: Temporal.Time := 0;
    for i := 0 to |claims|
      invariant oldest == Oldest(claims[..i])
    {
      assert claims[..i + 1][..i] == claims[..i];
      if oldest == 0 || claims[i].claim.recordedAt < oldest {
        oldest := claims[i].claim.recordedAt;
      }
    }
    assert claims[..|claims|] == claims;
    seconds := if oldest == 0 then 0 else now - oldest;
  }

  /** An answer is as stale as its oldest claim. */
  lemma {:induction false} StalenessIsOfTheOldest(claims: seq<Scored>, now: Temporal.Time) returns (k: nat)
    requires claims != [] && forall i | 0 <= i < |claims| :: claims[i].claim.recordedAt > 0
    ensures k < |claims| && Oldest(claims) == claims[k].claim.recordedAt
    ensures Staleness(claims, now) == now - claims[k].claim.recordedAt
    ensures forall i | 0 <= i < |claims| :: now - claims[i].claim.recordedAt <= Staleness(claims, now)
  {
    var n := |claims| - 1;
    k := n;
    if n > 0 {
      var j := StalenessIsOfTheOldest(claims[..n], now);
      assert forall i | 0 <= i < n :: claims[..n][i] == claims[i];
      if claims[n].claim.recordedAt >= Oldest(claims[..n]) { k := j; }
    }
  }

  /** The packing loop over the fused list. */
  method Assemble(t: Tables, fused: seq<Fused>, authorized: seq<Claim>, claims: seq<Claim>, q: Request, count: Counter)
    returns (pkg: Package)
    requires q.limit >= 0 && q.budget >= 0
    requires Hydrated(t, fused, claims) && authorized == Readers(claims, q.principal, q.now)
    ensures pkg == Pack(Visible(t, fused, q.principal, q.now), q.limit, q.budget, count)
  {
    hide Readable, Readers, Pack, Visible, Count;
    var byID: map<string, Claim> := map[];
    for i := 0 to |authorized|
      invariant forall id <- byID :: byID[id].id == id && byID[id] in authorized
      invariant forall k | 0 <= k < i :: authorized[k].id in byID
    {
      byID := byID[authorized[i].id := authorized[i]];
    }
    ByIdIsShown(t, fused, claims, authorized, byID, q.principal, q.now);
    pkg := Package([], 0, 0);
    NothingPacked(t, q, count);
    assert fused[..0] == [];
    for i := 0 to |fused|
      invariant pkg == Pack(Visible(t, fused[..i], q.principal, q.now), q.limit, q.budget, count)
    {
      var f := fused[i];
      NextPacked(t, fused, i, q, count);
      if f.id !in byID {
        continue;
      }
      var c := byID[f.id];
      if |pkg.claims| >= q.limit {
        pkg := pkg.(omitted := pkg.omitted + 1);
        continue;
      }
      var n := CountTokens(count, c);
      if pkg.tokensUsed + n > q.budget {
        pkg := pkg.(omitted := pkg.omitted + 1);
        continue;
      }
      pkg := Package(pkg.claims + [Scored(c, f.score, f.contributions, n)], pkg.tokensUsed + n, pkg.omitted);
    }
    assert fused[..|fused|] == fused;
  }

  lemma {:induction false} ByIdIsShown(t: Tables, fused: seq<Fused>, claims: seq<Claim>, authorized: seq<Claim>,
                                       byID: map<string, Claim>, p: string, now: Temporal.Time)
    requires Hydrated(t, fused, claims) && authorized == Readers(claims, p, now)
    requires forall id <- byID :: byID[id].id == id && byID[id] in authorized
    requires forall k | 0 <= k < |authorized| :: authorized[k].id in byID
    ensures forall i | 0 <= i < |fused| ::
              (fused[i].id in byID <==> Shown(t, fused[i], p, now))
              && (fused[i].id in byID ==> byID[fused[i].id] == Joined(t, fused[i].id))
  {
    hide Readable, Readers;
    forall i | 0 <= i < |fused|
      ensures (fused[i].id in byID <==> Shown(t, fused[i], p, now))
              && (fused[i].id in byID ==> byID[fused[i].id] == Joined(t, fused[i].id))
    {
      if fused[i].id in byID {
        ReadersAreReadable(claims, p, now, byID[fused[i].id]);
      }
      if Shown(t, fused[i], p, now) {
        assert Joined(t, fused[i].id) in claims;
        ReadersAreReadable(claims, p, now, Joined(t, fused[i].id));
        var k :| 0 <= k < |authorized| && authorized[k] == Joined(t, fused[i].id);
      }
    }
  }

  lemma NothingPacked(t: Tables, q: Request, count: Counter)
    requires q.limit >= 0 && q.budget >= 0
    ensures Pack(Visible(t, [], q.principal, q.now), q.limit, q.budget, count) == Package([], 0, 0)
  {
  }

  lemma NextPacked(t: Tables, fused: seq<Fused>, i: nat, q: Request, count: Counter)
    requires q.limit >= 0 && q.budget >= 0 && i < |fused|
    ensures var before := Pack(Visible(t, fused[..i], q.principal, q.now), q.limit, q.budget, count);
            Pack(Visible(t, fused[..i + 1], q.principal, q.now), q.limit, q.budget, count)
            == if Shown(t, fused[i], q.principal, q.now)
               then PackOne(before, Candidate(fused[i], Joined(t, fused[i].id)), q.limit, q.budget, count)
               else before
  {
    hide Readable, Joined, PackOne, Pack;
    var p, now := q.principal, q.now;
    assert fused[..i + 1][..i] == fused[..i];
    assert Visible(t, fused[..i + 1], p, now)
        == Visible(t, fused[..i], p, now)
           + if Shown(t, fused[i], p, now) then [Candidate(fused[i], Joined(t, fused[i].id))] else [];
    if Shown(t, fused[i], q.principal, q.now) {
      var v := Candidate(fused[i], Joined(t, fused[i].id));
      PackSnoc(Visible(t, fused[..i], q.principal, q.now), v, q.limit, q.budget, count);
    } else {
      assert Visible(t, fused[..i], p, now) + [] == Visible(t, fused[..i], p, now);
    }
  }

  lemma PackSnoc(vs: seq<Candidate>, v: Candidate, limit: nat, budget: nat, count: Counter)
    ensures Pack(vs + [v], limit, budget, count) == PackOne(Pack(vs, limit, budget, count), v, limit, budget, count)
  {
  }

  /** The results of one search, ranked from 1 in the order they came. */
  function Ranks(rows: seq<(string, real)>): seq<Ranked> {
    seq(|rows|, i requires 0 <= i < |rows| => Ranked(rows[i].0, i + 1, rows[i].1))
  }

  class Service {
    const limits: Option<Config>
    const count: Counter
    var ledger: seq<RateWindow.Recorded>

    constructor (limits: Option<Config>, count: Counter)
      ensures this.limits == limits && this.count == count && ledger == [] && Paced()
    {
      this.limits := limits;
      this.count := count;
      ledger := [];
    }

    /** No window of the configured length holds more recorded recalls of anyone than the rate. */
    ghost predicate Paced()
      reads this
    {
      limits.Some? && limits.value.recallRate > 0 ==>
        RateWindow.Bounded(limits.value, limits.value.recallRate, RateWindow.Meter(ledger, []))
    }

    /** The searches' rows arrive in their own order; `started` is the clock; `recorded` says whether the
        best-effort append to the ledger went through. */
    method Recall(req: Request, started: Temporal.Time, sameModel: bool, dense: seq<(string, real)>,
                  lexical: seq<(string, real)>, t: Tables, recorded: bool) returns (a: Answer)
      modifies this
      ensures var q := Clamped(req, started, limits);
              && (a == Denied(RateExceeded) <==> RateReached(limits, old(ledger), q.principal, q.now))
              && (a.Denied? ==> ledger == old(ledger))
              && (a.Answer? <==> !RateReached(limits, old(ledger), q.principal, q.now) && sameModel
                                 && |dense| <= q.depth && |lexical| <= q.depth)
      ensures a.Answer? ==> AnswerFor(t, map[DENSE := Ranks(dense), LEXICAL := Ranks(lexical)],
          Clamped(req, started, limits), count, a)
      ensures a.Answer? ==> exists fused ::
                  && FusedList(map[DENSE := Ranks(dense), LEXICAL := Ranks(lexical)], fused)
                  && Delivered(t, fused, Clamped(req, started, limits), count, a)
      ensures a.Answer? ==> var q := Clamped(req, started, limits);
              ledger == old(ledger) + if limits.Some? && recorded then [RateWindow.Recorded(q.principal, q.now)] else []
      ensures old(Paced()) ==> Paced()
    {
      hide Fusion, PackageFor, Readers, Readable, Visible, Pack, RateWindow.Since, RateWindow.Bounded, FusedList,
        Delivered;
      var q := Clamped(req, started, limits);
      WithinRateIff(limits, ledger, q.principal, q.now);
      hide RateReached;
      if limits.Some? {
        var n := RateWindow.Since(ledger, q.principal, WindowStart(q.now, limits.value.recallWindow));
        if !RecallRate(n, limits.value).allowed {
          return Denied(RateExceeded);
        }
      }
      if !sameModel {
        return Denied(ModelMismatch);
      }
      var d := CollectHits(dense);
      var l := CollectHits(lexical);
      var found: Arms := map[DENSE := d, LEXICAL := l];
      assert d == Ranks(dense) && l == Ranks(lexical);
      var ok := EqualDepth(found, q.depth);
      assert |DENSE| != |LEXICAL| && found[DENSE] == d && found[LEXICAL] == l;
      assert ok <==> |dense| <= q.depth && |lexical| <= q.depth;
      if !ok {
        return Denied(DepthExceeded);
      }
      var fused := FuseRRF(found);
      a := Answered(t, found, fused, q);
      if limits.Some? && recorded {
        if limits.value.recallRate > 0 && Paced() {
          RecallKeepsRate(limits, ledger, q.principal, q.now);
        }
        ledger := ledger + [RateWindow.Recorded(q.principal, q.now)];
      }
    }

    method Answered(t: Tables, ghost arms: Arms, fused: seq<Fused>, q: Request) returns (a: Answer)
      requires (exists names :: Fusion(arms, names, fused)) && q.limit >= 0 && q.budget >= 0
      ensures a.Answer? && AnswerFor(t, arms, q, count, a) && Delivered(t, fused, q, count, a)
    {
      hide Delivered, Fusion, Readers, Readable, Visible, Pack, DominatedBy, Oldest;
      var claims := Hydrate(t, fused);
      var authorized := Filter(claims, q.principal, q.now);
      ghost var names :| Fusion(arms, names, fused);
      forall i, j | 0 <= i < j < |fused| ensures fused[i].id != fused[j].id {
        FusedOnce(arms, names, fused, i, j);
      }
      AuthorizedAreVisible(t, fused, claims, q.principal, q.now);
      var pkg := Assemble(t, fused, authorized, claims, q, count);
      var dominant, share := SingleArmShare(fused, q.limit);
      var staleness := Stalest(pkg.claims, q.now);
      a := Answer(pkg, |authorized|, |fused|, dominant, share, staleness);
      assert PackageFor(t, fused, q, count, a);
      AnswerDelivers(t, fused, q, count, a);
    }
  }

  // ---------- Main results ----------

  /** The answer is determined by the arms and by what the principal may read: nothing depends on the order
      in which maps and queries hand over their rows. */
  lemma {:induction false} AnswerIsUnique(t: Tables, arms: Arms, q: Request, count: Counter, a: Answer, b: Answer)
    requires q.limit >= 0 && q.budget >= 0
    requires AnswerFor(t, arms, q, count, a) && AnswerFor(t, arms, q, count, b)
    ensures a == b
  {
    hide Fusion, Visible, Pack, DominatedBy;
    var names, fused :| Fusion(arms, names, fused) && PackageFor(t, fused, q, count, a);
    var names', fused' :| Fusion(arms, names', fused') && PackageFor(t, fused', q, count, b);
    FusionIsUnique(arms, names, fused, names', fused');
    DominantIsUnique(fused, q.limit, a.dominant, a.share, b.dominant, b.share);
  }

  /** A candidate the principal may not read leaves no trace in the package or in the count of authorized claims. */
  lemma {:induction false} UnreadableLeavesNoTrace(t: Tables, fused: seq<Fused>, i: nat, q: Request, count: Counter,
      a: Answer, b: Answer)
    requires q.limit >= 0 && q.budget >= 0 && i < |fused| && !Shown(t, fused[i], q.principal, q.now)
    requires PackageFor(t, fused, q, count, a) && PackageFor(t, fused[..i] + fused[i + 1..], q, count, b)
    ensures a.package == b.package && a.authorized == b.authorized && a.staleness == b.staleness
    ensures a.candidates == b.candidates + 1
  {
    UnreadableIsInvisible(t, fused, i, q.principal, q.now);
  }

  /** For the same search results, two databases that join the same readable claims answer alike. The results
      themselves depend on rows the principal may not read. */
  lemma {:induction false} SameHitsSameAnswer(t: Tables, t': Tables, arms: Arms, q: Request, count: Counter,
      a: Answer, b: Answer)
    requires q.limit >= 0 && q.budget >= 0 && AnswerFor(t, arms, q, count, a) && AnswerFor(t', arms, q, count, b)
    requires forall f: Fused :: Shown(t, f, q.principal, q.now) <==> Shown(t', f, q.principal, q.now)
    requires forall f: Fused | Shown(t, f, q.principal, q.now) && Shown(t', f, q.principal, q.now) ::
               Joined(t, f.id) == Joined(t', f.id)
    ensures a == b
  {
    hide Fusion, Visible, Pack, Shown, Joined, DominatedBy;
    var names, fused :| Fusion(arms, names, fused) && PackageFor(t, fused, q, count, a);
    var names', fused' :| Fusion(arms, names', fused') && PackageFor(t', fused', q, count, b);
    FusionIsUnique(arms, names, fused, names', fused');
    DominantIsUnique(fused, q.limit, a.dominant, a.share, b.dominant, b.share);
    SameReadableRows(t, t', fused, q.principal, q.now);
  }

  /** Everything in an answer is readable, within the limits, and accounted for. */
  lemma {:induction false} AnswersAreSound(t: Tables, arms: Arms, q: Request, count: Counter, a: Answer)
    requires q.limit >= 0 && q.budget >= 0 && AnswerFor(t, arms, q, count, a)
    ensures |a.package.claims| <= q.limit && a.package.tokensUsed == TokensOf(a.package.claims) <= q.budget
    ensures a.authorized == |a.package.claims| + a.package.omitted
    ensures forall i | 0 <= i < |a.package.claims| :: Readable(a.package.claims[i].claim, q.principal, q.now)
    ensures forall i, j | 0 <= i < j < |a.package.claims| ::
              a.package.claims[i].score > a.package.claims[j].score
              || (a.package.claims[i].score == a.package.claims[j].score
                  && Less(a.package.claims[i].claim.id, a.package.claims[j].claim.id))
  {
    hide Fusion, Visible, Pack, Readable, Count, Less;
    var names, fused :| Fusion(arms, names, fused) && PackageFor(t, fused, q, count, a);
    var vs := Visible(t, fused, q.principal, q.now);
    var ks := PackageIsMaximal(vs, q.limit, q.budget, count);
    forall i | 0 <= i < |ks| ensures Readable(a.package.claims[i].claim, q.principal, q.now) {
      VisibleIsReadable(t, fused, q.principal, q.now, ks[i]);
    }
    forall i, j | 0 <= i < j < |ks| ensures Before(vs[ks[i]].fused, vs[ks[j]].fused) {
      OrderedFusion(arms, names, fused);
      VisibleInOrder(t, fused, q.principal, q.now, ks[i], ks[j]);
    }
    forall i | 0 <= i < |ks| ensures vs[ks[i]].fused.id == vs[ks[i]].claim.id {
      VisibleIsReadable(t, fused, q.principal, q.now, ks[i]);
    }
  }

  lemma OrderedFusion(arms: Arms, names: seq<string>, fused: seq<Fused>)
    requires Fusion(arms, names, fused)
    ensures Ordered(fused)
  {
  }

  lemma {:induction false} VisibleInOrder(t: Tables, fused: seq<Fused>, p: string, now: Temporal.Time, i: nat, j: nat)
    requires Ordered(fused) && i < j < |Visible(t, fused, p, now)|
    ensures Before(Visible(t, fused, p, now)[i].fused, Visible(t, fused, p, now)[j].fused)
  {
    hide Before, Shown;
    var n := |fused| - 1;
    if j < |Visible(t, fused[..n], p, now)| {
      VisibleInOrder(t, fused[..n], p, now, i, j);
    } else {
      VisibleIsReadable(t, fused[..n], p, now, i);
      var k :| 0 <= k < n && fused[..n][k] == Visible(t, fused[..n], p, now)[i].fused;
      assert Before(fused[k], fused[n]);
    }
  }

  /** Serving recalls one at a time keeps every window within the rate. */
  lemma {:induction false} RecallKeepsRate(limits: Option<Config>, ledger: seq<RateWindow.Recorded>, p: string,
      now: Temporal.Time)
    requires limits.Some? && limits.value.recallRate > 0 && WithinRate(limits, ledger, p, now)
    requires RateWindow.Bounded(limits.value, limits.value.recallRate, RateWindow.Meter(ledger, []))
    ensures RateWindow.Bounded(limits.value, limits.value.recallRate,
        RateWindow.Meter(ledger + [RateWindow.Recorded(p, now)], []))
  {
    var cfg, s := limits.value, RateWindow.Meter(ledger, []);
    var e := RateWindow.Recorded(p, now);
    RateWindow.StepKeepsBound(cfg, 1, s, RateWindow.Begin(p, now));
    var s' := RateWindow.Step(cfg, 1, s, RateWindow.Begin(p, now));
    assert s' == RateWindow.Meter(ledger, [e]);
    RateWindow.StepKeepsBound(cfg, 1, s', RateWindow.Finish(0, true));
    assert RateWindow.Step(cfg, 1, s', RateWindow.Finish(0, true)) == RateWindow.Meter(ledger + [e], []);
  }
}
