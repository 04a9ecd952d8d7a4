/** Access control as the intersection of grant sets, failing closed. */
module Acl {
  import opened Temporal

  /** A zero `expiresAt` never expires. */
  datatype Grant = Grant(principal: string, expiresAt: Time)

  type ACL = seq<Grant>

  datatype Evidence = Evidence(id: string, text: string, acl: ACL)

  datatype Claim = Claim(id: string, statement: string, recordedAt: Time, acl: ACL, evidence: seq<Evidence>)

  predicate Current(g: Grant, now: Time) {
    g.expiresAt == 0 || now < g.expiresAt
  }

  predicate Admits(a: ACL, p: string, now: Time) {
    exists g <- a :: g.principal == p && Current(g, now)
  }

  predicate AllAdmit(evidence: seq<Evidence>, p: string, now: Time) {
    forall e <- evidence :: Admits(e.acl, p, now)
  }

  /** Someone may read a claim when it rests on evidence, and the claim and all of its evidence admit them. */
  predicate Readable(c: Claim, p: string, now: Time) {
    c.evidence != [] && Admits(c.acl, p, now) && AllAdmit(c.evidence, p, now)
  }

  method Active(a: ACL, now: Time) returns (out: set<string>)
    ensures forall p :: p in out <==> Admits(a, p, now)
  {
    out := {};
    for i := 0 to |a|
      invariant forall p :: p in out <==> Admits(a[..i], p, now)
    {
      assert a[..i + 1] == a[..i] + [a[i]];
      if a[i].expiresAt != 0 && now >= a[i].expiresAt {
        continue;
      }
      out := out + {a[i].principal};
    }
    assert a[..|a|] == a;
  }

  method Intersect(sets: seq<ACL>, now: Time) returns (out: set<string>)
    ensures forall p :: p in out <==> sets != [] && forall a <- sets :: Admits(a, p, now)
  {
    hide Admits;
    if |sets| == 0 {
      return {};
    }
    out := Active(sets[0], now);
    for i := 1 to |sets|
      invariant forall p :: p in out <==> forall k | 0 <= k < i :: Admits(sets[k], p, now)
    {
      var next := Active(sets[i], now);
      ghost var was := out;
      var rest := out;
      while rest != {}
        invariant rest <= out <= was
        invariant forall p :: p in was ==> (p in out <==> p in rest || p in next)
        decreases |rest|
      {
        var p :| p in rest;
        rest := rest - {p};
        if p !in next {
          out := out - {p};
        }
      }
    }
  }

  method Permitted(c: Claim, now: Time) returns (out: set<string>)
    ensures forall p :: p in out <==> Readable(c, p, now)
  {
    hide Admits;
    if |c.evidence| == 0 {
      return {};
    }
    var sets := [c.acl];
    for i := 0 to |c.evidence|
      invariant |sets| == i + 1 && sets[0] == c.acl
      invariant forall k | 0 <= k < i :: sets[k + 1] == c.evidence[k].acl
    {
      sets := sets + [c.evidence[i].acl];
    }
    out := Intersect(sets, now);
    forall p ensures p in out <==> Readable(c, p, now) {
      if p in out {
        forall e <- c.evidence ensures Admits(e.acl, p, now) {
          var k :| 0 <= k < |c.evidence| && c.evidence[k] == e;
          assert sets[k + 1] in sets;
        }
      }
      if Readable(c, p, now) {
        forall a <- sets ensures Admits(a, p, now) {
          var k :| 0 <= k < |sets| && sets[k] == a;
          assert k > 0 ==> sets[k - 1 + 1] == c.evidence[k - 1].acl && c.evidence[k - 1] in c.evidence;
        }
      }
    }
  }

  method CanRead(c: Claim, p: string, now: Time) returns (ok: bool)
    ensures ok == Readable(c, p, now)
  {
    var permitted := Permitted(c, now);
    ok := p in permitted;
  }

  /** The claims `p` may read, in order. */
  function Readers(claims: seq<Claim>, p: string, now: Time): seq<Claim> {
    if claims == [] then []
    else
      var n := |claims| - 1;
      Readers(claims[..n], p, now) + if Readable(claims[n], p, now) then [claims[n]] else []
  }

  method Filter(claims: seq<Claim>, p: string, now: Time) returns (out: seq<Claim>)
    ensures out == Readers(claims, p, now)
  {
    hide Readable;
    out := [];
    for i := 0 to |claims|
      invariant out == Readers(claims[..i], p, now)
    {
      assert claims[..i + 1][..i] == claims[..i];
      var ok := CanRead(claims[i], p, now);
      if ok {
        out := out + [claims[i]];
      }
    }
    assert claims[..|claims|] == claims;
  }

  lemma {:induction false} ReadersAreReadable(claims: seq<Claim>, p: string, now: Time, c: Claim)
    ensures c in Readers(claims, p, now) <==> c in claims && Readable(c, p, now)
  {
    hide Readable;
    if claims != [] {
      var n := |claims| - 1;
      ReadersAreReadable(claims[..n], p, now, c);
      assert claims == claims[..n] + [claims[n]];
    }
  }

  /** Filtering commutes with concatenation, so it keeps the order and the number of times a claim occurs. */
  lemma {:induction false} ReadersOfConcat(a: seq<Claim>, b: seq<Claim>, p: string, now: Time)
    ensures Readers(a + b, p, now) == Readers(a, p, now) + Readers(b, p, now)
    decreases |b|
  {
    hide Readable;
    if b == [] {
      assert a + b == a;
    } else {
      var n := |b| - 1;
      assert (a + b)[..|a| + n] == a + b[..n];
      ReadersOfConcat(a, b[..n], p, now);
    }
  }

  /** A claim that gathers the evidence of two may be read by exactly those who may read both. */
  lemma GatheringIntersects(c: Claim, d: Claim, p: string, now: Time)
    requires c.acl == d.acl && c.evidence != [] && d.evidence != []
    ensures Readable(c.(evidence := c.evidence + d.evidence), p, now) <==> Readable(c, p, now) && Readable(d, p, now)
  {
  }

  /** Time only takes access away. */
  lemma AccessOnlyExpires(c: Claim, p: string, now: Time, later: Time)
    requires now <= later && Readable(c, p, later)
    ensures Readable(c, p, now)
  {
  }

  /** Without evidence, without grants of its own, or with one piece of ungranted evidence, nobody reads it. */
  lemma UngrantedIsUnreadable(c: Claim, p: string, now: Time)
    requires c.evidence == [] || c.acl == [] || exists e <- c.evidence :: e.acl == []
    ensures !Readable(c, p, now)
  {
  }
}
