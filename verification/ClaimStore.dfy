/** The store object: its statements run one at a time on the claims table. */
module ClaimStore {
  import opened Strings
  import opened Temporal
  import opened ClaimTable
  import opened Lifecycle

  datatype DupMember = DupMember(id: string, recordedAt: Time)

  datatype DupRow = DupRow(hash: string, member: DupMember)

  ghost predicate HasTwin(t: Table, id: string) {
    exists x :: x != id && Twins(t, x, id)
  }

  ghost predicate RowOf(t: Table, r: DupRow) {
    && HasTwin(t, r.member.id)
    && t[r.member.id].content.statementHash == Some(r.hash) && t[r.member.id].recordedAt == r.member.recordedAt
  }

  /** The rows of the duplicate query, in whatever order: every live row that shares its hash. */
  ghost predicate DuplicateRows(t: Table, rows: seq<DupRow>) {
    && (forall i | 0 <= i < |rows| :: RowOf(t, rows[i]))
    && DistinctRows(rows)
    && (forall id | HasTwin(t, id) :: exists i :: 0 <= i < |rows| && rows[i].member.id == id)
  }

  ghost predicate MemberAt(groups: seq<seq<DupMember>>, g: int, k: int, id: string) {
    0 <= g < |groups| && 0 <= k < |groups[g]| && groups[g][k].id == id
  }

  /** The groups divide the live rows that share a hash: by hash, each row once. */
  ghost predicate GroupsOf(t: Table, groups: seq<seq<DupMember>>) {
    && (forall g, k | 0 <= g < |groups| && 0 <= k < |groups[g]| ::
          HasTwin(t, groups[g][k].id) && groups[g][k].recordedAt == t[groups[g][k].id].recordedAt)
    && (forall g, k, l | 0 <= g < |groups| && 0 <= k < l < |groups[g]| ::
          groups[g][k].id != groups[g][l].id && Twins(t, groups[g][k].id, groups[g][l].id))
    && (forall g, h, k, l | 0 <= g < h < |groups| && 0 <= k < |groups[g]| && 0 <= l < |groups[h]| ::
          !Twins(t, groups[g][k].id, groups[h][l].id))
    && (forall id | HasTwin(t, id) :: exists g, k :: MemberAt(groups, g, k, id))
  }

  /** The members with hash `h`, in row order. */
  function MembersOf(rows: seq<DupRow>, h: string): seq<DupMember> {
    if rows == [] then []
    else
      var n := |rows| - 1;
      MembersOf(rows[..n], h) + if rows[n].hash == h then [rows[n].member] else []
  }

  ghost predicate DistinctIds(ms: seq<DupMember>) {
    forall k, l | 0 <= k < l < |ms| :: ms[k].id != ms[l].id
  }

  ghost predicate DistinctRows(rows: seq<DupRow>) {
    forall i, j | 0 <= i < j < |rows| :: rows[i].member.id != rows[j].member.id
  }

  lemma {:induction false} MemberIsRow(rows: seq<DupRow>, h: string, k: nat) returns (i: nat)
    requires k < |MembersOf(rows, h)|
    ensures i < |rows| && rows[i] == DupRow(h, MembersOf(rows, h)[k])
  {
    var n := |rows| - 1;
    if k < |MembersOf(rows[..n], h)| {
      i := MemberIsRow(rows[..n], h, k);
    } else {
      i := n;
    }
  }

  lemma {:induction false} MembersAreDistinct(rows: seq<DupRow>, h: string)
    requires DistinctRows(rows)
    ensures DistinctIds(MembersOf(rows, h))
  {
    if rows != [] {
      var n := |rows| - 1;
      assert forall i, j | 0 <= i < j < n :: rows[..n][i].member.id != rows[..n][j].member.id;
      MembersAreDistinct(rows[..n], h);
      var before := MembersOf(rows[..n], h);
      forall k | 0 <= k < |before| ensures before[k].id != rows[n].member.id {
        var i := MemberIsRow(rows[..n], h, k);
      }
    }
  }

  lemma {:induction false} RowsAreMembers(rows: seq<DupRow>, i: nat) returns (k: nat)
    requires i < |rows|
    ensures k < |MembersOf(rows, rows[i].hash)| && MembersOf(rows, rows[i].hash)[k] == rows[i].member
  {
    var n := |rows| - 1;
    if i == n {
      k := |MembersOf(rows[..n], rows[i].hash)|;
    } else {
      k := RowsAreMembers(rows[..n], i);
    }
  }

  /** A map of slices: a missing key reads as the empty slice. */
  function Grouped(groups: map<string, seq<DupMember>>, h: string): seq<DupMember> {
    if h in groups then groups[h] else []
  }

  lemma NoMembers(rows: seq<DupRow>)
    ensures (forall h :: MembersOf(rows[..0], h) == []) && HashOrder(rows[..0]) == []
  {
  }

  lemma NextMember(rows: seq<DupRow>, i: nat)
    requires i < |rows|
    ensures forall h :: MembersOf(rows[..i + 1], h)
                        == MembersOf(rows[..i], h) + if h == rows[i].hash then [rows[i].member] else []
  {
    assert rows[..i + 1][..i] == rows[..i];
  }

  /** The hashes in the order of their first appearance. */
  function HashOrder(rows: seq<DupRow>): seq<string> {
    if rows == [] then []
    else
      var n := |rows| - 1;
      HashOrder(rows[..n]) + if rows[n].hash in HashOrder(rows[..n]) then [] else [rows[n].hash]
  }

  lemma NextHash(rows: seq<DupRow>, i: nat)
    requires i < |rows|
    ensures HashOrder(rows[..i + 1])
            == HashOrder(rows[..i]) + if rows[i].hash in HashOrder(rows[..i]) then [] else [rows[i].hash]
  {
    assert rows[..i + 1][..i] == rows[..i];
  }

  /** Each hash once. */
  lemma {:induction false} HashOrderOnce(rows: seq<DupRow>)
    ensures forall g, h | 0 <= g < h < |HashOrder(rows)| :: HashOrder(rows)[g] != HashOrder(rows)[h]
    ensures forall i | 0 <= i < |rows| :: rows[i].hash in HashOrder(rows)
  {
    if rows != [] {
      var n := |rows| - 1;
      HashOrderOnce(rows[..n]);
      NextHash(rows, n);
      assert rows[..n + 1] == rows;
      forall i | 0 <= i < |rows| ensures rows[i].hash in HashOrder(rows) {
        assert i < n ==> rows[..n][i] == rows[i];
      }
    }
  }

  ghost predicate InRows(rows: seq<DupRow>, h: string, ks: seq<nat>) {
    && (forall i | 0 <= i < |ks| :: ks[i] < |rows| && rows[ks[i]].hash == h)
    && (forall i, j | 0 <= i < j < |ks| :: ks[i] < ks[j])
    && (forall k: nat | k < |rows| && rows[k].hash == h :: k in ks)
  }

  /** A group's members are those of the rows with its hash, in row order. */
  lemma {:induction false} MembersInOrder(rows: seq<DupRow>, h: string) returns (ks: seq<nat>)
    ensures InRows(rows, h, ks) && |ks| == |MembersOf(rows, h)|
    ensures forall i | 0 <= i < |ks| :: MembersOf(rows, h)[i] == rows[ks[i]].member
  {
    hide InRows;
    ks := [];
    if rows == [] {
      NothingInRows(h);
    } else {
      var n := |rows| - 1;
      var was := MembersInOrder(rows[..n], h);
      ks := if rows[n].hash == h then was + [n] else was;
      NextInRows(rows, h, was);
      assert forall i | 0 <= i < |was| :: was[i] < n by { InRowsBound(rows[..n], h, was); }
    }
  }

  lemma NothingInRows(h: string)
    ensures InRows([], h, [])
  {
  }

  lemma InRowsBound(rows: seq<DupRow>, h: string, ks: seq<nat>)
    requires InRows(rows, h, ks)
    ensures forall i | 0 <= i < |ks| :: ks[i] < |rows|
  {
  }

  lemma {:induction false} NextInRows(rows: seq<DupRow>, h: string, ks: seq<nat>)
    requires rows != [] && InRows(rows[..|rows| - 1], h, ks)
    ensures InRows(rows, h, if rows[|rows| - 1].hash == h then ks + [|rows| - 1] else ks)
  {
    var n := |rows| - 1;
    var more := if rows[n].hash == h then ks + [n] else ks;
    forall k: nat | k < |rows| && rows[k].hash == h ensures k in more {
      if k < n {
        assert rows[..n][k].hash == h && k in ks;
      } else {
        assert more[|ks|] == n;
      }
    }
  }

  /** Hash `h` appears in row `k` for the first time. */
  ghost predicate FirstIn(rows: seq<DupRow>, h: string, k: int) {
    0 <= k < |rows| && rows[k].hash == h && forall j | 0 <= j < k :: rows[j].hash != h
  }

  lemma {:induction false} HashesInOrder(rows: seq<DupRow>) returns (ks: seq<nat>)
    ensures |ks| == |HashOrder(rows)| && forall g | 0 <= g < |ks| :: FirstIn(rows, HashOrder(rows)[g], ks[g])
    ensures forall g, h | 0 <= g < h < |ks| :: ks[g] < ks[h]
  {
    ks := [];
    if rows != [] {
      var n := |rows| - 1;
      HashOrderOnce(rows[..n]);
      var was := HashesInOrder(rows[..n]);
      var order := HashOrder(rows[..n]);
      hide FirstIn;
      NextHash(rows, n);
      assert rows[..n + 1] == rows;
      hide HashOrder;
      forall g | 0 <= g < |was| ensures was[g] < n && FirstIn(rows, order[g], was[g]) {
        FirstStays(rows, order[g], was[g]);
      }
      ks := was;
      if rows[n].hash !in order {
        forall j | 0 <= j < n ensures rows[j].hash != rows[n].hash {
          assert rows[..n][j].hash in order;
        }
        FirstNow(rows);
        ks := was + [n];
      }
    }
  }

  lemma FirstStays(rows: seq<DupRow>, h: string, k: int)
    requires rows != [] && FirstIn(rows[..|rows| - 1], h, k)
    ensures k < |rows| - 1 && FirstIn(rows, h, k)
  {
    assert forall j | 0 <= j < |rows| - 1 :: rows[..|rows| - 1][j] == rows[j];
  }

  lemma FirstNow(rows: seq<DupRow>)
    requires rows != [] && forall j | 0 <= j < |rows| - 1 :: rows[j].hash != rows[|rows| - 1].hash
    ensures FirstIn(rows, rows[|rows| - 1].hash, |rows| - 1)
  {
  }

  /** Grouping rows by hash, hashes in the order of their first appearance. */
  method GroupRows(rows: seq<DupRow>) returns (out: seq<seq<DupMember>>)
    ensures out == seq(|HashOrder(rows)|, g requires 0 <= g < |HashOrder(rows)| => MembersOf(rows, HashOrder(rows)[g]))
  {
    hide MembersOf, HashOrder;
    var groups: map<string, seq<DupMember>> := map[];
    var order: seq<string> := [];
    NoMembers(rows);
    for i := 0 to |rows|
      invariant order == HashOrder(rows[..i])
      invariant forall h :: h in groups <==> h in order
      invariant forall h :: Grouped(groups, h) == MembersOf(rows[..i], h)
    {
      var key := rows[i].hash;
      NextMember(rows, i);
      NextHash(rows, i);
      if key !in groups {
        order := order + [key];
      }
      ghost var was := groups;
      groups := groups[key := Grouped(groups, key) + [rows[i].member]];
      forall h ensures Grouped(groups, h) == MembersOf(rows[..i + 1], h) {
        assert Grouped(was, h) == MembersOf(rows[..i], h);
      }
    }
    assert rows[..|rows|] == rows;
    out := [];
    for g := 0 to |order|
      invariant |out| == g && forall h | 0 <= h < g :: out[h] == MembersOf(rows, order[h])
    {
      assert order[g] in groups && Grouped(groups, order[g]) == MembersOf(rows[..|rows|], order[g]);
      out := out + [groups[order[g]]];
    }
  }

  lemma {:induction false} GroupedRows(t: Table, rows: seq<DupRow>, out: seq<seq<DupMember>>, order: seq<string>)
    requires DuplicateRows(t, rows)
    requires |out| == |order| && forall g | 0 <= g < |out| :: out[g] == MembersOf(rows, order[g])
    requires forall g, h | 0 <= g < h < |order| :: order[g] != order[h]
    requires forall i | 0 <= i < |rows| :: rows[i].hash in order
    ensures GroupsOf(t, out)
  {
    hide MembersOf, DistinctRows;
    forall g, k | 0 <= g < |out| && 0 <= k < |out[g]|
      ensures HasTwin(t, out[g][k].id) && out[g][k].recordedAt == t[out[g][k].id].recordedAt
              && t[out[g][k].id].content.statementHash == Some(order[g])
    {
      var i := MemberIsRow(rows, order[g], k);
      assert RowOf(t, rows[i]);
    }
    forall g, k, l | 0 <= g < |out| && 0 <= k < l < |out[g]|
      ensures out[g][k].id != out[g][l].id && Twins(t, out[g][k].id, out[g][l].id)
    {
      MembersAreDistinct(rows, order[g]);
      assert HasTwin(t, out[g][k].id) && HasTwin(t, out[g][l].id);
    }
    forall id | HasTwin(t, id) ensures exists g, k :: MemberAt(out, g, k, id) {
      var i :| 0 <= i < |rows| && rows[i].member.id == id;
      var k := RowsAreMembers(rows, i);
      var g :| 0 <= g < |order| && order[g] == rows[i].hash;
      assert MemberAt(out, g, k, id);
    }
  }

  class Store {
    var claims: Table

    constructor ()
      ensures claims == map[]
    {
      claims := map[];
    }

    /** The database picks an identifier that is not in use. One row more, open in both dimensions from `at`. */
    method WriteClaim(id: string, content: Content, at: Time)
      requires id !in claims && content.statementHash.Some?
      modifies this
      ensures claims == InsertClaim(old(claims), id, content, at)
      ensures Live(claims, id) && claims.Keys == old(claims).Keys + {id}
      ensures claims[id].content == content && claims[id].recordedAt == claims[id].validFrom == at
              && claims[id].validUntil.None? && claims[id].supersededBy.None? && claims[id].reason.None?
      ensures forall x <- old(claims) :: claims[x] == old(claims)[x]
      ensures forall v: Time, x: Time :: InSnapshot(claims[id], v, x) <==> at <= v && at <= x
    {
      claims := claims[id := Row(content, |claims|, at, at, None, None, None, None)];
    }

    method QueryDuplicateRows() returns (rows: seq<DupRow>)
      ensures DuplicateRows(claims, rows)
    {
      rows := [];
      var rest := claims.Keys;
      while rest != {}
        invariant rest <= claims.Keys
        invariant forall i | 0 <= i < |rows| :: rows[i].member.id !in rest && RowOf(claims, rows[i])
        invariant DistinctRows(rows)
        invariant forall id | id !in rest && HasTwin(claims, id) ::
                    exists i :: 0 <= i < |rows| && rows[i].member.id == id
        decreases |rest|
      {
        var id :| id in rest;
        rest := rest - {id};
        ghost var was := rows;
        if exists x <- claims.Keys :: x != id && Twins(claims, x, id) {
          rows := rows + [DupRow(claims[id].content.statementHash.value, DupMember(id, claims[id].recordedAt))];
          assert rows[|was|].member.id == id;
        }
        forall y | y !in rest && HasTwin(claims, y) ensures exists i :: 0 <= i < |rows| && rows[i].member.id == y {
          if y != id {
            var i :| 0 <= i < |was| && was[i].member.id == y;
            assert rows[i].member.id == y;
          }
        }
      }
    }

    method LiveDuplicateGroups() returns (groups: seq<seq<DupMember>>)
      ensures GroupsOf(claims, groups)
    {
      var rows := QueryDuplicateRows();
      groups := GroupRows(rows);
      HashOrderOnce(rows);
      GroupedRows(claims, rows, groups, HashOrder(rows));
    }

    method Load(id: string) returns (c: Option<Claim<Content>>)
      ensures c == LoadClaimForSupersession(claims, id)
      ensures c.Some? <==> Live(claims, id)
      ensures c.Some? ==> c.value.id == id && c.value.content == claims[id].content && IsOpen(c.value.recorded)
                          && c.value.recorded.from == claims[id].recordedAt
                          && c.value.valid.from == claims[id].validFrom
    {
      if id in claims && claims[id].supersededAt.None? {
        return Some(ToClaim(id, claims[id]));
      }
      return None;
    }

    /** Only a live row is closed, at the claim's own instants and in favour of a row that exists; a close that
        the constraints refuse, and one that comes too late, change nothing. */
    method Apply(c: Claim<Content>, reason: string) returns (outcome: Outcome)
      modifies this
      ensures (claims, outcome) == ApplySupersession(old(claims), c, reason)
      ensures outcome == NotFound <==> !Live(old(claims), c.id)
      ensures outcome == Done <==>
                && Live(old(claims), c.id) && c.supersededBy != c.id && c.supersededBy in old(claims)
                && old(claims)[c.id].recordedAt < c.recorded.until
                && (c.valid.until != 0 ==> old(claims)[c.id].validFrom < c.valid.until)
      ensures outcome == Done ==>
                && claims.Keys == old(claims).Keys && !Live(claims, c.id)
                && RowEvolves(old(claims)[c.id], claims[c.id])
                && claims[c.id].supersededAt == Some(c.recorded.until)
                && claims[c.id].supersededBy == Some(c.supersededBy)
                && claims[c.id].validUntil == NullIfZero(c.valid.until) && claims[c.id].reason == Some(reason)
      ensures forall x <- old(claims) | x != c.id :: x in claims && claims[x] == old(claims)[x]
      ensures outcome != Done ==> claims == old(claims)
    {
      if c.id !in claims || claims[c.id].supersededAt.Some? {
        return NotFound;
      }
      var r := claims[c.id].(supersededAt := Some(c.recorded.until), validUntil := NullIfZero(c.valid.until),
                             supersededBy := Some(c.supersededBy), reason := Some(reason));
      if !Checked(c.id, r) || c.supersededBy !in claims {
        return Rejected;
      }
      claims := claims[c.id := r];
      outcome := Done;
    }

    /** Only a live row that started before the clock is closed, at the clock and without a successor. */
    method Expire(id: string, reason: string, now: Time) returns (outcome: Outcome)
      modifies this
      ensures (claims, outcome) == ExpireClaim(old(claims), id, reason, now)
      ensures outcome == NotFound <==> !Live(old(claims), id)
      ensures outcome == Done <==> Live(old(claims), id) && StartedBefore(old(claims)[id], now)
      ensures outcome == Done ==>
                && claims.Keys == old(claims).Keys && !Live(claims, id)
                && RowEvolves(old(claims)[id], claims[id])
                && claims[id].supersededAt == Some(now) && claims[id].validUntil == Some(now)
                && claims[id].supersededBy == None && claims[id].reason == Some(reason)
      ensures forall x <- old(claims) | x != id :: x in claims && claims[x] == old(claims)[x]
      ensures outcome != Done ==> claims == old(claims)
    {
      if id !in claims || claims[id].supersededAt.Some? {
        return NotFound;
      }
      var r := ClosedRow(claims[id], now, None, Some(reason));
      if !Checked(id, r) {
        return Rejected;
      }
      claims := claims[id := r];
      outcome := Done;
    }
  }
}
