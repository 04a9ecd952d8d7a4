/** The claims table: rows are inserted, and closed at most once. Every statement the store issues is
    one atomic function from table to table. */
module ClaimTable {
  import opened Strings
  import opened Temporal

  /** What never changes about a row. The hash is None for seeded claims. */
  datatype Content = Content(statement: string, scope: string, confidence: real, statementHash: Option<string>)

  /** `serial` is the number of rows inserted before this one; the store does not keep it. */
  datatype Row = Row(content: Content, serial: nat, recordedAt: Time, validFrom: Time,
                     supersededAt: Option<Time>, validUntil: Option<Time>,
                     supersededBy: Option<string>, reason: Option<string>)

  type Table = map<string, Row>

  datatype Outcome = Done | NotFound | Rejected

  /** The CHECK constraints of the schema. */
  predicate Checked(id: string, r: Row) {
    && (r.supersededAt.Some? ==> r.recordedAt < r.supersededAt.value)
    && (r.validUntil.Some? ==> r.validFrom < r.validUntil.value)
    && (r.supersededBy.Some? ==> r.supersededAt.Some? && r.supersededBy.value != id)
    && (r.reason.Some? ==> r.supersededAt.Some?)
  }

  predicate StartedBefore(r: Row, now: Time) {
    r.recordedAt < now && r.validFrom < now
  }

  predicate Live(t: Table, id: string) {
    id in t && t[id].supersededAt.None?
  }

  function Fresh(t: Table, content: Content, at: Time): Row {
    Row(content, |t|, at, at, None, None, None, None)
  }

  /** WriteClaim and InsertSeed: a new row, open in both dimensions. */
  function InsertClaim(t: Table, id: string, content: Content, at: Time): Table
    requires id !in t
  {
    t[id := Fresh(t, content, at)]
  }

  function ClosedRow(r: Row, now: Time, successor: Option<string>, reason: Option<string>): Row {
    r.(supersededAt := Some(now), validUntil := Some(now), supersededBy := successor, reason := reason)
  }

  /** UPDATE ... WHERE id = $1 AND superseded_at IS NULL. */
  function UpdateLive(t: Table, id: string, r: Row): (Table, Outcome) {
    if !Live(t, id) then (t, NotFound)
    else if !Checked(id, r) || (r.supersededBy.Some? && r.supersededBy.value !in t) then (t, Rejected)
    else (t[id := r], Done)
  }

  function ExpireClaim(t: Table, id: string, reason: string, now: Time): (Table, Outcome) {
    if !Live(t, id) then (t, NotFound)
    else UpdateLive(t, id, ClosedRow(t[id], now, None, Some(reason)))
  }

  function NullIfZero(t: Time): Option<Time> {
    if t == 0 then None else Some(t)
  }

  function ZeroIfNull(t: Option<Time>): Time {
    match t case None => 0 case Some(x) => x
  }

  function ToClaim(id: string, r: Row): Claim<Content> {
    Claim(id, r.content, Interval(r.validFrom, ZeroIfNull(r.validUntil)),
          Interval(r.recordedAt, ZeroIfNull(r.supersededAt)),
          match r.supersededBy case None => "" case Some(s) => s)
  }

  function LoadClaimForSupersession(t: Table, id: string): Option<Claim<Content>> {
    if Live(t, id) then Some(ToClaim(id, t[id])) else None
  }

  function ApplySupersession(t: Table, c: Claim<Content>, reason: string): (Table, Outcome) {
    if !Live(t, c.id) then (t, NotFound)
    else UpdateLive(t, c.id, t[c.id].(supersededAt := Some(c.recorded.until), validUntil := NullIfZero(c.valid.until),
                                      supersededBy := Some(c.supersededBy), reason := Some(reason)))
  }

  /** One transaction: insert the new chunk's claim, then close the old one if it is still live. */
  function ReplaceSeed(t: Table, oldId: string, id: string, content: Content, at: Time, now: Time): (Table, Outcome)
    requires id !in t
  {
    var t' := InsertClaim(t, id, content, at);
    if !Live(t', oldId) then (t', Done)
    else
      var r := t'[oldId].(supersededAt := Some(now), validUntil := Some(now), supersededBy := Some(id));
      if Checked(oldId, r) then (t'[oldId := r], Done) else (t, Rejected)
  }

  /** Closes a set of live rows in one statement. */
  function CloseAll(t: Table, ids: set<string>, reason: string, now: Time): (Table, Outcome)
    requires forall id <- ids :: Live(t, id)
  {
    if exists id <- ids :: id in t && !Checked(id, ClosedRow(t[id], now, None, Some(reason))) then (t, Rejected)
    else (map id <- t :: if id in ids then ClosedRow(t[id], now, None, Some(reason)) else t[id], Done)
  }

  // ---------- What every statement keeps ----------

  /** The schema's constraints, and what the store adds to them: a live row is open in valid time and
      has no successor, serials count rows, and every successor is a row of the table. */
  ghost predicate GoodTable(t: Table) {
    && (forall id {:trigger t[id]} | id in t :: Checked(id, t[id]) && t[id].serial < |t|)
    && (forall id {:trigger t[id]} | id in t && t[id].supersededAt.None? ::
          t[id].validUntil.None? && t[id].supersededBy.None?)
    && (forall id {:trigger t[id].supersededBy} | id in t :: t[id].supersededBy.Some? ==> t[id].supersededBy.value in t)
  }

  /** `r'` is `r`, or `r` closed: content, serial and start times never change, and nothing that is
      closed changes again. */
  ghost predicate RowEvolves(r: Row, r': Row) {
    && r'.content == r.content && r'.serial == r.serial
    && r'.recordedAt == r.recordedAt && r'.validFrom == r.validFrom
    && (r.supersededAt.Some? ==> r' == r)
  }

  /** No row is deleted. */
  ghost predicate Evolves(t: Table, t': Table) {
    && |t| <= |t'| && forall id <- t :: id in t' && RowEvolves(t[id], t'[id])
  }

  lemma EvolvesTransitively(t: Table, t': Table, t'': Table)
    requires Evolves(t, t') && Evolves(t', t'')
    ensures Evolves(t, t'')
  {
  }

  lemma InsertKeepsTable(t: Table, id: string, content: Content, at: Time)
    requires GoodTable(t) && id !in t
    ensures GoodTable(InsertClaim(t, id, content, at)) && Evolves(t, InsertClaim(t, id, content, at))
  {
  }

  lemma UpdateKeepsTable(t: Table, id: string, r: Row)
    requires GoodTable(t) && Live(t, id) && RowEvolves(t[id], r)
    requires r.supersededAt.Some?
    ensures GoodTable(UpdateLive(t, id, r).0) && Evolves(t, UpdateLive(t, id, r).0)
  {
  }

  lemma ReplaceKeepsTable(t: Table, oldId: string, id: string, content: Content, at: Time, now: Time)
    requires GoodTable(t) && id !in t
    ensures GoodTable(ReplaceSeed(t, oldId, id, content, at, now).0)
    ensures Evolves(t, ReplaceSeed(t, oldId, id, content, at, now).0)
  {
    InsertKeepsTable(t, id, content, at);
    var t1 := InsertClaim(t, id, content, at);
    if Live(t1, oldId) {
      var r := t1[oldId].(supersededAt := Some(now), validUntil := Some(now), supersededBy := Some(id));
      UpdateKeepsTable(t1, oldId, r);
      EvolvesTransitively(t, t1, UpdateLive(t1, oldId, r).0);
      assert Evolves(t, t);
    }
  }

  lemma CloseAllKeepsTable(t: Table, ids: set<string>, reason: string, now: Time)
    requires GoodTable(t) && forall id <- ids :: Live(t, id)
    ensures GoodTable(CloseAll(t, ids, reason, now).0) && Evolves(t, CloseAll(t, ids, reason, now).0)
  {
    var t' := CloseAll(t, ids, reason, now).0;
    assert t'.Keys == t.Keys;
    assert |t'| == |t'.Keys| == |t|;
    forall id <- t
      ensures RowEvolves(t[id], t'[id]) && Checked(id, t'[id])
      ensures t'[id].supersededAt.None? ==> t'[id] == t[id]
      ensures t'[id].supersededBy == t[id].supersededBy
    {
      assert id in ids ==> Live(t, id);
    }
    hide Checked, RowEvolves, ClosedRow, CloseAll;
  }

  // ---------- Snapshots ----------

  /** What a snapshot shows of a row. */
  datatype Known = Known(content: Content, recordedAt: Time, validFrom: Time)

  predicate OpenAt(from: Time, until: Option<Time>, at: Time) {
    from <= at && (until.None? || at < until.value)
  }

  predicate InSnapshot(r: Row, validAt: Time, txAt: Time) {
    OpenAt(r.validFrom, r.validUntil, validAt) && OpenAt(r.recordedAt, r.supersededAt, txAt)
  }

  function Snapshot(t: Table, validAt: Time, txAt: Time): map<string, Known> {
    map id | id in t && InSnapshot(t[id], validAt, txAt) :: Known(t[id].content, t[id].recordedAt, t[id].validFrom)
  }

  /** The snapshot of the stored rows is what `CurrentAt` decides on the claims loaded from them. */
  lemma SnapshotIsCurrent(id: string, r: Row, validAt: Time, txAt: Time)
    requires r.validUntil != Some(0) && r.supersededAt != Some(0)
    ensures InSnapshot(r, validAt, txAt) <==> Current(ToClaim(id, r), validAt, txAt)
  {
  }

  /** The claims loaded from the rows of a table, each once. */
  ghost predicate LoadedFrom(t: Table, claims: seq<Claim<Content>>) {
    forall c :: c in claims <==> c.id in t && c == ToClaim(c.id, t[c.id])
  }

  /** A snapshot shows exactly what `CurrentAt` finds among the claims loaded from the table. */
  lemma {:induction false} SnapshotIsCurrentOf(t: Table, claims: seq<Claim<Content>>, validAt: Time, txAt: Time,
      id: string)
    requires GoodTable(t) && LoadedFrom(t, claims)
    ensures id in Snapshot(t, validAt, txAt) <==> id in t && ToClaim(id, t[id]) in CurrentOf(claims, validAt, txAt)
  {
    if id in t {
      assert t[id].validUntil != Some(0) && t[id].supersededAt != Some(0);
      SnapshotIsCurrent(id, t[id], validAt, txAt);
      CurrentOfMembers(claims, validAt, txAt, ToClaim(id, t[id]));
    }
  }

  /** Closing a live row at `now` shows in the snapshot of (validAt, txAt) exactly when the row was in
      that snapshot and `now` is not later than both instants. */
  lemma CloseShowsIff(t: Table, id: string, r: Row, now: Time, validAt: Time, txAt: Time)
    requires GoodTable(t) && Live(t, id) && RowEvolves(t[id], r)
    requires r.supersededAt == Some(now) && r.validUntil == Some(now)
    ensures Snapshot(t[id := r], validAt, txAt) == Snapshot(t, validAt, txAt)
            <==> !(InSnapshot(t[id], validAt, txAt) && (now <= validAt || now <= txAt))
  {
    var before, after := Snapshot(t, validAt, txAt), Snapshot(t[id := r], validAt, txAt);
    assert forall x | x != id :: (x in before <==> x in after) && (x in before ==> before[x] == after[x]);
    assert id in before <==> InSnapshot(t[id], validAt, txAt);
    assert id in after <==> InSnapshot(r, validAt, txAt);
  }

  /** An insertion shows exactly in the snapshots not before it. */
  lemma InsertShowsIff(t: Table, id: string, content: Content, at: Time, validAt: Time, txAt: Time)
    requires id !in t
    ensures Snapshot(InsertClaim(t, id, content, at), validAt, txAt) == Snapshot(t, validAt, txAt)
            <==> at > validAt || at > txAt
  {
    var before, after := Snapshot(t, validAt, txAt), Snapshot(InsertClaim(t, id, content, at), validAt, txAt);
    assert forall x | x != id :: (x in before <==> x in after) && (x in before ==> before[x] == after[x]);
    assert id !in before;
  }
}
