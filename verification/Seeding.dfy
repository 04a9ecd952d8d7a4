/** Re-seeding a repository: unchanged chunks are skipped, changed ones replaced, new ones inserted. The
    evidence table allows one open row per chunk position; a claim and its evidence close separately. */
module Seeding {
  import opened Strings
  import opened Temporal
  import opened ClaimTable
  import Chunker
  import Ladder

  datatype Key = Key(path: string, ordinal: nat)

  datatype Chunk = Chunk(key: Key, sha: Ladder.Hash, content: Content)

  /** A seeded evidence row and the claim that rests on it. */
  datatype Evidence = Evidence(claim: string, key: Key, sha: Ladder.Hash, recordedAt: Time, supersededAt: Option<Time>)

  datatype Db = Db(claims: Table, evidence: map<string, Evidence>)

  predicate Open(db: Db, e: string) {
    e in db.evidence && db.evidence[e].supersededAt.None?
  }

  predicate LiveChunk(db: Db, e: string) {
    Open(db, e) && Live(db.claims, db.evidence[e].claim)
  }

  predicate Taken(db: Db, key: Key) {
    exists e <- db.evidence.Keys :: Open(db, e) && db.evidence[e].key == key
  }

  /** What the unique index and the foreign keys enforce, and that a seeded claim rests on one row. */
  ghost predicate GoodDb(db: Db) {
    GoodTable(db.claims) && OneOpenEach(db) && Referenced(db) && OneClaimEach(db)
  }

  ghost predicate OneOpenEach(db: Db) {
    forall e, f | Open(db, e) && Open(db, f) && db.evidence[e].key == db.evidence[f].key :: e == f
  }

  ghost predicate Referenced(db: Db) {
    forall e <- db.evidence :: db.evidence[e].claim in db.claims
  }

  ghost predicate OneClaimEach(db: Db) {
    forall e, f | e in db.evidence && f in db.evidence && db.evidence[e].claim == db.evidence[f].claim :: e == f
  }

  // ---------- The statements ----------

  /** Identifiers the database assigns. */
  datatype Ids = Ids(evidence: string, claim: string)

  predicate Fresh(db: Db, ids: Ids) {
    ids.evidence !in db.evidence && ids.claim !in db.claims
  }

  function NewEvidence(c: Chunk, ids: Ids, at: Time): Evidence {
    Evidence(ids.claim, c.key, c.sha, at, None)
  }

  function InsertSeed(db: Db, c: Chunk, ids: Ids, at: Time): (Db, bool)
    requires Fresh(db, ids)
  {
    if Taken(db, c.key) then (db, false)
    else
      var evidence := db.evidence[ids.evidence := NewEvidence(c, ids, at)];
      (Db(InsertClaim(db.claims, ids.claim, c.content, at), evidence), true)
  }

  function CloseEvidence(db: Db, e: string, now: Time): Db {
    if Open(db, e) then db.(evidence := db.evidence[e := db.evidence[e].(supersededAt := Some(now))]) else db
  }

  /** One transaction: the prior evidence closes, the new rows go in, the prior claim closes. */
  function Replace(db: Db, prior: string, priorClaim: string, c: Chunk, ids: Ids, now: Time): (Db, bool)
    requires Fresh(db, ids)
  {
    var db1 := CloseEvidence(db, prior, now);
    if Open(db, prior) && now <= db.evidence[prior].recordedAt then (db, false)
    else if Taken(db1, c.key) then (db, false)
    else
      var (t, outcome) := ReplaceSeed(db.claims, priorClaim, ids.claim, c.content, now, now);
      if outcome == Done then (Db(t, db1.evidence[ids.evidence := NewEvidence(c, ids, now)]), true) else (db, false)
  }

  // ---------- A run ----------

  /** What is live when a run starts: position to evidence row. */
  type Index = map<Key, string>

  ghost predicate IndexOf(db: Db, live: Index) {
    && (forall k <- live :: LiveChunk(db, live[k]) && db.evidence[live[k]].key == k)
    && (forall e | LiveChunk(db, e) :: db.evidence[e].key in live)
  }

  /** One chunk, decided against what was live at the start. `was` is the database of the start. */
  function SeedOne(was: Db, live: Index, db: Db, c: Chunk, ids: Ids, now: Time): (Db, bool)
    requires Fresh(db, ids) && forall k <- live :: live[k] in was.evidence
  {
    if c.key in live && was.evidence[live[c.key]].sha == c.sha then (db, true)
    else WriteOne(was, live, db, c, ids, now)
  }

  function WriteOne(was: Db, live: Index, db: Db, c: Chunk, ids: Ids, now: Time): (Db, bool)
    requires Fresh(db, ids) && forall k <- live :: live[k] in was.evidence
  {
    if c.key in live then Replace(db, live[c.key], was.evidence[live[c.key]].claim, c, ids, now)
    else InsertSeed(db, c, ids, now)
  }

  ghost predicate AllFresh(db: Db, ids: seq<Ids>) {
    && (forall i | 0 <= i < |ids| :: Fresh(db, ids[i]))
    && (forall i, j | 0 <= i < j < |ids| :: ids[i].evidence != ids[j].evidence && ids[i].claim != ids[j].claim)
  }

  ghost predicate DistinctKeys(cs: seq<Chunk>) {
    forall i, j | 0 <= i < j < |cs| :: cs[i].key != cs[j].key
  }

  /** Open evidence whose claim is closed. */
  ghost predicate Orphaned(db: Db, key: Key) {
    exists e :: Open(db, e) && db.evidence[e].key == key && !LiveChunk(db, e)
  }

  /** Both rows start before the clock. */
  predicate Started(db: Db, e: string, now: Time)
    requires LiveChunk(db, e)
  {
    db.evidence[e].recordedAt < now && StartedBefore(db.claims[db.evidence[e].claim], now)
  }

  /** A chunk cannot be written at a clock: its position is orphaned, or what it would replace starts no earlier. */
  ghost predicate Blocked(db: Db, c: Chunk, now: Time) {
    || Orphaned(db, c.key)
    || (exists e :: LiveChunk(db, e) && db.evidence[e].key == c.key && db.evidence[e].sha != c.sha
                    && !Started(db, e, now))
  }

  ghost predicate Holds(db: Db, c: Chunk) {
    exists e :: LiveChunk(db, e) && db.evidence[e].key == c.key && db.evidence[e].sha == c.sha
  }

  ghost predicate KeyBefore(cs: seq<Chunk>, n: nat, key: Key)
    requires n <= |cs|
  {
    exists i :: 0 <= i < n && cs[i].key == key
  }

  /** After `n` chunks: those positions hold the new text, the others are as they were. */
  ghost predicate Progress(was: Db, db: Db, cs: seq<Chunk>, n: nat, ids: seq<Ids>)
    requires n <= |cs|
  {
    && GoodDb(db)
    && (forall i | 0 <= i < n :: Holds(db, cs[i]))
    && (forall e | e in was.evidence && !KeyBefore(cs, n, was.evidence[e].key) ::
          e in db.evidence && db.evidence[e] == was.evidence[e]
          && SameRow(was.claims, db.claims, was.evidence[e].claim))
    && (forall e | e in db.evidence && !KeyBefore(cs, n, db.evidence[e].key) ::
          e in was.evidence && was.evidence[e] == db.evidence[e])
    && (forall i | n <= i < |ids| :: Fresh(db, ids[i]))
  }

  method LiveChunks(db: Db) returns (live: Index)
    requires GoodDb(db)
    ensures IndexOf(db, live)
  {
    live := map[];
    var rest := db.evidence.Keys;
    while rest != {}
      invariant rest <= db.evidence.Keys
      invariant forall k <- live :: LiveChunk(db, live[k]) && db.evidence[live[k]].key == k
      invariant forall e | LiveChunk(db, e) && e !in rest :: db.evidence[e].key in live
      decreases |rest|
    {
      var e :| e in rest;
      rest := rest - {e};
      if LiveChunk(db, e) {
        live := live[db.evidence[e].key := e];
      }
    }
  }

  // ---------- What a run reports ----------

  const BATCH: nat := 16

  /** Chunks scanned, skipped as unchanged, written in place of another, written. */
  datatype Report = Report(chunks: nat, skipped: nat, superseded: nat, inserted: nat)

  /** The chunks from `a` on, before `b`, that are not held already. */
  ghost function Changes(was: Db, cs: seq<Chunk>, a: nat, b: nat): seq<nat>
    requires a <= b <= |cs|
    decreases b - a
  {
    if a == b then [] else (if Holds(was, cs[a]) then [] else [a]) + Changes(was, cs, a + 1, b)
  }

  ghost predicate WasLive(was: Db, key: Key) {
    exists e :: LiveChunk(was, e) && was.evidence[e].key == key
  }

  /** How many of the first `n` chunks take the place of another. */
  ghost function Replacing(was: Db, cs: seq<Chunk>, n: nat): nat
    requires n <= |cs|
  {
    if n == 0 then 0
    else Replacing(was, cs, n - 1) + if !Holds(was, cs[n - 1]) && WasLive(was, cs[n - 1].key) then 1 else 0
  }

  /** Exactly the first `n` chunks are done, and counted. */
  ghost predicate DoneUpTo(was: Db, db: Db, report: Report, cs: seq<Chunk>, n: nat, ids: seq<Ids>) {
    && n <= |cs| && Progress(was, db, cs, n, ids)
    && report.inserted == |Changes(was, cs, 0, n)| && report.superseded == Replacing(was, cs, n)
    && (report.inserted == 0 ==> db == was)
  }

  /** The clock of the batch that a chunk is in, or would be. */
  ghost function ClockFor(was: Db, cs: seq<Chunk>, clock: seq<Time>, i: nat): Time
    requires i <= |cs| && |clock| > |cs| / BATCH
  {
    ChangesBound(was, cs, 0, i);
    clock[|Changes(was, cs, 0, i)| / 16]
  }

  ghost predicate NoneBlocked(was: Db, cs: seq<Chunk>, clock: seq<Time>, n: nat)
    requires |clock| > |cs| / BATCH
  {
    n <= |cs| && forall i | 0 <= i < n :: !Blocked(was, cs[i], ClockFor(was, cs, clock, i))
  }

  // ---------- What a run writes ----------

  /** The two rows of a chunk written at `now`. */
  ghost predicate WroteRows(db: Db, c: Chunk, ids: Ids, now: Time) {
    && ids.evidence in db.evidence && db.evidence[ids.evidence] == Evidence(ids.claim, c.key, c.sha, now, None)
    && ids.claim in db.claims
    && var r := db.claims[ids.claim];
       && r.content == c.content && r.recordedAt == r.validFrom == now
       && r.supersededAt.None? && r.validUntil.None? && r.supersededBy.None? && r.reason.None?
  }

  /** What was live at the chunk's position is closed at `now`, in favour of the new claim. */
  ghost predicate ClosedRows(was: Db, db: Db, e: string, ids: Ids, now: Time) {
    && e in was.evidence && was.evidence[e].claim in was.claims
    && var claim := was.evidence[e].claim;
    && e in db.evidence && db.evidence[e] == was.evidence[e].(supersededAt := Some(now))
    && claim in db.claims
    && db.claims[claim] == was.claims[claim].(supersededAt := Some(now), validUntil := Some(now),
                                              supersededBy := Some(ids.claim))
  }

  /** Chunk `i` takes the place of evidence row `e`. */
  ghost predicate TakesPlace(was: Db, cs: seq<Chunk>, i: int, e: string) {
    0 <= i < |cs| && !Holds(was, cs[i]) && LiveChunk(was, e) && was.evidence[e].key == cs[i].key
  }

  ghost predicate Replaced(was: Db, cs: seq<Chunk>, n: nat, e: string) {
    exists i :: i < n && TakesPlace(was, cs, i, e)
  }

  ghost predicate ReplacedClaim(was: Db, cs: seq<Chunk>, n: nat, claim: string) {
    exists e :: Replaced(was, cs, n, e) && e in was.evidence && was.evidence[e].claim == claim
  }

  /** The identifier of a row written for one of the first `n` chunks. */
  ghost predicate Written(was: Db, cs: seq<Chunk>, n: nat, names: seq<string>, id: string) {
    exists i :: 0 <= i < n <= |cs| && i < |names| && !Holds(was, cs[i]) && names[i] == id
  }

  function EvidenceIds(ids: seq<Ids>): seq<string> {
    seq(|ids|, i requires 0 <= i < |ids| => ids[i].evidence)
  }

  function ClaimIds(ids: seq<Ids>): seq<string> {
    seq(|ids|, i requires 0 <= i < |ids| => ids[i].claim)
  }

  /** The whole new state. Of the first `n` chunks, those not held before have been written, each at its time, in
      place of what was live at its position; there are no other new rows, and every other row is as it was. */
  ghost predicate Rewritten(was: Db, db: Db, cs: seq<Chunk>, times: seq<Time>, n: nat, ids: seq<Ids>)
    requires GoodDb(was)
  {
    && n <= |cs| == |times| == |ids|
    && RowsWritten(was, db, cs, times, n, ids) && RowsClosed(was, db, cs, times, n, ids)
    && NoOtherRows(was, db, cs, n, ids) && OtherRowsKept(was, db, cs, n)
  }

  ghost predicate RowsWritten(was: Db, db: Db, cs: seq<Chunk>, times: seq<Time>, n: nat, ids: seq<Ids>)
    requires n <= |cs| == |times| == |ids|
  {
    forall i | 0 <= i < n && !Holds(was, cs[i]) :: WroteRows(db, cs[i], ids[i], times[i])
  }

  ghost predicate RowsClosed(was: Db, db: Db, cs: seq<Chunk>, times: seq<Time>, n: nat, ids: seq<Ids>)
    requires GoodDb(was) && n <= |cs| == |times| == |ids|
  {
    forall i, e | i < n && TakesPlace(was, cs, i, e) :: ClosedRows(was, db, e, ids[i], times[i])
  }

  ghost predicate NoOtherRows(was: Db, db: Db, cs: seq<Chunk>, n: nat, ids: seq<Ids>) {
    && (forall e :: e in db.evidence <==> e in was.evidence || Written(was, cs, n, EvidenceIds(ids), e))
    && (forall id :: id in db.claims <==> id in was.claims || Written(was, cs, n, ClaimIds(ids), id))
  }

  ghost predicate OtherRowsKept(was: Db, db: Db, cs: seq<Chunk>, n: nat) {
    && (forall e <- was.evidence | !Replaced(was, cs, n, e) :: e in db.evidence && db.evidence[e] == was.evidence[e])
    && (forall id <- was.claims | !ReplacedClaim(was, cs, n, id) :: id in db.claims && db.claims[id] == was.claims[id])
  }

  /** When each chunk is written: at the clock of its batch. */
  ghost function Times(was: Db, cs: seq<Chunk>, clock: seq<Time>): (times: seq<Time>)
    requires |clock| > |cs| / BATCH
  {
    seq(|cs|, i requires 0 <= i < |cs| => ClockFor(was, cs, clock, i))
  }

  /** A batch is written when it holds sixteen chunks, or at the end: how far the scan was when the chunk after so many
      inserted ones was written. */
  ghost predicate ScannedAhead(was: Db, cs: seq<Chunk>, inserted: nat, chunks: nat) {
    && 0 < chunks <= |cs|
    && var found, batch := |Changes(was, cs, 0, chunks)|, 16 * (inserted / 16 + 1);
       if found < batch then chunks == |cs| else found == batch && !Holds(was, cs[chunks - 1])
  }

  /** How far the scan is, with what it has collected since the first `done` chunks were written. */
  ghost predicate Scanned(was: Db, report: Report, pending: seq<nat>, cs: seq<Chunk>, done: nat, i: nat) {
    && done <= i <= |cs| && pending == Changes(was, cs, done, i) && report.chunks == i
    && report.skipped + |Changes(was, cs, 0, i)| == i && |Changes(was, cs, 0, i)| == report.inserted + |pending|
  }

  class Seeder {
    var db: Db
    var report: Report

    constructor (db: Db)
      ensures this.db == db
    {
      this.db := db;
      report := Report(0, 0, 0, 0);
    }

    /** One run over the chunks of the discovered files. It collects what has changed and writes it batch by
        batch, each at a clock of its own; it stops at the first error. */
    method Run(cs: seq<Chunk>, ids: seq<Ids>, clock: seq<Time>) returns (ok: bool)
      requires GoodDb(db) && DistinctKeys(cs) && |ids| == |cs| && AllFresh(db, ids)
      requires |clock| > |cs| / BATCH
      modifies this
      ensures ok <==> NoneBlocked(old(db), cs, clock, |cs|)
      ensures ok ==> DoneUpTo(old(db), db, report, cs, |cs|, ids) && report.chunks == |cs|
                     && Rewritten(old(db), db, cs, Times(old(db), cs, clock), |cs|, ids)
      ensures (forall i | 0 <= i < |cs| :: Holds(old(db), cs[i])) ==> ok && db == old(db) && report.inserted == 0
      ensures !ok ==> exists n | 0 <= n < |cs| ::
                  && Blocked(old(db), cs[n], ClockFor(old(db), cs, clock, n)) && NoneBlocked(old(db), cs, clock, n)
                  && DoneUpTo(old(db), db, report, cs, n, ids)
                  && Rewritten(old(db), db, cs, Times(old(db), cs, clock), n, ids)
                  && n < report.chunks && ScannedAhead(old(db), cs, report.inserted, report.chunks)
      ensures report.chunks <= |cs|
              && report.skipped + |Changes(old(db), cs, 0, report.chunks)| == report.chunks
    {
      hide Progress, GoodDb, Blocked, AllFresh, DistinctKeys, Holds, Changes, Replacing, Scanned, ScannedAhead,
        NoneBlocked, ClockFor, Rewritten, Times;
      var start := db;
      var live := LiveChunks(db);
      report := Report(0, 0, 0, 0);
      var pending: seq<nat> := [];
      ghost var done: nat := 0;
      NothingScanned(start, cs, ids);
      NoneBlockedYet(start, cs, clock);
      ghost var times := Times(start, cs, clock);
      NothingRewritten(start, cs, clock, ids);
      for i := 0 to |cs|
        invariant done <= i && DoneUpTo(start, db, report, cs, done, ids) && NoneBlocked(start, cs, clock, done)
        invariant Rewritten(start, db, cs, times, done, ids)
        invariant Scanned(start, report, pending, cs, done, i) && |pending| < BATCH && report.inserted % BATCH == 0
        invariant report.inserted <= i
      {
        var c := cs[i];
        HoldsIffUnchanged(start, live, c);
        ScanNext(start, report, pending, cs, done, i);
        report := report.(chunks := report.chunks + 1);
        if c.key in live && start.evidence[live[c.key]].sha == c.sha {
          report := report.(skipped := report.skipped + 1);
          continue;
        }
        pending := pending + [i];
        if |pending| >= BATCH {
          ghost var scanned := report;
          TimesOfBatch(start, scanned, pending, cs, done, i + 1, clock);
          var flushed, n := Flush(start, live, cs, ids, pending, clock[report.inserted / BATCH], done, i + 1, times);
          Flushed(start, scanned, pending, cs, done, i + 1, db, report, n, ids);
          BatchClocks(start, scanned, pending, cs, done, i + 1, clock, n);
          if !flushed {
            OneBlocked(start, cs, clock, n);
            return false;
          }
          pending := [];
          done := i + 1;
        }
      }
      ghost var scanned, n := report, 0;
      TimesOfBatch(start, scanned, pending, cs, done, |cs|, clock);
      ok, n := Flush(start, live, cs, ids, pending, clock[report.inserted / BATCH], done, |cs|, times);
      Flushed(start, scanned, pending, cs, done, |cs|, db, report, n, ids);
      BatchClocks(start, scanned, pending, cs, done, |cs|, clock, n);
      if !ok { OneBlocked(start, cs, clock, n); }
    }

    /** Writes the chunks collected, in order. `start` and `live` are of the start of the run. */
    method Flush(start: Db, live: Index, cs: seq<Chunk>, ids: seq<Ids>, pending: seq<nat>, now: Time,
        ghost first: nat, ghost end: nat, ghost times: seq<Time>) returns (ok: bool, ghost n: nat)
      requires GoodDb(start) && IndexOf(start, live) && DistinctKeys(cs) && |ids| == |cs| && AllFresh(start, ids)
      requires Scanned(start, report, pending, cs, first, end)
      requires DoneUpTo(start, db, report, cs, first, ids) && Rewritten(start, db, cs, times, first, ids)
      requires forall i | first <= i < end :: times[i] == now
      modifies this
      ensures report.chunks == old(report).chunks && report.skipped == old(report).skipped
      ensures first <= n <= end && DoneUpTo(start, db, report, cs, n, ids)
      ensures Rewritten(start, db, cs, times, n, ids)
      ensures forall i | first <= i < n :: !Blocked(start, cs[i], now)
      ensures if ok then n == end else n < end && Blocked(start, cs[n], now) && !Holds(start, cs[n])
    {
      hide Progress, GoodDb, Blocked, AllFresh, DistinctKeys, Holds, DoneUpTo, IndexOf, WriteOne, Rewritten;
      n := first;
      for k := 0 to |pending|
        invariant first <= n <= end <= |cs| && pending[k..] == Changes(start, cs, n, end)
        invariant DoneUpTo(start, db, report, cs, n, ids) && Rewritten(start, db, cs, times, n, ids)
        invariant forall i | first <= i < n :: !Blocked(start, cs[i], now)
        invariant report.chunks == old(report).chunks && report.skipped == old(report).skipped
      {
        var p := pending[k];
        ghost var from := n;
        n := SkipHeld(start, live, db, report, cs, n, end, ids, now);
        assert p == n;
        SkipRewritten(start, db, cs, times, from, n, ids);
        WriteNext(start, live, db, report, cs, p, ids, now);
        var (next, done) := WriteOne(start, live, db, cs[p], ids[p], now);
        if !done {
          return false, n;
        }
        WriteRewrites(start, live, db, report, cs, times, p, ids);
        db := next;
        if cs[p].key in live {
          report := report.(superseded := report.superseded + 1);
        }
        report := report.(inserted := report.inserted + 1);
        n := n + 1;
      }
      ghost var from := n;
      n := SkipHeld(start, live, db, report, cs, n, end, ids, now);
      SkipRewritten(start, db, cs, times, from, n, ids);
      ok := true;
    }
  }

  lemma {:induction false} NextChange(was: Db, cs: seq<Chunk>, a: nat, b: nat)
    requires a <= b < |cs|
    ensures Changes(was, cs, a, b + 1) == Changes(was, cs, a, b) + if Holds(was, cs[b]) then [] else [b]
    decreases b - a
  {
    hide Holds;
    if a < b { NextChange(was, cs, a + 1, b); }
  }

  lemma {:induction false} ChangesJoin(was: Db, cs: seq<Chunk>, a: nat, b: nat, c: nat)
    requires a <= b <= c <= |cs|
    ensures Changes(was, cs, a, c) == Changes(was, cs, a, b) + Changes(was, cs, b, c)
    decreases b - a
  {
    hide Holds;
    if a < b { ChangesJoin(was, cs, a + 1, b, c); }
  }

  lemma LiveIffIndexed(db: Db, live: Index, key: Key)
    requires IndexOf(db, live)
    ensures WasLive(db, key) <==> key in live
  {
    if key in live { assert LiveChunk(db, live[key]); }
  }

  lemma {:induction false} NothingScanned(db: Db, cs: seq<Chunk>, ids: seq<Ids>)
    requires GoodDb(db) && AllFresh(db, ids)
    ensures DoneUpTo(db, db, Report(0, 0, 0, 0), cs, 0, ids) && Scanned(db, Report(0, 0, 0, 0), [], cs, 0, 0)
  {
    hide Progress;
    NoProgress(db, cs, ids);
  }

  lemma NoneBlockedYet(db: Db, cs: seq<Chunk>, clock: seq<Time>)
    requires |clock| > |cs| / BATCH
    ensures NoneBlocked(db, cs, clock, 0)
  {
  }

  lemma OneBlocked(was: Db, cs: seq<Chunk>, clock: seq<Time>, n: nat)
    requires |clock| > |cs| / BATCH && n < |cs| && Blocked(was, cs[n], ClockFor(was, cs, clock, n))
    ensures !NoneBlocked(was, cs, clock, |cs|)
  {
  }

  lemma {:induction false} ScanNext(was: Db, report: Report, pending: seq<nat>, cs: seq<Chunk>, done: nat, i: nat)
    requires i < |cs| && Scanned(was, report, pending, cs, done, i)
    ensures var r := report.(chunks := i + 1);
            if Holds(was, cs[i]) then Scanned(was, r.(skipped := r.skipped + 1), pending, cs, done, i + 1)
            else Scanned(was, r, pending + [i], cs, done, i + 1)
    ensures report.chunks == i
  {
    hide Holds, Changes;
    NextChange(was, cs, done, i);
    NextChange(was, cs, 0, i);
  }

  /** Where a batch leaves the scan. */
  lemma {:induction false} Flushed(was: Db, scanned: Report, pending: seq<nat>, cs: seq<Chunk>, done: nat, i: nat,
      db: Db, report: Report, n: nat, ids: seq<Ids>)
    requires Scanned(was, scanned, pending, cs, done, i) && DoneUpTo(was, db, report, cs, n, ids) && done <= n <= i
    requires report.chunks == scanned.chunks && report.skipped == scanned.skipped
    requires scanned.inserted % BATCH == 0 && |pending| <= BATCH
    requires if |pending| < BATCH then i == |cs| else i > 0 && !Holds(was, cs[i - 1])
    ensures n == i ==> Scanned(was, report, [], cs, i, i) && (|pending| == BATCH ==> report.inserted % BATCH == 0)
    ensures n < i && !Holds(was, cs[n]) ==> ScannedAhead(was, cs, report.inserted, report.chunks)
    ensures report.inserted <= n && report.chunks == i && report.skipped + |Changes(was, cs, 0, i)| == i
    ensures n == |cs| && (forall k | 0 <= k < |cs| :: Holds(was, cs[k])) ==> report.inserted == 0 && db == was
  {
    hide Progress, Holds, Changes, Replacing;
    ChangesJoin(was, cs, 0, done, i);
    ChangesJoin(was, cs, 0, done, n);
    ChangesJoin(was, cs, 0, n, i);
    ChangesBound(was, cs, 0, n);
    NoChanges(was, cs, i);
    if n < i && !Holds(was, cs[n]) {
      NextChange(was, cs, 0, n);
      ChangesJoin(was, cs, 0, n + 1, i);
    }
  }

  /** The chunks of one batch have one clock. */
  lemma {:induction false} ClockOfBatch(was: Db, cs: seq<Chunk>, clock: seq<Time>, done: nat, i: nat, end: nat)
    requires done <= i < end <= |cs| && |clock| > |cs| / BATCH
    requires |Changes(was, cs, 0, done)| % BATCH == 0 && |Changes(was, cs, done, end)| <= BATCH
    requires |Changes(was, cs, done, end)| < BATCH || !Holds(was, cs[end - 1])
    ensures ClockFor(was, cs, clock, i) == ClockFor(was, cs, clock, done)
  {
    hide Holds, Changes;
    ChangesJoin(was, cs, 0, done, i);
    ChangesJoin(was, cs, done, i, end);
    ChangesJoin(was, cs, i, end - 1, end);
    NextChange(was, cs, i, end - 1);
    assert !Holds(was, cs[end - 1]) ==> |Changes(was, cs, i, end)| > 0;
  }

  /** What a batch has shown at its clock holds at the clocks of its chunks. */
  lemma {:induction false} BatchClocks(was: Db, scanned: Report, pending: seq<nat>, cs: seq<Chunk>, done: nat, i: nat,
      clock: seq<Time>, n: nat)
    requires Scanned(was, scanned, pending, cs, done, i) && done <= n <= i && |clock| > |cs| / BATCH
    requires scanned.inserted % BATCH == 0 && |pending| <= BATCH && scanned.inserted <= |cs|
    requires |pending| < BATCH || (i > 0 && !Holds(was, cs[i - 1]))
    requires NoneBlocked(was, cs, clock, done)
    requires forall k | done <= k < n :: !Blocked(was, cs[k], clock[scanned.inserted / BATCH])
    ensures NoneBlocked(was, cs, clock, n)
    ensures n < i ==> ClockFor(was, cs, clock, n) == clock[scanned.inserted / BATCH]
  {
    hide Holds, Changes, Blocked;
    ChangesJoin(was, cs, 0, done, i);
    assert ClockFor(was, cs, clock, done) == clock[scanned.inserted / BATCH];
    forall k | done <= k < i ensures ClockFor(was, cs, clock, k) == clock[scanned.inserted / BATCH] {
      ClockOfBatch(was, cs, clock, done, k, i);
    }
  }

  lemma {:induction false} ChangesBound(was: Db, cs: seq<Chunk>, a: nat, b: nat)
    requires a <= b <= |cs|
    ensures |Changes(was, cs, a, b)| <= b - a
    ensures (forall k | 0 <= k < |cs| :: Holds(was, cs[k])) ==> Changes(was, cs, a, b) == []
    decreases b - a
  {
    hide Holds;
    if a < b { ChangesBound(was, cs, a + 1, b); }
  }

  lemma NoChanges(was: Db, cs: seq<Chunk>, i: nat)
    requires i <= |cs|
    ensures Changes(was, cs, i, i) == []
  {
  }

  lemma {:induction false} WriteNext(was: Db, live: Index, db: Db, report: Report, cs: seq<Chunk>, n: nat,
      ids: seq<Ids>, now: Time)
    requires GoodDb(was) && IndexOf(was, live) && DistinctKeys(cs) && |ids| == |cs| && AllFresh(was, ids)
    requires DoneUpTo(was, db, report, cs, n, ids) && n < |cs| && !Holds(was, cs[n])
    ensures Fresh(db, ids[n]) && forall k <- live :: live[k] in was.evidence
    ensures WriteOne(was, live, db, cs[n], ids[n], now).1 <==> !Blocked(was, cs[n], now)
    ensures var r := report.(inserted := report.inserted + 1,
                             superseded := report.superseded + if cs[n].key in live then 1 else 0);
            var (next, done) := WriteOne(was, live, db, cs[n], ids[n], now);
            done ==> DoneUpTo(was, next, r, cs, n + 1, ids)
  {
    hide Progress, GoodDb, Blocked, AllFresh, DistinctKeys, Holds, WasLive, IndexOf, WriteOne, Fresh, Changes;
    StepProgress(was, live, db, cs, n, ids, now);
    HoldsIffUnchanged(was, live, cs[n]);
    LiveIffIndexed(was, live, cs[n].key);
    NextChange(was, cs, 0, n);
  }

  /** Chunks that are held already are passed over, up to the next one that is not. */
  lemma {:induction false} SkipHeld(was: Db, live: Index, db: Db, report: Report, cs: seq<Chunk>, first: nat, end: nat,
      ids: seq<Ids>, now: Time) returns (n: nat)
    requires GoodDb(was) && IndexOf(was, live) && DistinctKeys(cs) && |ids| == |cs| && AllFresh(was, ids)
    requires first <= end <= |cs| && DoneUpTo(was, db, report, cs, first, ids)
    ensures first <= n <= end && DoneUpTo(was, db, report, cs, n, ids)
    ensures forall i | first <= i < n :: !Blocked(was, cs[i], now) && Holds(was, cs[i])
    ensures Changes(was, cs, n, end) == Changes(was, cs, first, end)
    ensures n == end ==> Changes(was, cs, first, end) == []
    ensures n < end ==> !Holds(was, cs[n]) && Changes(was, cs, first, end) == [n] + Changes(was, cs, n + 1, end)
    decreases end - first
  {
    hide Progress, GoodDb, Blocked, AllFresh, DistinctKeys, Holds, WasLive, IndexOf;
    n := first;
    if first < end && Holds(was, cs[first]) {
      StepProgress(was, live, db, cs, first, ids, now);
      HoldsIffUnchanged(was, live, cs[first]);
      NextChange(was, cs, 0, first);
      n := SkipHeld(was, live, db, report, cs, first + 1, end, ids, now);
    }
  }

  lemma {:induction false} TimesOfBatch(was: Db, scanned: Report, pending: seq<nat>, cs: seq<Chunk>, done: nat, i: nat,
      clock: seq<Time>)
    requires Scanned(was, scanned, pending, cs, done, i) && |clock| > |cs| / BATCH
    requires scanned.inserted % BATCH == 0 && |pending| <= BATCH && scanned.inserted <= |cs|
    requires |pending| < BATCH || (i > 0 && !Holds(was, cs[i - 1]))
    ensures |Times(was, cs, clock)| == |cs|
    ensures forall k | done <= k < i :: Times(was, cs, clock)[k] == clock[scanned.inserted / BATCH]
  {
    hide Holds, Changes;
    ChangesJoin(was, cs, 0, done, i);
    assert ClockFor(was, cs, clock, done) == clock[scanned.inserted / BATCH];
    forall k | done <= k < i ensures ClockFor(was, cs, clock, k) == clock[scanned.inserted / BATCH] {
      ClockOfBatch(was, cs, clock, done, k, i);
    }
  }

  lemma NothingRewritten(db: Db, cs: seq<Chunk>, clock: seq<Time>, ids: seq<Ids>)
    requires GoodDb(db) && |ids| == |cs| && |clock| > |cs| / BATCH
    ensures Rewritten(db, db, cs, Times(db, cs, clock), 0, ids)
  {
    hide Holds, LiveChunk, GoodDb, ClockFor;
  }

  /** A chunk that was held changes nothing. */
  lemma {:induction false} SkipRewritten(was: Db, db: Db, cs: seq<Chunk>, times: seq<Time>, a: nat, b: nat,
      ids: seq<Ids>)
    requires GoodDb(was) && Rewritten(was, db, cs, times, a, ids)
    requires a <= b <= |cs| && forall i | a <= i < b :: Holds(was, cs[i])
    ensures Rewritten(was, db, cs, times, b, ids)
  {
    hide GoodDb, Holds, LiveChunk, WroteRows, ClosedRows;
    forall e ensures Replaced(was, cs, a, e) <==> Replaced(was, cs, b, e) {
      if i :| i < b && TakesPlace(was, cs, i, e) { assert i < a; }
      if i :| i < a && TakesPlace(was, cs, i, e) { assert i < b; }
    }
    forall names, id ensures Written(was, cs, a, names, id) <==> Written(was, cs, b, names, id) {
    }
  }

  /** One statement for chunk `c`, exactly; `prior` is the evidence row it replaces, if any. */
  ghost predicate Put(db: Db, db': Db, c: Chunk, ids: Ids, now: Time, prior: Option<string>)
    requires GoodDb(db) && (prior.Some? ==> prior.value in db.evidence)
  {
    && db'.evidence.Keys == db.evidence.Keys + {ids.evidence} && db'.claims.Keys == db.claims.Keys + {ids.claim}
    && WroteRows(db', c, ids, now)
    && (prior.Some? ==> ClosedRows(db, db', prior.value, ids, now))
    && (forall e <- db.evidence | Some(e) != prior :: db'.evidence[e] == db.evidence[e])
    && (forall id <- db.claims | !(prior.Some? && db.evidence[prior.value].claim == id) ::
          db'.claims[id] == db.claims[id])
  }

  lemma {:induction false} InsertPuts(db: Db, c: Chunk, ids: Ids, now: Time)
    requires GoodDb(db) && Fresh(db, ids) && InsertSeed(db, c, ids, now).1
    ensures Put(db, InsertSeed(db, c, ids, now).0, c, ids, now, None)
  {
    hide GoodDb, WroteRows, InsertSeed, ClosedRows;
    InsertWrites(db, c, ids, now);
    InsertKeeps(db, c, ids, now);
  }

  lemma InsertKeeps(db: Db, c: Chunk, ids: Ids, now: Time)
    requires Fresh(db, ids) && InsertSeed(db, c, ids, now).1
    ensures var db' := InsertSeed(db, c, ids, now).0;
            && db'.evidence == db.evidence[ids.evidence := NewEvidence(c, ids, now)]
            && db'.claims.Keys == db.claims.Keys + {ids.claim}
            && forall id <- db.claims :: db'.claims[id] == db.claims[id]
  {
    hide Taken;
  }

  lemma InsertWrites(db: Db, c: Chunk, ids: Ids, now: Time)
    requires Fresh(db, ids) && InsertSeed(db, c, ids, now).1
    ensures WroteRows(InsertSeed(db, c, ids, now).0, c, ids, now)
  {
    hide Taken;
  }

  lemma {:induction false} ReplacePuts(db: Db, e: string, c: Chunk, ids: Ids, now: Time)
    requires GoodDb(db) && Fresh(db, ids) && LiveChunk(db, e)
    requires Replace(db, e, db.evidence[e].claim, c, ids, now).1
    ensures Put(db, Replace(db, e, db.evidence[e].claim, c, ids, now).0, c, ids, now, Some(e))
  {
    hide GoodTable, OneOpenEach, OneClaimEach, Taken;
  }

  /** A chunk takes the place of at most one row. */
  lemma {:induction false} OneTaken(was: Db, live: Index, cs: seq<Chunk>, n: nat)
    requires GoodDb(was) && IndexOf(was, live) && n < |cs| && !Holds(was, cs[n])
    ensures forall e :: TakesPlace(was, cs, n, e) <==> cs[n].key in live && e == live[cs[n].key]
  {
    hide GoodTable, Holds, Referenced, OneClaimEach;
  }

  lemma {:induction false} WriteRewrites(was: Db, live: Index, db: Db, report: Report, cs: seq<Chunk>,
      times: seq<Time>, n: nat, ids: seq<Ids>)
    requires GoodDb(was) && IndexOf(was, live) && DistinctKeys(cs) && |ids| == |cs| && AllFresh(was, ids)
    requires DoneUpTo(was, db, report, cs, n, ids) && n < |cs| && !Holds(was, cs[n]) && Fresh(db, ids[n])
    requires Rewritten(was, db, cs, times, n, ids) && forall k <- live :: live[k] in was.evidence
    requires WriteOne(was, live, db, cs[n], ids[n], times[n]).1
    ensures Rewritten(was, WriteOne(was, live, db, cs[n], ids[n], times[n]).0, cs, times, n + 1, ids)
  {
    assert GoodDb(db) && |times| == |cs|;
    hide Progress, Rewritten, Holds, GoodDb, WriteOne, InsertSeed, Replace, AllFresh;
    if cs[n].key in live {
      var e := live[cs[n].key];
      LiveStays(was, live, db, cs, n, ids);
      ReplacedPrior(was, live, db, cs, n);
      WriteReplaces(was, live, db, cs[n], ids[n], times[n]);
      RewrittenNext(was, db, WriteOne(was, live, db, cs[n], ids[n], times[n]).0, cs, times, n, ids, Some(e));
    } else {
      NoPrior(was, live, db, cs, n);
      WriteInserts(was, live, db, cs[n], ids[n], times[n]);
      RewrittenNext(was, db, WriteOne(was, live, db, cs[n], ids[n], times[n]).0, cs, times, n, ids, None);
    }
  }

  lemma WriteReplaces(was: Db, live: Index, db: Db, c: Chunk, ids: Ids, now: Time)
    requires GoodDb(db) && Fresh(db, ids) && (forall k <- live :: live[k] in was.evidence) && c.key in live
    requires var e := live[c.key]; LiveChunk(db, e) && db.evidence[e] == was.evidence[e]
    requires WriteOne(was, live, db, c, ids, now).1
    ensures Put(db, WriteOne(was, live, db, c, ids, now).0, c, ids, now, Some(live[c.key]))
  {
    hide GoodDb, Replace, InsertSeed, Put;
    ReplacePuts(db, live[c.key], c, ids, now);
  }

  lemma WriteInserts(was: Db, live: Index, db: Db, c: Chunk, ids: Ids, now: Time)
    requires GoodDb(db) && Fresh(db, ids) && (forall k <- live :: live[k] in was.evidence) && c.key !in live
    requires WriteOne(was, live, db, c, ids, now).1
    ensures Put(db, WriteOne(was, live, db, c, ids, now).0, c, ids, now, None)
  {
    hide GoodDb, Replace, InsertSeed, Put;
    InsertPuts(db, c, ids, now);
  }

  lemma ReplacedPrior(was: Db, live: Index, db: Db, cs: seq<Chunk>, n: nat)
    requires GoodDb(was) && IndexOf(was, live) && n < |cs| && !Holds(was, cs[n]) && cs[n].key in live
    requires var e := live[cs[n].key];
             && LiveChunk(was, e) && LiveChunk(db, e) && db.evidence[e] == was.evidence[e]
             && SameRow(was.claims, db.claims, was.evidence[e].claim)
    ensures PriorOf(was, db, cs, n, Some(live[cs[n].key]))
  {
    OneTaken(was, live, cs, n);
    hide GoodDb, Holds, IndexOf, TakesPlace;
  }

  lemma NoPrior(was: Db, live: Index, db: Db, cs: seq<Chunk>, n: nat)
    requires GoodDb(was) && IndexOf(was, live) && n < |cs| && !Holds(was, cs[n]) && cs[n].key !in live
    ensures PriorOf(was, db, cs, n, None)
  {
    OneTaken(was, live, cs, n);
    hide GoodDb, Holds, IndexOf, TakesPlace;
  }

  ghost predicate PriorOf(was: Db, db: Db, cs: seq<Chunk>, n: nat, prior: Option<string>)
    requires GoodDb(was)
  {
    && (forall e :: TakesPlace(was, cs, n, e) <==> prior == Some(e))
    && (prior.Some? ==>
          && prior.value in was.evidence && prior.value in db.evidence
          && db.evidence[prior.value] == was.evidence[prior.value]
          && SameRow(was.claims, db.claims, was.evidence[prior.value].claim))
  }

  lemma {:induction false} RewrittenNext(was: Db, db: Db, db': Db, cs: seq<Chunk>, times: seq<Time>, n: nat,
      ids: seq<Ids>, prior: Option<string>)
    requires GoodDb(was) && GoodDb(db) && DistinctKeys(cs) && |ids| == |cs| && AllFresh(was, ids)
    requires n < |cs| && !Holds(was, cs[n]) && Rewritten(was, db, cs, times, n, ids) && PriorOf(was, db, cs, n, prior)
    requires Put(db, db', cs[n], ids[n], times[n], prior)
    ensures Rewritten(was, db', cs, times, n + 1, ids)
  {
    assert prior.Some? ==> prior.value in db.evidence;
    hide Holds, GoodDb, RowsWritten, RowsClosed, NoOtherRows, OtherRowsKept, Put, PriorOf, AllFresh, DistinctKeys;
    RowsWrittenNext(was, db, db', cs, times, n, ids, prior);
    RowsClosedNext(was, db, db', cs, times, n, ids, prior);
    NoOthersNext(was, db, db', cs, times, n, ids, prior);
    OthersKeptNext(was, db, db', cs, times, n, ids, prior);
  }

  lemma {:induction false} RowsWrittenNext(was: Db, db: Db, db': Db, cs: seq<Chunk>, times: seq<Time>, n: nat,
      ids: seq<Ids>, prior: Option<string>)
    requires GoodDb(was) && GoodDb(db) && |ids| == |cs| == |times| && AllFresh(was, ids) && n < |cs|
    requires RowsWritten(was, db, cs, times, n, ids) && PriorOf(was, db, cs, n, prior)
    requires prior.Some? ==> prior.value in db.evidence
    requires Put(db, db', cs[n], ids[n], times[n], prior)
    ensures RowsWritten(was, db', cs, times, n + 1, ids)
  {
    hide Holds, WroteRows, GoodDb, Put, PriorOf, AllFresh;
    RowsNow(db, db', cs[n], ids[n], times[n], prior);
    forall i | 0 <= i < n + 1 && !Holds(was, cs[i]) ensures WroteRows(db', cs[i], ids[i], times[i]) {
      if i < n { RowsStay(was, db, db', cs, times, n, ids, prior, i); }
    }
  }

  lemma RowsNow(db: Db, db': Db, c: Chunk, ids: Ids, now: Time, prior: Option<string>)
    requires GoodDb(db) && (prior.Some? ==> prior.value in db.evidence) && Put(db, db', c, ids, now, prior)
    ensures WroteRows(db', c, ids, now)
  {
    hide GoodDb, WroteRows, ClosedRows;
  }

  lemma {:induction false} RowsClosedNext(was: Db, db: Db, db': Db, cs: seq<Chunk>, times: seq<Time>, n: nat,
      ids: seq<Ids>, prior: Option<string>)
    requires GoodDb(was) && GoodDb(db) && DistinctKeys(cs) && |ids| == |cs| == |times| && n < |cs|
    requires RowsClosed(was, db, cs, times, n, ids) && PriorOf(was, db, cs, n, prior)
    requires Put(db, db', cs[n], ids[n], times[n], prior)
    ensures RowsClosed(was, db', cs, times, n + 1, ids)
  {
    hide Holds, ClosedRows, GoodDb, Put, PriorOf, DistinctKeys, LiveChunk;
    forall i, e | i < n + 1 && TakesPlace(was, cs, i, e) ensures ClosedRows(was, db', e, ids[i], times[i]) {
      TakesIndex(was, cs, i, e);
      if i < n {
        ClosedStay(was, db, db', cs, times, n, ids, prior, i, e);
      } else {
        ClosedNow(was, db, db', cs, times, n, ids, prior, e);
      }
    }
  }

  lemma TakesIndex(was: Db, cs: seq<Chunk>, i: int, e: string)
    requires TakesPlace(was, cs, i, e)
    ensures 0 <= i < |cs| && e in was.evidence
  {
  }

  lemma PutNames(db: Db, db': Db, c: Chunk, ids: Ids, now: Time, prior: Option<string>)
    requires GoodDb(db) && (prior.Some? ==> prior.value in db.evidence) && Put(db, db', c, ids, now, prior)
    ensures forall e :: e in db'.evidence <==> e in db.evidence || e == ids.evidence
    ensures forall id :: id in db'.claims <==> id in db.claims || id == ids.claim
  {
    hide GoodDb, WroteRows, ClosedRows;
  }

  lemma {:induction false} NoOthersNext(was: Db, db: Db, db': Db, cs: seq<Chunk>, times: seq<Time>, n: nat,
      ids: seq<Ids>, prior: Option<string>)
    requires GoodDb(was) && GoodDb(db) && |ids| == |cs| == |times| && n < |cs| && !Holds(was, cs[n])
    requires NoOtherRows(was, db, cs, n, ids) && (prior.Some? ==> prior.value in db.evidence)
    requires Put(db, db', cs[n], ids[n], times[n], prior)
    ensures NoOtherRows(was, db', cs, n + 1, ids)
  {
    hide Written, Holds, GoodDb, TakesPlace, PriorOf;
    PutNames(db, db', cs[n], ids[n], times[n], prior);
    hide Put;
    NewIds(was, cs, n, EvidenceIds(ids));
    NewIds(was, cs, n, ClaimIds(ids));
  }

  lemma {:induction false} OthersKeptNext(was: Db, db: Db, db': Db, cs: seq<Chunk>, times: seq<Time>, n: nat,
      ids: seq<Ids>, prior: Option<string>)
    requires GoodDb(was) && GoodDb(db) && |ids| == |cs| == |times| && n < |cs|
    requires OtherRowsKept(was, db, cs, n) && PriorOf(was, db, cs, n, prior)
    requires Put(db, db', cs[n], ids[n], times[n], prior)
    ensures OtherRowsKept(was, db', cs, n + 1)
  {
    hide Holds, GoodDb, WroteRows, ClosedRows, Replaced, ReplacedClaim, TakesPlace;
    forall e <- was.evidence | !Replaced(was, cs, n + 1, e)
      ensures e in db'.evidence && db'.evidence[e] == was.evidence[e]
    {
      NotReplaced(was, cs, n, e);
    }
    forall id <- was.claims | !ReplacedClaim(was, cs, n + 1, id)
      ensures id in db'.claims && db'.claims[id] == was.claims[id]
    {
      NotReplacedClaim(was, db, cs, n, id, prior);
    }
  }

  lemma {:induction false} NewIds(was: Db, cs: seq<Chunk>, n: nat, names: seq<string>)
    requires n < |cs| == |names| && !Holds(was, cs[n])
    ensures forall id :: Written(was, cs, n + 1, names, id) <==> Written(was, cs, n, names, id) || id == names[n]
  {
    hide Holds;
    forall id ensures Written(was, cs, n + 1, names, id) <==> Written(was, cs, n, names, id) || id == names[n] {
      if id == names[n] { assert names[n] == id; }
    }
  }

  lemma NotReplacedClaim(was: Db, db: Db, cs: seq<Chunk>, n: nat, id: string, prior: Option<string>)
    requires GoodDb(was) && PriorOf(was, db, cs, n, prior) && !ReplacedClaim(was, cs, n + 1, id)
    ensures !ReplacedClaim(was, cs, n, id) && (prior.Some? ==> was.evidence[prior.value].claim != id)
  {
    hide TakesPlace, GoodDb;
    forall e ensures Replaced(was, cs, n, e) ==> Replaced(was, cs, n + 1, e) {
      ReplacedMore(was, cs, n, e);
    }
    assert prior.Some? ==> TakesPlace(was, cs, n, prior.value) && Replaced(was, cs, n + 1, prior.value);
  }

  lemma ReplacedMore(was: Db, cs: seq<Chunk>, n: nat, e: string)
    ensures Replaced(was, cs, n + 1, e) <==> Replaced(was, cs, n, e) || TakesPlace(was, cs, n, e)
  {
    hide TakesPlace;
  }

  /** Rows written for earlier chunks are not the ones replaced. */
  lemma {:induction false} RowsStay(was: Db, db: Db, db': Db, cs: seq<Chunk>, times: seq<Time>, n: nat,
      ids: seq<Ids>, prior: Option<string>, i: nat)
    requires GoodDb(was) && GoodDb(db) && |ids| == |cs| == |times| && AllFresh(was, ids) && i < n < |cs|
    requires WroteRows(db, cs[i], ids[i], times[i]) && PriorOf(was, db, cs, n, prior)
    requires Put(db, db', cs[n], ids[n], times[n], prior)
    ensures WroteRows(db', cs[i], ids[i], times[i])
  {
    hide GoodTable, OneOpenEach, OneClaimEach, ClosedRows;
    if prior.Some? {
      assert ids[i].evidence !in was.evidence && ids[i].claim !in was.claims;
    }
  }

  /** Nor are rows closed for earlier chunks. */
  lemma {:induction false} ClosedStay(was: Db, db: Db, db': Db, cs: seq<Chunk>, times: seq<Time>, n: nat,
      ids: seq<Ids>, prior: Option<string>, i: int, e: string)
    requires GoodDb(was) && GoodDb(db) && DistinctKeys(cs) && |ids| == |cs| == |times| && 0 <= i < n < |cs|
    requires TakesPlace(was, cs, i, e) && ClosedRows(was, db, e, ids[i], times[i]) && PriorOf(was, db, cs, n, prior)
    requires Put(db, db', cs[n], ids[n], times[n], prior)
    ensures ClosedRows(was, db', e, ids[i], times[i])
  {
    hide GoodTable, OneOpenEach, WroteRows;
    if prior.Some? {
      assert TakesPlace(was, cs, n, prior.value);
      assert prior.value != e;
    }
  }

  lemma {:induction false} ClosedNow(was: Db, db: Db, db': Db, cs: seq<Chunk>, times: seq<Time>, n: nat,
      ids: seq<Ids>, prior: Option<string>, e: string)
    requires GoodDb(was) && GoodDb(db) && |ids| == |cs| == |times| && n < |cs| && PriorOf(was, db, cs, n, prior)
    requires Put(db, db', cs[n], ids[n], times[n], prior) && TakesPlace(was, cs, n, e) && e in was.evidence
    ensures ClosedRows(was, db', e, ids[n], times[n])
  {
    hide GoodTable, OneOpenEach, WroteRows, TakesPlace;
  }

  lemma NotReplaced(was: Db, cs: seq<Chunk>, n: nat, e: string)
    requires !Replaced(was, cs, n + 1, e)
    ensures !Replaced(was, cs, n, e) && !TakesPlace(was, cs, n, e)
  {
    ReplacedMore(was, cs, n, e);
  }

  lemma NoProgress(db: Db, cs: seq<Chunk>, ids: seq<Ids>)
    requires GoodDb(db) && AllFresh(db, ids)
    ensures Progress(db, db, cs, 0, ids)
  {
  }

  lemma HoldsIffUnchanged(db: Db, live: Index, c: Chunk)
    requires GoodDb(db) && IndexOf(db, live)
    ensures Holds(db, c) <==> c.key in live && db.evidence[live[c.key]].sha == c.sha
  {
  }

  /** A position is taken, after earlier chunks, exactly when it was taken before them. */
  lemma {:induction false} TakenAsBefore(was: Db, db: Db, cs: seq<Chunk>, n: nat, ids: seq<Ids>)
    requires n < |cs| && DistinctKeys(cs) && Progress(was, db, cs, n, ids)
    ensures !KeyBefore(cs, n, cs[n].key)
    ensures Taken(db, cs[n].key) <==> Taken(was, cs[n].key)
  {
  }

  /** Nothing changed at other positions. */
  ghost predicate KeptElsewhere(db: Db, db': Db, key: Key) {
    && (forall e | e in db.evidence && db.evidence[e].key != key ::
          e in db'.evidence && db'.evidence[e] == db.evidence[e]
          && SameRow(db.claims, db'.claims, db.evidence[e].claim))
    && (forall e | e in db'.evidence && db'.evidence[e].key != key ::
          e in db.evidence && db'.evidence[e] == db.evidence[e])
  }

  /** No identifiers were used up but `ids`. */
  ghost predicate OnlyUsed(db: Db, db': Db, ids: Ids) {
    forall x: Ids | Fresh(db, x) && x.evidence != ids.evidence && x.claim != ids.claim :: Fresh(db', x)
  }

  /** What one statement for chunk `c` may have changed. */
  ghost predicate Changed(db: Db, db': Db, c: Chunk, ids: Ids) {
    GoodDb(db') && Holds(db', c) && KeptElsewhere(db, db', c.key) && OnlyUsed(db, db', ids)
  }

  lemma {:induction false} NextKey(cs: seq<Chunk>, n: nat, key: Key)
    requires n < |cs|
    ensures KeyBefore(cs, n + 1, key) <==> KeyBefore(cs, n, key) || key == cs[n].key
  {
    if key == cs[n].key { assert cs[n].key == key; }
  }

  lemma {:induction false} StillHolds(db: Db, db': Db, key: Key, c: Chunk)
    requires Holds(db, c) && KeptElsewhere(db, db', key) && c.key != key
    ensures Holds(db', c)
  {
    var e :| LiveChunk(db, e) && db.evidence[e].key == c.key && db.evidence[e].sha == c.sha;
    assert SameRow(db.claims, db'.claims, db.evidence[e].claim);
    assert LiveChunk(db', e);
  }

  /** What is kept at first, and then elsewhere, is kept where neither reaches. */
  lemma {:induction false} KeptTwice(was: Db, db: Db, db': Db, cs: seq<Chunk>, n: nat, ids: seq<Ids>, e: string)
    requires n < |cs| && Progress(was, db, cs, n, ids) && KeptElsewhere(db, db', cs[n].key)
    requires e in was.evidence && !KeyBefore(cs, n, was.evidence[e].key) && was.evidence[e].key != cs[n].key
    ensures e in db'.evidence && db'.evidence[e] == was.evidence[e]
            && SameRow(was.claims, db'.claims, was.evidence[e].claim)
  {
    hide GoodDb, Fresh, Holds, KeyBefore;
    assert SameRow(was.claims, db.claims, was.evidence[e].claim);
    assert SameRow(db.claims, db'.claims, was.evidence[e].claim);
  }

  lemma {:induction false} ChangeIsProgress(was: Db, db: Db, db': Db, cs: seq<Chunk>, n: nat, ids: seq<Ids>)
    requires n < |cs| && |ids| == |cs| && DistinctKeys(cs) && AllFresh(was, ids)
    requires Progress(was, db, cs, n, ids) && Changed(db, db', cs[n], ids[n])
    ensures Progress(was, db', cs, n + 1, ids)
  {
    hide GoodDb, Fresh, Holds, KeyBefore, SameRow;
    forall i | 0 <= i < n ensures Holds(db', cs[i]) {
      StillHolds(db, db', cs[n].key, cs[i]);
    }
    forall e | e in was.evidence && !KeyBefore(cs, n + 1, was.evidence[e].key)
      ensures e in db'.evidence && db'.evidence[e] == was.evidence[e]
          && SameRow(was.claims, db'.claims, was.evidence[e].claim)
    {
      NextKey(cs, n, was.evidence[e].key);
      KeptTwice(was, db, db', cs, n, ids, e);
    }
    forall e | e in db'.evidence && !KeyBefore(cs, n + 1, db'.evidence[e].key)
      ensures e in was.evidence && was.evidence[e] == db'.evidence[e]
    {
      NextKey(cs, n, db'.evidence[e].key);
    }
  }

  /** One evidence row more, and nothing else open at its position. */
  ghost predicate AddedRow(rows: map<string, Evidence>, rows': map<string, Evidence>, id: string, r: Evidence) {
    && rows'.Keys == rows.Keys + {id} && rows'[id] == r
    && (forall e <- rows :: rows'[e].claim == rows[e].claim && rows'[e].key == rows[e].key)
    && (forall e <- rows :: if rows[e].key == r.key then rows'[e].supersededAt.Some? else rows'[e] == rows[e])
  }

  /** One live claim more; those at other positions are as they were. */
  ghost predicate AddedClaim(db: Db, t': Table, key: Key, id: string) {
    && GoodTable(t') && Live(t', id) && t'.Keys == db.claims.Keys + {id}
    && (forall e <- db.evidence | db.evidence[e].key != key :: SameRow(db.claims, t', db.evidence[e].claim))
  }

  ghost predicate SameRow(t: Table, t': Table, id: string) {
    id in t && id in t' && t'[id] == t[id]
  }

  /** The shape of both statements. */
  ghost predicate Added(db: Db, db': Db, c: Chunk, ids: Ids, now: Time) {
    && AddedRow(db.evidence, db'.evidence, ids.evidence, NewEvidence(c, ids, now))
    && AddedClaim(db, db'.claims, c.key, ids.claim)
  }

  lemma {:induction false} AddedIsGood(db: Db, db': Db, c: Chunk, ids: Ids, now: Time)
    requires GoodDb(db) && Fresh(db, ids) && Added(db, db', c, ids, now)
    ensures GoodDb(db')
  {
    hide GoodTable;
    forall e, f | Open(db', e) && Open(db', f) && db'.evidence[e].key == db'.evidence[f].key ensures e == f {
      if e != ids.evidence && f != ids.evidence {
        assert Open(db, e) && Open(db, f);
      }
    }
    forall e, f | e in db'.evidence && f in db'.evidence && db'.evidence[e].claim == db'.evidence[f].claim
      ensures e == f
    {
      assert e in db.evidence ==> db.evidence[e].claim in db.claims;
      assert f in db.evidence ==> db.evidence[f].claim in db.claims;
    }
  }

  lemma {:induction false} AddedIsChanged(db: Db, db': Db, c: Chunk, ids: Ids, now: Time)
    requires GoodDb(db) && Fresh(db, ids) && Added(db, db', c, ids, now)
    ensures Changed(db, db', c, ids)
  {
    AddedIsGood(db, db', c, ids, now);
    AddedElsewhere(db, db', c, ids, now);
    AddedHolds(db, db', c, ids, now);
    hide GoodDb, KeptElsewhere, Holds, Added;
  }

  lemma {:induction false} AddedElsewhere(db: Db, db': Db, c: Chunk, ids: Ids, now: Time)
    requires Added(db, db', c, ids, now)
    ensures KeptElsewhere(db, db', c.key)
  {
  }

  lemma {:induction false} AddedHolds(db: Db, db': Db, c: Chunk, ids: Ids, now: Time)
    requires Fresh(db, ids) && Added(db, db', c, ids, now)
    ensures Holds(db', c) && OnlyUsed(db, db', ids)
  {
    assert Holds(db', c) by {
      hide AddedClaim, GoodTable;
      assert db'.evidence[ids.evidence] == NewEvidence(c, ids, now);
      assert LiveChunk(db', ids.evidence) by { LiveAdded(db, db', c, ids, now); }
    }
    hide Holds, GoodTable, SameRow;
  }

  lemma LiveAdded(db: Db, db': Db, c: Chunk, ids: Ids, now: Time)
    requires Added(db, db', c, ids, now)
    ensures Live(db'.claims, ids.claim)
  {
  }

  lemma {:induction false} InsertAdds(db: Db, c: Chunk, ids: Ids, now: Time)
    requires GoodDb(db) && Fresh(db, ids) && !Taken(db, c.key)
    ensures Added(db, InsertSeed(db, c, ids, now).0, c, ids, now)
  {
    hide GoodTable, OneOpenEach, OneClaimEach, Referenced, AddedRow, AddedClaim, Taken;
    ClaimAdded(db, c, ids, now);
    assert db.(evidence := db.evidence) == db;
    RowAdded(db, db.evidence, c, ids, now);
  }

  lemma {:induction false} ClaimAdded(db: Db, c: Chunk, ids: Ids, now: Time)
    requires GoodTable(db.claims) && Referenced(db) && Fresh(db, ids)
    ensures AddedClaim(db, InsertClaim(db.claims, ids.claim, c.content, now), c.key, ids.claim)
  {
    InsertKeepsTable(db.claims, ids.claim, c.content, now);
    hide GoodTable, Evolves;
  }

  lemma {:induction false} RowAdded(db: Db, closed: map<string, Evidence>, c: Chunk, ids: Ids, now: Time)
    requires Fresh(db, ids) && closed.Keys == db.evidence.Keys && !Taken(db.(evidence := closed), c.key)
    requires forall e <- closed :: closed[e].claim == db.evidence[e].claim && closed[e].key == db.evidence[e].key
    requires forall e <- closed | closed[e].key != c.key :: closed[e] == db.evidence[e]
    ensures AddedRow(db.evidence, closed[ids.evidence := NewEvidence(c, ids, now)], ids.evidence,
        NewEvidence(c, ids, now))
  {
  }

  lemma {:induction false} UnchangedChanges(db: Db, e: string, c: Chunk, ids: Ids)
    requires GoodDb(db) && LiveChunk(db, e) && db.evidence[e].key == c.key && db.evidence[e].sha == c.sha
    ensures Changed(db, db, c, ids)
  {
  }

  lemma {:induction false} OrphanedIffTakenNotLive(db: Db, live: Index, key: Key)
    requires GoodDb(db) && IndexOf(db, live)
    ensures Orphaned(db, key) <==> Taken(db, key) && key !in live
  {
  }

  /** What was live at a position not yet reached still is. */
  lemma {:induction false} LiveStays(was: Db, live: Index, db: Db, cs: seq<Chunk>, n: nat, ids: seq<Ids>)
    requires n < |cs| && DistinctKeys(cs) && Progress(was, db, cs, n, ids)
    requires IndexOf(was, live) && cs[n].key in live
    ensures var e := live[cs[n].key];
            && LiveChunk(was, e) && LiveChunk(db, e) && db.evidence[e] == was.evidence[e]
            && SameRow(was.claims, db.claims, was.evidence[e].claim)
  {
  }

  lemma {:induction false} ReplaceAdds(db: Db, e: string, c: Chunk, ids: Ids, now: Time)
    requires GoodDb(db) && Fresh(db, ids) && LiveChunk(db, e) && db.evidence[e].key == c.key
    requires Started(db, e, now)
    ensures Replace(db, e, db.evidence[e].claim, c, ids, now).1
    ensures Added(db, Replace(db, e, db.evidence[e].claim, c, ids, now).0, c, ids, now)
  {
    var prior := db.evidence[e].claim;
    ReplaceKeepsTable(db.claims, prior, ids.claim, c.content, now, now);
    assert Checked(prior, db.claims[prior]);
    ReplacedClaims(db, e, c, ids, now);
    NotTakenOnceClosed(db, e, now);
    hide GoodTable, Evolves, ReplaceSeed, OneOpenEach, Taken;
    RowAdded(db, CloseEvidence(db, e, now).evidence, c, ids, now);
    hide AddedRow;
    var t := ReplaceSeed(db.claims, prior, ids.claim, c.content, now, now).0;
    forall f <- db.evidence | db.evidence[f].key != c.key ensures SameRow(db.claims, t, db.evidence[f].claim) {
      assert db.evidence[f].claim in db.claims && db.evidence[f].claim != prior;
    }
    assert AddedClaim(db, t, c.key, ids.claim);
  }

  lemma {:induction false} NotTakenOnceClosed(db: Db, e: string, now: Time)
    requires OneOpenEach(db) && Open(db, e)
    ensures !Taken(CloseEvidence(db, e, now), db.evidence[e].key)
  {
  }

  /** Replacing closes one claim, in favour of the new one, and adds that. */
  lemma {:induction false} ReplacedClaims(db: Db, e: string, c: Chunk, ids: Ids, now: Time)
    requires Fresh(db, ids) && LiveChunk(db, e) && Started(db, e, now)
        && Checked(db.evidence[e].claim, db.claims[db.evidence[e].claim])
    ensures var prior := db.evidence[e].claim;
            var (t, outcome) := ReplaceSeed(db.claims, prior, ids.claim, c.content, now, now);
            && outcome == Done && t.Keys == db.claims.Keys + {ids.claim} && Live(t, ids.claim)
            && t[prior].supersededBy == Some(ids.claim) && t[prior].supersededAt == Some(now)
            && forall id <- db.claims | id != prior :: t[id] == db.claims[id]
  {
  }

  lemma {:induction false} ReplaceIsLater(db: Db, e: string, c: Chunk, ids: Ids, now: Time)
    requires Fresh(db, ids) && LiveChunk(db, e) && Replace(db, e, db.evidence[e].claim, c, ids, now).1
    ensures Started(db, e, now)
  {
  }

  /** Where a position is live, being orphaned is ruled out, and its one row decides. */
  lemma {:induction false} BlockedIff(db: Db, live: Index, c: Chunk, now: Time)
    requires GoodDb(db) && IndexOf(db, live)
    ensures c.key in live ==>
              (Blocked(db, c, now) <==> db.evidence[live[c.key]].sha != c.sha && !Started(db, live[c.key], now))
    ensures c.key !in live ==> (Blocked(db, c, now) <==> Taken(db, c.key))
  {
    OrphanedIffTakenNotLive(db, live, c.key);
    hide Orphaned, Taken;
    if c.key in live { assert LiveChunk(db, live[c.key]); }
  }

  /** One chunk succeeds exactly when it is not blocked, and then keeps the invariant. */
  lemma {:induction false} StepProgress(was: Db, live: Index, db: Db, cs: seq<Chunk>, n: nat, ids: seq<Ids>, now: Time)
    requires GoodDb(was) && IndexOf(was, live) && DistinctKeys(cs) && |ids| == |cs| && AllFresh(was, ids)
    requires n < |cs| && Progress(was, db, cs, n, ids)
    ensures Fresh(db, ids[n]) && forall k <- live :: live[k] in was.evidence
    ensures SeedOne(was, live, db, cs[n], ids[n], now).1 <==> !Blocked(was, cs[n], now)
    ensures SeedOne(was, live, db, cs[n], ids[n], now).1 ==>
              Progress(was, SeedOne(was, live, db, cs[n], ids[n], now).0, cs, n + 1, ids)
  {
    var c := cs[n];
    TakenAsBefore(was, db, cs, n, ids);
    BlockedIff(was, live, c, now);
    hide Blocked;
    if c.key in live {
      var e := live[c.key];
      LiveStays(was, live, db, cs, n, ids);
      hide Progress, KeyBefore, GoodDb;
      if was.evidence[e].sha == c.sha {
        UnchangedChanges(db, e, c, ids[n]);
        ChangeIsProgress(was, db, db, cs, n, ids);
      } else if !Started(db, e, now) {
        hide Replace;
        if Replace(db, e, db.evidence[e].claim, c, ids[n], now).1 { ReplaceIsLater(db, e, c, ids[n], now); }
      } else {
        ReplaceAdds(db, e, c, ids[n], now);
        hide Replace, Added, Changed;
        var db' := Replace(db, e, db.evidence[e].claim, c, ids[n], now).0;
        AddedIsChanged(db, db', c, ids[n], now);
        ChangeIsProgress(was, db, db', cs, n, ids);
      }
    } else if !Taken(db, c.key) {
      InsertAdds(db, c, ids[n], now);
      hide Added, Changed, KeyBefore;
      AddedIsChanged(db, InsertSeed(db, c, ids[n], now).0, c, ids[n], now);
      ChangeIsProgress(was, db, InsertSeed(db, c, ids[n], now).0, cs, n, ids);
    }
  }

  // ---------- Main results ----------

  /** After a run that succeeded, every chunk is held and nothing is in the way: the next run over the same
      chunks succeeds and changes nothing. */
  lemma {:induction false} NextRunIsIdle(was: Db, db: Db, cs: seq<Chunk>, ids: seq<Ids>, i: nat)
    requires Progress(was, db, cs, |cs|, ids) && i < |cs|
    ensures Holds(db, cs[i]) && !Orphaned(db, cs[i].key)
  {
  }

  /** A chunk that is gone from its file is not superseded: its rows stay live. */
  lemma {:induction false} GoneChunksStayLive(was: Db, db: Db, cs: seq<Chunk>, ids: seq<Ids>, e: string)
    requires Progress(was, db, cs, |cs|, ids) && LiveChunk(was, e) && !KeyBefore(cs, |cs|, was.evidence[e].key)
    ensures LiveChunk(db, e) && db.evidence[e] == was.evidence[e]
  {
  }

  /** A run that failed leaves what blocked it in place: the next run over the same chunks fails too. */
  lemma {:induction false} FailedRunFailsAgain(was: Db, db: Db, cs: seq<Chunk>, n: nat, ids: seq<Ids>)
    requires n < |cs| && DistinctKeys(cs) && Progress(was, db, cs, n, ids) && Orphaned(was, cs[n].key)
    ensures Orphaned(db, cs[n].key)
  {
    hide GoodDb;
    var e :| Open(was, e) && was.evidence[e].key == cs[n].key && !LiveChunk(was, e);
    assert SameRow(was.claims, db.claims, was.evidence[e].claim);
    assert Open(db, e) && !LiveChunk(db, e);
  }

  /** Nor does a run over other chunks clear a position, as far as it gets. */
  lemma {:induction false} OrphansOutlastOtherRuns(was: Db, db: Db, cs: seq<Chunk>, n: nat, ids: seq<Ids>, key: Key)
    requires n <= |cs| && Progress(was, db, cs, n, ids) && !KeyBefore(cs, n, key)
    ensures Orphaned(db, key) <==> Orphaned(was, key)
  {
    hide GoodDb, KeyBefore;
    if e :| Open(was, e) && was.evidence[e].key == key && !LiveChunk(was, e) {
      assert SameRow(was.claims, db.claims, was.evidence[e].claim);
      assert Open(db, e) && !LiveChunk(db, e);
    }
    if e :| Open(db, e) && db.evidence[e].key == key && !LiveChunk(db, e) {
      assert SameRow(was.claims, db.claims, was.evidence[e].claim);
      assert Open(was, e) && !LiveChunk(was, e);
    }
  }

  /** Nor does anything that happens to the claims: closed rows stay closed. */
  lemma {:induction false} OrphansOutlastClaims(db: Db, t: Table, key: Key)
    requires GoodDb(db) && Evolves(db.claims, t) && Orphaned(db, key)
    ensures Orphaned(db.(claims := t), key)
  {
    hide GoodTable;
    var e :| Open(db, e) && db.evidence[e].key == key && !LiveChunk(db, e);
    assert RowEvolves(db.claims[db.evidence[e].claim], t[db.evidence[e].claim]);
    assert Open(db.(claims := t), e) && !LiveChunk(db.(claims := t), e);
  }

  /** Whatever closes a live chunk's claim, without replacing the chunk, leaves its evidence open: the position is
      orphaned exactly when the claim is closed, and then a run that meets a chunk there fails. */
  lemma {:induction false} ClosingOrphansIff(db: Db, e: string, t: Table)
    requires GoodDb(db) && LiveChunk(db, e) && Evolves(db.claims, t)
    ensures Orphaned(db.(claims := t), db.evidence[e].key) <==> !Live(t, db.evidence[e].claim)
  {
    hide GoodTable;
    var db' := db.(claims := t);
    assert Open(db', e);
  }

  /** Expiry does, for whatever reason. */
  lemma {:induction false} ExpiryOrphans(db: Db, e: string, reason: string, now: Time)
    requires GoodDb(db) && LiveChunk(db, e) && ExpireClaim(db.claims, db.evidence[e].claim, reason, now).1 == Done
    ensures Orphaned(db.(claims := ExpireClaim(db.claims, db.evidence[e].claim, reason, now).0), db.evidence[e].key)
  {
    var id := db.evidence[e].claim;
    UpdateKeepsTable(db.claims, id, ClosedRow(db.claims[id], now, None, Some(reason)));
    ClosingOrphansIff(db, e, ExpireClaim(db.claims, id, reason, now).0);
  }

  /** So does pruning. */
  lemma {:induction false} PruningOrphans(db: Db, e: string, ids: set<string>, now: Time)
    requires GoodDb(db) && LiveChunk(db, e) && db.evidence[e].claim in ids && forall id <- ids :: Live(db.claims, id)
    requires CloseAll(db.claims, ids, "pruned", now).1 == Done
    ensures Orphaned(db.(claims := CloseAll(db.claims, ids, "pruned", now).0), db.evidence[e].key)
  {
    CloseAllKeepsTable(db.claims, ids, "pruned", now);
    ClosingOrphansIff(db, e, CloseAll(db.claims, ids, "pruned", now).0);
  }

  // ---------- From files to chunks ----------

  datatype File = File(path: string, lines: seq<string>)

  ghost predicate DistinctPaths(files: seq<File>) {
    forall i, j | 0 <= i < j < |files| :: files[i].path != files[j].path
  }

  /** The claim that rests on a chunk of the file at a path. */
  type Maker = (string, Chunker.Chunk) -> Content

  function Keyed(m: Maker, path: string, chunks: seq<Chunker.Chunk>): seq<Chunk> {
    seq(|chunks|, i requires 0 <= i < |chunks| =>
      Chunk(Key(path, chunks[i].ordinal), chunks[i].sha, m(path, chunks[i])))
  }

  ghost predicate ChunksOfFile(file: File, chunks: seq<Chunker.Chunk>) {
    exists cuts :: Chunker.ChunkedAt(file.lines, cuts, chunks)
  }

  /** The chunks of the first files, file by file. */
  function Flat(m: Maker, files: seq<File>, chunks: seq<seq<Chunker.Chunk>>): seq<Chunk>
    requires |files| == |chunks|
  {
    if files == [] then []
    else
      var n := |files| - 1;
      Flat(m, files[..n], chunks[..n]) + Keyed(m, files[n].path, chunks[n])
  }

  lemma {:induction false} FlatHasPath(m: Maker, files: seq<File>, chunks: seq<seq<Chunker.Chunk>>, k: nat)
    returns (f: nat)
    requires |files| == |chunks| && k < |Flat(m, files, chunks)|
    ensures f < |files| && Flat(m, files, chunks)[k].key.path == files[f].path
  {
    var n := |files| - 1;
    if k < |Flat(m, files[..n], chunks[..n])| {
      f := FlatHasPath(m, files[..n], chunks[..n], k);
    } else {
      f := n;
    }
  }

  /** Positions are distinct because paths are, and because a file's chunks are numbered. */
  lemma {:induction false} FlatKeysAreDistinct(m: Maker, files: seq<File>, chunks: seq<seq<Chunker.Chunk>>)
    requires |files| == |chunks| && DistinctPaths(files)
    requires forall f | 0 <= f < |files| :: ChunksOfFile(files[f], chunks[f])
    ensures DistinctKeys(Flat(m, files, chunks))
  {
    if files != [] {
      var n := |files| - 1;
      FlatKeysAreDistinct(m, files[..n], chunks[..n]);
      Numbered(files[n], chunks[n]);
      var before, all := Flat(m, files[..n], chunks[..n]), Flat(m, files, chunks);
      forall i, j | 0 <= i < j < |all| ensures all[i].key != all[j].key {
        if i < |before| <= j {
          var f := FlatHasPath(m, files[..n], chunks[..n], i);
        }
      }
    }
  }

  lemma {:induction false} Numbered(file: File, chunks: seq<Chunker.Chunk>)
    requires ChunksOfFile(file, chunks)
    ensures forall i | 0 <= i < |chunks| :: chunks[i].ordinal == i
  {
    var cuts :| Chunker.ChunkedAt(file.lines, cuts, chunks);
    Chunker.ChunksTileTheFile(file.lines, cuts, chunks);
  }

  lemma ChunkedIsOfFile(file: File, chunks: seq<Chunker.Chunk>)
    requires exists cuts :: Chunker.ChunkedAt(file.lines, cuts, chunks)
    ensures ChunksOfFile(file, chunks)
  {
  }

  /** The chunks a run works on, from the files it discovered. */
  method ChunkFiles(m: Maker, files: seq<File>) returns (cs: seq<Chunk>)
    requires DistinctPaths(files)
    ensures DistinctKeys(cs)
    ensures exists chunks :: |chunks| == |files| && cs == Flat(m, files, chunks)
                             && forall f | 0 <= f < |files| :: ChunksOfFile(files[f], chunks[f])
  {
    hide ChunksOfFile, Keyed, Flat, DistinctKeys, DistinctPaths, Chunker.ChunkedAt;
    cs := [];
    ghost var done: seq<seq<Chunker.Chunk>> := [];
    NoFiles(m);
    assert files[..0] == [];
    for f := 0 to |files|
      invariant |done| == f && cs == Flat(m, files[..f], done)
      invariant forall g | 0 <= g < f :: ChunksOfFile(files[g], done[g])
    {
      var chunks := Chunker.ChunkFile(files[f].lines);
      ChunkedIsOfFile(files[f], chunks);
      NextFile(m, files, f, done, chunks);
      cs := cs + Keyed(m, files[f].path, chunks);
      done := done + [chunks];
    }
    assert files[..|files|] == files;
    FlatKeysAreDistinct(m, files, done);
  }

  lemma NoFiles(m: Maker)
    ensures Flat(m, [], []) == []
  {
  }

  lemma NextFile(m: Maker, files: seq<File>, f: nat, done: seq<seq<Chunker.Chunk>>, chunks: seq<Chunker.Chunk>)
    requires f < |files| && |done| == f
    ensures Flat(m, files[..f + 1], done + [chunks]) == Flat(m, files[..f], done) + Keyed(m, files[f].path, chunks)
  {
    assert files[..f + 1][..f] == files[..f] && (done + [chunks])[..f] == done;
  }
}
