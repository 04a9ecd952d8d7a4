/** The bi-temporal algebra. Time is a natural number whose zero is Go's zero time: as an upper bound
    it means "open". */
module Temporal {

  type Time = nat

  datatype Result<+T> = Ok(value: T) | NotWellFormed

  datatype Interval = Interval(from: Time, until: Time)

  predicate IsOpen(i: Interval) {
    i.until == 0
  }

  predicate WellFormed(i: Interval) {
    IsOpen(i) || i.from < i.until
  }

  predicate Contains(i: Interval, t: Time) {
    if t < i.from then false else IsOpen(i) || t < i.until
  }

  predicate Overlaps(a: Interval, b: Interval) {
    if !IsOpen(a) && a.until <= b.from then false
    else if !IsOpen(b) && b.until <= a.from then false
    else true
  }

  predicate Meets(a: Interval, b: Interval) {
    !IsOpen(a) && a.until == b.from
  }

  /** For well-formed intervals the two endpoint tests decide whether some instant lies in both. */
  lemma OverlapsIffCommonInstant(a: Interval, b: Interval)
    requires WellFormed(a) && WellFormed(b)
    ensures Overlaps(a, b) <==> exists t: Time :: Contains(a, t) && Contains(b, t)
  {
    var t := if a.from < b.from then b.from else a.from;
    if Overlaps(a, b) {
      assert Contains(a, t) && Contains(b, t);
    }
  }

  /** Meeting intervals leave no gap and share no instant. */
  lemma MeetsLeavesNoGap(a: Interval, b: Interval, t: Time)
    requires WellFormed(a) && WellFormed(b) && Meets(a, b) && a.from <= t && (IsOpen(b) || t < b.until)
    ensures Contains(a, t) <==> !Contains(b, t)
  {
  }

  function Close(i: Interval, t: Time): (r: Result<Interval>)
    ensures r.Ok? <==> IsOpen(i) && t > i.from
    ensures r.Ok? ==> WellFormed(r.value) && !IsOpen(r.value)
    ensures r.Ok? ==> forall s: Time :: Contains(r.value, s) <==> Contains(i, s) && s < t
  {
    if !IsOpen(i) then NotWellFormed
    else if t <= i.from then NotWellFormed
    else Ok(Interval(i.from, t))
  }

  /** A claim's identity and content, and its two intervals. An empty `supersededBy` is no successor. */
  datatype Claim<+C> = Claim(id: string, content: C, valid: Interval, recorded: Interval, supersededBy: string)

  function Supersede<C>(incumbent: Claim<C>, successorID: string, t: Time): (r: Result<Claim<C>>)
    ensures r.Ok? <==> successorID != "" && successorID != incumbent.id
                       && IsOpen(incumbent.recorded) && t > incumbent.recorded.from
                       && (IsOpen(incumbent.valid) ==> t > incumbent.valid.from)
    ensures r.Ok? ==> r.value.id == incumbent.id && r.value.content == incumbent.content
                      && r.value.supersededBy == successorID
    ensures r.Ok? ==> forall s: Time :: Contains(r.value.recorded, s) <==> Contains(incumbent.recorded, s) && s < t
    ensures r.Ok? && IsOpen(incumbent.valid) ==>
              forall s: Time :: Contains(r.value.valid, s) <==> Contains(incumbent.valid, s) && s < t
    ensures r.Ok? && !IsOpen(incumbent.valid) ==> r.value.valid == incumbent.valid
  {
    if successorID == "" || successorID == incumbent.id then NotWellFormed
    else match Close(incumbent.recorded, t)
      case NotWellFormed => NotWellFormed
      case Ok(recorded) =>
        var c := incumbent.(recorded := recorded, supersededBy := successorID);
        if IsOpen(incumbent.valid) then
          match Close(incumbent.valid, t)
          case NotWellFormed => NotWellFormed
          case Ok(valid) => Ok(c.(valid := valid))
        else Ok(c)
  }

  predicate Current<C>(c: Claim<C>, validAt: Time, txAt: Time) {
    Contains(c.valid, validAt) && Contains(c.recorded, txAt)
  }

  /** The claims current in both dimensions, in order. */
  function CurrentOf<C>(claims: seq<Claim<C>>, validAt: Time, txAt: Time): seq<Claim<C>> {
    if claims == [] then []
    else
      var n := |claims| - 1;
      CurrentOf(claims[..n], validAt, txAt) + if Current(claims[n], validAt, txAt) then [claims[n]] else []
  }

  /** A claim is among them exactly when it is one of the claims and current. */
  lemma {:induction false} CurrentOfMembers<C>(claims: seq<Claim<C>>, validAt: Time, txAt: Time, c: Claim<C>)
    ensures c in CurrentOf(claims, validAt, txAt) <==> c in claims && Current(c, validAt, txAt)
  {
    if claims != [] {
      var n := |claims| - 1;
      CurrentOfMembers(claims[..n], validAt, txAt, c);
      assert claims == claims[..n] + [claims[n]];
    }
  }

  /** They keep their order and number: what is current in two lists is current in each. */
  lemma {:induction false} CurrentOfConcat<C>(a: seq<Claim<C>>, b: seq<Claim<C>>, validAt: Time, txAt: Time)
    ensures CurrentOf(a + b, validAt, txAt) == CurrentOf(a, validAt, txAt) + CurrentOf(b, validAt, txAt)
    decreases |b|
  {
    if b == [] {
      assert a + b == a;
    } else {
      var n := |b| - 1;
      assert (a + b)[..|a| + n] == a + b[..n];
      CurrentOfConcat(a, b[..n], validAt, txAt);
    }
  }

  /** Current in both dimensions: each interval has begun, and is open or ends later. */
  lemma CurrentIff<C>(c: Claim<C>, validAt: Time, txAt: Time)
    ensures Current(c, validAt, txAt)
            <==> && c.valid.from <= validAt && (c.valid.until == 0 || validAt < c.valid.until)
                 && c.recorded.from <= txAt && (c.recorded.until == 0 || txAt < c.recorded.until)
  {
  }

  method CurrentAt<C>(claims: seq<Claim<C>>, validAt: Time, txAt: Time) returns (out: seq<Claim<C>>)
    ensures out == CurrentOf(claims, validAt, txAt)
  {
    out := [];
    for i := 0 to |claims|
      invariant out == CurrentOf(claims[..i], validAt, txAt)
    {
      assert claims[..i + 1][..i] == claims[..i];
      if Contains(claims[i].valid, validAt) && Contains(claims[i].recorded, txAt) {
        out := out + [claims[i]];
      }
    }
    assert claims[..|claims|] == claims;
  }

  predicate PairwiseApart(intervals: seq<Interval>) {
    forall i, j | 0 <= i < j < |intervals| :: !Overlaps(intervals[i], intervals[j])
  }

  method NoValidTimeOverlap(intervals: seq<Interval>) returns (none: bool)
    ensures none == PairwiseApart(intervals)
  {
    for i := 0 to |intervals|
      invariant forall a, b | 0 <= a < i && a < b < |intervals| :: !Overlaps(intervals[a], intervals[b])
    {
      for j := i + 1 to |intervals|
        invariant forall b | i < b < j :: !Overlaps(intervals[i], intervals[b])
      {
        if Overlaps(intervals[i], intervals[j]) {
          return false;
        }
      }
    }
    return true;
  }

  /** Well-formed intervals are pairwise apart exactly when no instant lies in two of them. */
  lemma ApartIffNoSharedInstant(intervals: seq<Interval>)
    requires forall i | 0 <= i < |intervals| :: WellFormed(intervals[i])
    ensures PairwiseApart(intervals) <==>
              forall i, j, t: Time | 0 <= i < j < |intervals| ::
                !(Contains(intervals[i], t) && Contains(intervals[j], t))
  {
    forall i, j | 0 <= i < j < |intervals|
      ensures Overlaps(intervals[i], intervals[j]) <==>
                exists t: Time :: Contains(intervals[i], t) && Contains(intervals[j], t)
    {
      OverlapsIffCommonInstant(intervals[i], intervals[j]);
    }
  }
}
