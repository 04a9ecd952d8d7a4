/** The recall rate over runs. A recall first counts the principal's recorded recalls, and only when it
    completes adds one; other recalls may begin and complete in between. */
module RateWindow {
  import opened Limit

  datatype Recorded = Recorded(principal: string, at: int)

  /** RecallsInWindow: the recalls of `p` strictly after `since`. */
  function Since(ledger: seq<Recorded>, p: string, since: int): nat {
    if ledger == [] then 0
    else
      var e := ledger[|ledger| - 1];
      Since(ledger[..|ledger| - 1], p, since) + if e.principal == p && e.at > since then 1 else 0
  }

  /** The recalls of `p` in the half-open window (from, until]. */
  function Between(ledger: seq<Recorded>, p: string, from: int, until: int): nat {
    if ledger == [] then 0
    else
      var e := ledger[|ledger| - 1];
      Between(ledger[..|ledger| - 1], p, from, until) + if e.principal == p && from < e.at <= until then 1 else 0
  }

  function Of(flight: seq<Recorded>, p: string): nat {
    if flight == [] then 0
    else Of(flight[..|flight| - 1], p) + if flight[|flight| - 1].principal == p then 1 else 0
  }

  /** A recall in flight has been allowed and has not yet completed. */
  datatype Meter = Meter(ledger: seq<Recorded>, flight: seq<Recorded>)

  datatype Event = Begin(principal: string, now: int) | Finish(i: nat, recorded: bool)

  /** A recall may begin when the rate allows it; a principal never has more than `width` in flight. */
  predicate Enabled(cfg: Config, width: nat, s: Meter, e: Event) {
    match e
    case Begin(p, now) =>
      && RecallRate(Since(s.ledger, p, WindowStart(now, cfg.recallWindow)), cfg).allowed
      && Of(s.flight, p) < width
    case Finish(i, _) => i < |s.flight|
  }

  function Step(cfg: Config, width: nat, s: Meter, e: Event): Meter
    requires Enabled(cfg, width, s, e)
  {
    match e
    case Begin(p, now) => s.(flight := s.flight + [Recorded(p, now)])
    case Finish(i, recorded) =>
      Meter(if recorded then s.ledger + [s.flight[i]] else s.ledger, s.flight[..i] + s.flight[i + 1..])
  }

  ghost predicate Runs(cfg: Config, width: nat, s: Meter, es: seq<Event>)
    decreases |es|
  {
    es == [] || (Enabled(cfg, width, s, es[0]) && Runs(cfg, width, Step(cfg, width, s, es[0]), es[1..]))
  }

  ghost function After(cfg: Config, width: nat, s: Meter, es: seq<Event>): Meter
    requires Runs(cfg, width, s, es)
    decreases |es|
  {
    if es == [] then s else After(cfg, width, Step(cfg, width, s, es[0]), es[1..])
  }

  // ---------- Counting ----------

  lemma {:induction false} BetweenWithinSince(ledger: seq<Recorded>, p: string, since: int, from: int, until: int)
    requires since <= from
    ensures Between(ledger, p, from, until) <= Since(ledger, p, since)
  {
    if ledger != [] {
      BetweenWithinSince(ledger[..|ledger| - 1], p, since, from, until);
    }
  }

  lemma {:induction false} BetweenWithinFlight(flight: seq<Recorded>, p: string, from: int, until: int)
    ensures Between(flight, p, from, until) <= Of(flight, p)
  {
    if flight != [] {
      BetweenWithinFlight(flight[..|flight| - 1], p, from, until);
    }
  }

  function One(e: Recorded, p: string, from: int, until: int): nat {
    if e.principal == p && from < e.at <= until then 1 else 0
  }

  lemma BetweenSnoc(ledger: seq<Recorded>, e: Recorded, p: string, from: int, until: int)
    ensures Between(ledger + [e], p, from, until) == Between(ledger, p, from, until) + One(e, p, from, until)
  {
  }

  lemma {:induction false} BetweenConcat(a: seq<Recorded>, b: seq<Recorded>, p: string, from: int, until: int)
    ensures Between(a + b, p, from, until) == Between(a, p, from, until) + Between(b, p, from, until)
    decreases |b|
  {
    if b == [] {
      assert a + b == a;
    } else {
      var n := |b| - 1;
      assert (a + b)[..|a| + n] == a + b[..n];
      BetweenConcat(a, b[..n], p, from, until);
    }
  }

  lemma {:induction false} BetweenWithout(flight: seq<Recorded>, i: nat, p: string, from: int, until: int)
    requires i < |flight|
    ensures Between(flight, p, from, until)
            == Between(flight[..i] + flight[i + 1..], p, from, until) + One(flight[i], p, from, until)
  {
    hide Between;
    assert flight == flight[..i] + [flight[i]] + flight[i + 1..];
    BetweenConcat(flight[..i] + [flight[i]], flight[i + 1..], p, from, until);
    BetweenSnoc(flight[..i], flight[i], p, from, until);
    BetweenConcat(flight[..i], flight[i + 1..], p, from, until);
  }

  // ---------- Safety ----------

  /** Recorded and in flight together, no window of the configured length holds more than `most` recalls of anyone. */
  ghost predicate Bounded(cfg: Config, most: int, s: Meter) {
    forall p, from :: Load(cfg, s, p, from) <= most
  }

  function Load(cfg: Config, s: Meter, p: string, from: int): nat {
    Between(s.ledger, p, from, from + cfg.recallWindow) + Between(s.flight, p, from, from + cfg.recallWindow)
  }

  lemma {:induction false} BeginKeepsBound(cfg: Config, width: nat, s: Meter, p: string, now: int)
    requires cfg.recallRate > 0 && Enabled(cfg, width, s, Begin(p, now)) && Bounded(cfg, cfg.recallRate + width - 1, s)
    ensures Bounded(cfg, cfg.recallRate + width - 1, Step(cfg, width, s, Begin(p, now)))
  {
    var s' := Step(cfg, width, s, Begin(p, now));
    hide Between, Since, Of;
    forall q, from ensures Load(cfg, s', q, from) <= cfg.recallRate + width - 1 {
      var until := from + cfg.recallWindow;
      assert Load(cfg, s, q, from) <= cfg.recallRate + width - 1;
      BetweenSnoc(s.flight, Recorded(p, now), q, from, until);
      if One(Recorded(p, now), q, from, until) == 1 {
        BetweenWithinSince(s.ledger, p, WindowStart(now, cfg.recallWindow), from, until);
        BetweenWithinFlight(s.flight, p, from, until);
      }
    }
  }

  lemma {:induction false} StepKeepsBound(cfg: Config, width: nat, s: Meter, e: Event)
    requires cfg.recallRate > 0 && Enabled(cfg, width, s, e) && Bounded(cfg, cfg.recallRate + width - 1, s)
    ensures Bounded(cfg, cfg.recallRate + width - 1, Step(cfg, width, s, e))
  {
    hide Between, Since, Of;
    match e
    case Begin(p, now) => BeginKeepsBound(cfg, width, s, p, now);
    case Finish(i, recorded) =>
      var s' := Step(cfg, width, s, e);
      forall q, from ensures Load(cfg, s', q, from) <= cfg.recallRate + width - 1 {
        var until := from + cfg.recallWindow;
        assert Load(cfg, s, q, from) <= cfg.recallRate + width - 1;
        BetweenSnoc(s.ledger, s.flight[i], q, from, until);
        BetweenWithout(s.flight, i, q, from, until);
      }
  }

  /** With at most `width` recalls of a principal in flight at once, no window ever holds more than
      `recallRate + width - 1` of them: exactly the rate when recalls run one at a time, whatever their clocks. */
  lemma {:induction false} WindowsStayBounded(cfg: Config, width: nat, s: Meter, es: seq<Event>)
    requires cfg.recallRate > 0 && Bounded(cfg, cfg.recallRate + width - 1, s) && Runs(cfg, width, s, es)
    ensures Bounded(cfg, cfg.recallRate + width - 1, After(cfg, width, s, es))
    decreases |es|
  {
    hide Bounded, Enabled, Step;
    if es != [] {
      StepKeepsBound(cfg, width, s, es[0]);
      WindowsStayBounded(cfg, width, Step(cfg, width, s, es[0]), es[1..]);
    }
  }

  // ---------- The bound is reached ----------

  lemma {:induction false} RunsExtend(cfg: Config, width: nat, s: Meter, es: seq<Event>, e: Event)
    requires Runs(cfg, width, s, es) && Enabled(cfg, width, After(cfg, width, s, es), e)
    ensures Runs(cfg, width, s, es + [e])
    ensures After(cfg, width, s, es + [e]) == Step(cfg, width, After(cfg, width, s, es), e)
    decreases |es|
  {
    hide Enabled, Step;
    if es == [] {
      assert [] + [e] == [e] && [e][1..] == [];
    } else {
      RunsExtend(cfg, width, Step(cfg, width, s, es[0]), es[1..], e);
      assert (es + [e])[1..] == es[1..] + [e];
    }
  }

  const NONE := Meter([], [])
  const E := Recorded("someone", 1)

  function Copies(n: nat): seq<Recorded> {
    seq(n, _ => E)
  }

  lemma {:induction false} CountCopies(n: nat, window: nat)
    requires window > 0
    ensures Since(Copies(n), "someone", 1 - window) == n == Of(Copies(n), "someone")
    ensures Between(Copies(n), "someone", 1 - window, 1) == n
  {
    if n > 0 {
      assert Copies(n)[..n - 1] == Copies(n - 1);
      CountCopies(n - 1, window);
    }
  }

  lemma {:induction false} OneMoreFlying(cfg: Config, width: nat, recorded: nat, flying: nat)
    requires cfg.recallRate > 0 && cfg.recallWindow > 0 && recorded < cfg.recallRate && flying < width
    ensures Enabled(cfg, width, Meter(Copies(recorded), Copies(flying)), Begin("someone", 1))
    ensures Step(cfg, width, Meter(Copies(recorded), Copies(flying)), Begin("someone", 1))
        == Meter(Copies(recorded), Copies(flying + 1))
  {
    hide Since, Of;
    CountCopies(recorded, cfg.recallWindow);
    CountCopies(flying, cfg.recallWindow);
    assert Copies(flying + 1) == Copies(flying) + [E];
  }

  /** `recorded` recalls one after the other, then `flying` more that begin before any of them completes. */
  lemma {:induction false} Overlapping(cfg: Config, width: nat, recorded: nat, flying: nat) returns (es: seq<Event>)
    requires cfg.recallRate > 0 && cfg.recallWindow > 0 && recorded < cfg.recallRate && flying <= width && width > 0
    ensures Runs(cfg, width, NONE, es) && After(cfg, width, NONE, es) == Meter(Copies(recorded), Copies(flying))
    decreases recorded, flying
  {
    hide Runs, After, Since, Of;
    RunsNothing(cfg, width);
    if flying > 0 {
      es := Overlapping(cfg, width, recorded, flying - 1);
      hide Copies;
      OneMoreFlying(cfg, width, recorded, flying - 1);
      RunsExtend(cfg, width, NONE, es, Begin("someone", 1));
      es := es + [Begin("someone", 1)];
    } else if recorded > 0 {
      es := Overlapping(cfg, width, recorded - 1, 1);
      RunsExtend(cfg, width, NONE, es, Finish(0, true));
      es := es + [Finish(0, true)];
      assert Copies(recorded) == Copies(recorded - 1) + [E] && Copies(1) == [E];
      assert Copies(1)[..0] + Copies(1)[1..] == Copies(0);
    } else {
      es := [];
      assert Copies(0) == [];
    }
  }

  lemma RunsNothing(cfg: Config, width: nat)
    ensures Runs(cfg, width, NONE, []) && After(cfg, width, NONE, []) == NONE
  {
  }

  lemma {:induction false} Landing(cfg: Config, width: nat, landed: nat) returns (es: seq<Event>)
    requires cfg.recallRate > 0 && cfg.recallWindow > 0 && landed <= width && width > 0
    ensures Runs(cfg, width, NONE, es)
    ensures After(cfg, width, NONE, es) == Meter(Copies(cfg.recallRate - 1 + landed), Copies(width - landed))
    decreases landed
  {
    hide Runs, After, Since, Of;
    if landed == 0 {
      es := Overlapping(cfg, width, cfg.recallRate - 1, width);
    } else {
      es := Landing(cfg, width, landed - 1);
      RunsExtend(cfg, width, NONE, es, Finish(0, true));
      es := es + [Finish(0, true)];
      var n := cfg.recallRate - 1 + landed;
      assert Copies(n) == Copies(n - 1) + [E];
      var w := Copies(width - landed + 1);
      assert w[..0] + w[1..] == Copies(width - landed);
    }
  }

  /** Counting and recording are two steps: with `width` recalls overlapping, the bound is reached. */
  lemma {:induction false} BoundIsReached(cfg: Config, width: nat) returns (es: seq<Event>, from: int)
    requires cfg.recallRate > 0 && cfg.recallWindow > 0 && width > 0
    ensures Runs(cfg, width, NONE, es)
    ensures Between(After(cfg, width, NONE, es).ledger, "someone", from, from + cfg.recallWindow)
        == cfg.recallRate + width - 1
  {
    es := Landing(cfg, width, width);
    from := 1 - cfg.recallWindow;
    CountCopies(cfg.recallRate - 1 + width, cfg.recallWindow);
  }
}
