/** The limit decisions: arithmetic over counts. The pruning aggressiveness is an exact real. */
module Limit {

  datatype Decision = Decision(allowed: bool, remaining: int)

  datatype Config = Config(recallRate: int, recallWindow: nat, maxPackageClaims: int,
                           scopeClaimCeiling: int, pruneAggressiveness: real)

  function WindowStart(now: int, window: int): int {
    now - window
  }

  function AtMost(inWindow: int, ceiling: int): Decision {
    if ceiling <= 0 then Decision(true, -1)
    else if ceiling - inWindow <= 0 then Decision(false, 0)
    else Decision(true, ceiling - inWindow)
  }

  function RecallRate(recallsInWindow: int, cfg: Config): Decision {
    AtMost(recallsInWindow, cfg.recallRate)
  }

  function PackageCap(cfg: Config): int {
    cfg.maxPackageClaims
  }

  function Ceil(x: real): (n: int)
    ensures n as real - 1.0 < x <= n as real
  {
    -(-x).Floor
  }

  function PruneTarget(live: nat, cfg: Config): int {
    if cfg.scopeClaimCeiling <= 0 then 0
    else
      var over := live - cfg.scopeClaimCeiling;
      if over <= 0 then 0
      else
        var target := over + Ceil(over as real * cfg.pruneAggressiveness);
        if target > live then live else target
  }

  /** What is reported as remaining is exactly how many more operations will be allowed. */
  lemma RemainingIsExact(inWindow: int, ceiling: int, more: nat)
    requires ceiling > 0
    ensures AtMost(inWindow + more, ceiling).allowed <==> more < AtMost(inWindow, ceiling).remaining
  {
  }

  /** A limit of zero or less is none; any other allows so many operations and then no more. */
  lemma CeilingIsExact(inWindow: int, ceiling: int)
    ensures AtMost(inWindow, ceiling).allowed <==> ceiling <= 0 || inWindow < ceiling
    ensures AtMost(inWindow, ceiling).remaining
            == if ceiling <= 0 then -1 else if inWindow < ceiling then ceiling - inWindow else 0
  {
  }

  /** Over its ceiling a scope is pruned of the whole overage and of a headroom, the least whole number that is not
      less than the aggressiveness times the overage; of no more than there is. */
  lemma PruneTargetIs(live: nat, cfg: Config, headroom: int)
    requires 0 < cfg.scopeClaimCeiling < live
    requires var exact := (live - cfg.scopeClaimCeiling) as real * cfg.pruneAggressiveness;
             headroom as real - 1.0 < exact <= headroom as real
    ensures var wanted := live - cfg.scopeClaimCeiling + headroom;
            PruneTarget(live, cfg) == if wanted < live then wanted else live
  {
  }

  lemma CeilIsMonotone(x: real, y: real)
    requires x <= y
    ensures Ceil(x) <= Ceil(y)
  {
  }

  /** Whatever the aggressiveness, never more is pruned than there is, and nothing at or under the ceiling. */
  lemma PruneIsBounded(live: nat, cfg: Config)
    ensures PruneTarget(live, cfg) <= live
    ensures cfg.scopeClaimCeiling <= 0 || live <= cfg.scopeClaimCeiling ==> PruneTarget(live, cfg) == 0
  {
  }

  /** The headroom takes back no whole claim. */
  predicate MeetsCeiling(live: nat, cfg: Config) {
    (live - cfg.scopeClaimCeiling) as real * cfg.pruneAggressiveness > -1.0
  }

  /** Pruning to the target brings a scope to its ceiling exactly when the headroom does not take back a whole
      claim: for every aggressiveness that is not negative, and for a negative one only near the ceiling. */
  lemma PruneReachesCeilingIff(live: nat, cfg: Config)
    requires cfg.scopeClaimCeiling > 0 && live > cfg.scopeClaimCeiling
    ensures live - PruneTarget(live, cfg) <= cfg.scopeClaimCeiling <==> MeetsCeiling(live, cfg)
  {
    CeilSign((live - cfg.scopeClaimCeiling) as real * cfg.pruneAggressiveness);
  }

  lemma CeilSign(x: real)
    ensures Ceil(x) >= 0 <==> x > -1.0
  {
    assert Ceil(x) < 0 ==> Ceil(x) as real <= -1.0;
  }

  /** The fuller the scope, the less a pass leaves behind. */
  ghost predicate FullerKeepsLess(cfg: Config) {
    forall live: nat, more: nat | cfg.scopeClaimCeiling < live <= more ::
      more - PruneTarget(more, cfg) <= live - PruneTarget(live, cfg)
  }

  /** Growth is cut back harder the further it goes exactly when the aggressiveness is not negative. */
  lemma FullerKeepsLessIff(cfg: Config)
    requires cfg.scopeClaimCeiling > 0
    ensures FullerKeepsLess(cfg) <==> cfg.pruneAggressiveness >= 0.0
  {
    var a, ceiling := cfg.pruneAggressiveness, cfg.scopeClaimCeiling;
    if a >= 0.0 {
      forall live: nat, more: nat | ceiling < live <= more
        ensures more - PruneTarget(more, cfg) <= live - PruneTarget(live, cfg)
      {
        var x, y := (live - ceiling) as real, (more - ceiling) as real;
        assert y * a - x * a == (y - x) * a >= 0.0;
        CeilIsMonotone(x * a, y * a);
      }
    } else {
      FullerCanKeepMore(cfg);
    }
  }

  lemma FullerCanKeepMore(cfg: Config)
    requires cfg.scopeClaimCeiling > 0 && cfg.pruneAggressiveness < 0.0
    ensures !FullerKeepsLess(cfg)
  {
    var a, ceiling := cfg.pruneAggressiveness, cfg.scopeClaimCeiling;
    var k := ManyEnough(a);
    var live, more := ceiling + 1, ceiling + 1 + k;
    TargetOver(1, cfg);
    TargetOver(1 + k, cfg);
    assert (1 + k) as real * a == a + k as real * a;
    CeilDrops((1 + k) as real * a, 1 as real * a);
    assert more - PruneTarget(more, cfg) > live - PruneTarget(live, cfg);
  }

  lemma ManyEnough(a: real) returns (k: nat)
    requires a < 0.0
    ensures k as real * a <= -1.0
  {
    var b := 1.0 / -a;
    k := Ceil(b);
    assert b * -a == 1.0;
    assert (k as real - b) * -a >= 0.0;
    assert (k as real - b) * -a == k as real * -a - b * -a;
  }

  /** How much is pruned of a scope that is `over` its ceiling, when headroom is negative. */
  lemma TargetOver(over: nat, cfg: Config)
    requires over > 0 && cfg.scopeClaimCeiling > 0 && cfg.pruneAggressiveness < 0.0
    ensures PruneTarget(cfg.scopeClaimCeiling + over, cfg) == over + Ceil(over as real * cfg.pruneAggressiveness)
  {
    assert over as real * cfg.pruneAggressiveness <= 0.0;
  }

  lemma CeilDrops(x: real, y: real)
    requires x <= y - 1.0
    ensures Ceil(x) <= Ceil(y) - 1
  {
  }

  /** With any aggressiveness at all a pass leaves strictly less than the ceiling. */
  lemma HeadroomIsLeft(live: nat, cfg: Config)
    requires cfg.pruneAggressiveness > 0.0 && cfg.scopeClaimCeiling > 0 && live > cfg.scopeClaimCeiling
    ensures live - PruneTarget(live, cfg) < cfg.scopeClaimCeiling
  {
    assert (live - cfg.scopeClaimCeiling) as real * cfg.pruneAggressiveness > 0.0;
  }
}
