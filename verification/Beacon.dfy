/** The beacon test (detectors/beacon_detector.py:132-175) over exact reals: what regular timing it
    is sure to catch, and what it can catch at all. */
module Beacon {
  import opened Basics
  import opened Welford

  /** Both settings are checked to be positive when the configuration is loaded. */
  datatype Config = Config(minIntervals: nat, threshold: real) {
    predicate Valid() { minIntervals >= 1 && threshold > 0.0 }

    /** The threshold's share of a mean. */
    function Share(mean: real): real { threshold * mean }
  }

  const MAX_TIMESTAMPS := 200

  /** The inter-arrival times, in seconds. */
  function Gaps(ts: seq<real>): seq<real> {
    if |ts| < 2 then [] else seq(|ts| - 1, i requires 0 <= i < |ts| - 1 => ts[i + 1] - ts[i])
  }

  /** The gaps that are not burst noise. */
  function Kept(gaps: seq<real>): seq<real> {
    if gaps == [] then []
    else Kept(gaps[..|gaps| - 1]) + (if gaps[|gaps| - 1] >= 1.0 then [gaps[|gaps| - 1]] else [])
  }

  function Variance(g: seq<real>): real {
    if g == [] then 0.0 else Deviations(g, Mean(g)) / |g| as real
  }

  /** Whether a flow's timing passes every gate before the cooldown. */
  predicate Regular(ts: seq<real>, cfg: Config, sqrt: real -> real) {
    |ts| >= 3 &&
    var g := Kept(Gaps(ts));
    |g| >= cfg.minIntervals && RegularGaps(g, cfg, sqrt)
  }

  predicate RegularGaps(g: seq<real>, cfg: Config, sqrt: real -> real) {
    Mean(g) >= 5.0 && sqrt(Variance(g)) / Mean(g) <= cfg.threshold
  }

  // ------------------------------------------------------------------- root-free form

  lemma RootAtMost(s: real, a: real)
    requires s >= 0.0 && a >= 0.0
    ensures s <= a <==> Square(s) <= Square(a)
  {
    if s <= a {
      assert Square(s) <= s * a <= Square(a);
    } else {
      assert Square(a) <= s * a < Square(s);
    }
  }

  lemma QuotientAtMost(a: real, m: real, t: real)
    requires m > 0.0
    ensures a / m <= t <==> a <= t * m
  {
    Divided(a, m);
    var q := a / m;
    if q <= t {
      assert (t - q) * m >= 0.0;
    } else {
      assert (q - t) * m > 0.0;
    }
  }

  lemma VarianceIsNotNegative(g: seq<real>)
    ensures Variance(g) >= 0.0
  {
    DeviationsAreNonNegative(g, Mean(g));
  }

  /** The test without its square root: the summed squared deviations are at most the number of
      gaps times the square of the threshold's share of the mean. */
  lemma RegularWithoutRoots(g: seq<real>, cfg: Config, sqrt: real -> real)
    requires TakesRoots(sqrt) && cfg.minIntervals >= 1 && cfg.threshold > 0.0 && g != [] && Mean(g) >= 5.0
    ensures RegularGaps(g, cfg, sqrt) <==> Deviations(g, Mean(g)) <= Times(|g|, Square(cfg.Share(Mean(g))))
  {
    VarianceIsNotNegative(g);
    RootOf(sqrt, Variance(g));
    hide Variance, Mean, Deviations, Square, Times, TakesRoots;
    var s, m := sqrt(Variance(g)), Mean(g);
    QuotientAtMost(s, m, cfg.threshold);
    assert cfg.Share(m) >= 0.0;
    RootAtMost(s, cfg.Share(m));
    VarianceAtMost(g, Square(cfg.Share(m)));
  }

  lemma RootOf(sqrt: real -> real, v: real)
    requires TakesRoots(sqrt) && v >= 0.0
    ensures sqrt(v) >= 0.0 && Square(sqrt(v)) == v
  {
  }

  lemma VarianceAtMost(g: seq<real>, x: real)
    requires g != []
    ensures Variance(g) <= x <==> Deviations(g, Mean(g)) <= Times(|g|, x)
  {
    hide Deviations, Mean;
    QuotientAtMost(Deviations(g, Mean(g)), |g| as real, x);
  }

  // ----------------------------------------------------------------------- completeness

  ghost predicate Within(g: seq<real>, low: real, high: real) {
    forall i :: 0 <= i < |g| ==> low <= g[i] <= high
  }

  lemma {:induction false} SumWithin(g: seq<real>, low: real, high: real)
    requires Within(g, low, high)
    ensures Times(|g|, low) <= Sum(g) <= Times(|g|, high)
  {
    if g != [] {
      SumWithin(g[..|g| - 1], low, high);
      TimesOneMore(|g| - 1, low);
      TimesOneMore(|g| - 1, high);
      hide Times;
    }
  }

  lemma TimesOneMore(n: nat, x: real)
    ensures Times(n + 1, x) == Times(n, x) + x
  {
  }

  lemma TimesAtMost(n: nat, x: real, y: real)
    requires n > 0
    ensures Times(n, x) <= Times(n, y) <==> x <= y
  {
    var k := n as real;
    if x <= y {
      assert k * (y - x) >= 0.0;
    } else {
      assert k * (x - y) > 0.0;
    }
  }

  lemma MeanWithin(g: seq<real>, low: real, high: real)
    requires g != [] && Within(g, low, high)
    ensures low <= Mean(g) <= high
  {
    SumWithin(g, low, high);
    MeanBalances(g);
    TimesAtMost(|g|, low, Mean(g));
    TimesAtMost(|g|, Mean(g), high);
  }

  lemma SquareWithin(x: real, r: real)
    requires -r <= x <= r
    ensures Square(x) <= Square(r)
  {
    var y := if x >= 0.0 then x else -x;
    assert Square(x) == Square(y);
    Scaled(y, y, r);
    Scaled(r, y, r);
  }

  lemma {:induction false} DeviationsWithin(g: seq<real>, c: real, r: real)
    requires Within(g, c - r, c + r)
    ensures Deviations(g, c) <= Times(|g|, Square(r))
  {
    if g != [] {
      DeviationsWithin(g[..|g| - 1], c, r);
      TimesOneMore(|g| - 1, Square(r));
      SquareWithin(g[|g| - 1] - c, r);
      hide Times, Square;
    }
  }

  /** A jitter `j` around a period stays under the threshold's share of the mean. */
  lemma JitterShare(p: real, j: real, m: real, t: real)
    requires 0.0 <= j < 1.0 && p * (1.0 - j) >= 5.0 && j / (1.0 - j) <= t && m >= p * (1.0 - j)
    ensures 0.0 <= p * j <= t * m
  {
    var low := p * (1.0 - j);
    assert p > 0.0;
    QuotientAtMost(j, 1.0 - j, t);
    assert p * j <= p * (t * (1.0 - j));
    assert p * (t * (1.0 - j)) == t * low;
    assert t >= 0.0 by { assert j / (1.0 - j) >= 0.0; }
    assert t * low <= t * m;
  }

  /** Completeness: enough gaps within a jitter `j` of a period `p` are always judged regular, when
      the shortest of them is at least five seconds and `j / (1 - j)` is within the threshold. */
  lemma JitterIsCaught(ts: seq<real>, cfg: Config, sqrt: real -> real, p: real, j: real)
    requires TakesRoots(sqrt) && cfg.minIntervals >= 1 && cfg.threshold > 0.0 && |ts| >= 3
        && |Kept(Gaps(ts))| >= cfg.minIntervals
    requires 0.0 <= j < 1.0 && p * (1.0 - j) >= 5.0 && j / (1.0 - j) <= cfg.threshold
    requires Within(Kept(Gaps(ts)), p * (1.0 - j), p * (1.0 + j))
    ensures Regular(ts, cfg, sqrt)
  {
    JitterBounds(p, j);
    JitterShare(p, j, p - p * j, cfg.threshold);
    hide TakesRoots, RegularGaps, Gaps, Kept;
    JitteredGaps(Kept(Gaps(ts)), cfg, sqrt, p, p * j);
  }

  lemma JitterBounds(p: real, j: real)
    ensures p * (1.0 - j) == p - p * j && p * (1.0 + j) == p + p * j
  {
  }

  /** The same for gaps at most `r` off the period. */
  lemma JitteredGaps(g: seq<real>, cfg: Config, sqrt: real -> real, p: real, r: real)
    requires TakesRoots(sqrt) && cfg.Valid() && g != [] && Within(g, p - r, p + r) && p - r >= 5.0 && r >= 0.0
    requires r <= cfg.threshold * (p - r)
    ensures RegularGaps(g, cfg, sqrt)
  {
    hide Mean, Deviations, Square, Times, TakesRoots, RegularGaps;
    MeanWithin(g, p - r, p + r);
    var share := cfg.Share(Mean(g));
    Scaled(cfg.threshold, p - r, Mean(g));
    DeviationsWithin(g, p, r);
    MeanIsLeast(g, p);
    SquareWithin(r, share);
    TimesAtMost(|g|, Square(r), Square(share));
    RegularWithoutRoots(g, cfg, sqrt);
  }

  // -------------------------------------------------------------------------- soundness

  lemma {:induction false} OneDeviation(g: seq<real>, c: real, i: nat)
    requires i < |g|
    ensures Square(g[i] - c) <= Deviations(g, c)
  {
    SquareIsNonNegative(g[|g| - 1] - c);
    DeviationsAreNonNegative(g[..|g| - 1], c);
    if i < |g| - 1 {
      OneDeviation(g[..|g| - 1], c, i);
    }
  }

  /** Soundness: of a flow judged regular, no gap that counts is further from the mean than the
      threshold's share of it times the root of their number. */
  lemma RegularGapsAreNear(ts: seq<real>, cfg: Config, sqrt: real -> real, i: nat)
    requires TakesRoots(sqrt) && cfg.Valid() && Regular(ts, cfg, sqrt) && i < |Kept(Gaps(ts))|
    ensures var g := Kept(Gaps(ts));
            Mean(g) >= 5.0 && Square(g[i] - Mean(g)) <= Times(|g|, Square(cfg.Share(Mean(g))))
  {
    hide Mean, Deviations, Square, Times, TakesRoots, Gaps, Kept;
    var g := Kept(Gaps(ts));
    assert RegularGaps(g, cfg, sqrt);
    NearTheMean(g, Mean(g), cfg, sqrt, i);
  }

  lemma NearTheMean(g: seq<real>, m: real, cfg: Config, sqrt: real -> real, i: nat)
    requires TakesRoots(sqrt) && cfg.Valid() && g != [] && m == Mean(g) >= 5.0 && RegularGaps(g, cfg, sqrt) && i < |g|
    ensures Square(g[i] - m) <= Times(|g|, Square(cfg.Share(m)))
  {
    hide Mean, Deviations, Square, Times, TakesRoots, RegularGaps, Config.Share;
    OneDeviation(g, m, i);
    RegularWithoutRoots(g, cfg, sqrt);
  }

  // --------------------------------------------------------------------- what can alert

  lemma {:induction false} KeptCount(g: seq<real>)
    ensures |Kept(g)| <= |g|
  {
    if g != [] {
      KeptCount(g[..|g| - 1]);
    }
  }

  lemma {:induction false} KeptAll(g: seq<real>)
    requires forall i :: 0 <= i < |g| ==> g[i] >= 1.0
    ensures Kept(g) == g
  {
    if g != [] {
      KeptAll(g[..|g| - 1]);
      assert g == g[..|g| - 1] + [g[|g| - 1]];
    }
  }

  /** A connection a minute. */
  function Steady(n: nat): seq<real> { seq(n, i => 60.0 * i as real) }

  lemma SteadyGaps(n: nat)
    requires n >= 2
    ensures |Gaps(Steady(n))| == n - 1 && Within(Gaps(Steady(n)), 60.0, 60.0)
    ensures Kept(Gaps(Steady(n))) == Gaps(Steady(n))
  {
    var g := Gaps(Steady(n));
    forall i | 0 <= i < |g| ensures g[i] == 60.0 {
      assert g[i] == 60.0 * (i + 1) as real - 60.0 * i as real;
    }
    hide Steady, Gaps;
    KeptAll(g);
  }

  /** What a flow's deque keeps: its newest 200 timestamps. */
  function Newest(ts: seq<real>): seq<real> {
    if |ts| <= MAX_TIMESTAMPS then ts else ts[|ts| - MAX_TIMESTAMPS..]
  }

  /** The deque holds 199 gaps at most: a larger `beacon_min_intervals`, which the configuration
      accepts, silences the detector for good, and any other leaves traffic it alerts on. */
  lemma CanAlertIff(cfg: Config, sqrt: real -> real)
    requires TakesRoots(sqrt) && cfg.minIntervals >= 1 && cfg.threshold > 0.0
    ensures (exists ts :: Regular(Newest(ts), cfg, sqrt)) <==> cfg.minIntervals < 200
  {
    if cfg.minIntervals < MAX_TIMESTAMPS {
      var ts := Steady(MAX_TIMESTAMPS);
      SteadyGaps(MAX_TIMESTAMPS);
      assert Newest(ts) == ts;
      JitterIsCaught(ts, cfg, sqrt, 60.0, 0.0);
    } else {
      forall ts ensures !Regular(Newest(ts), cfg, sqrt) {
        KeptCount(Gaps(Newest(ts)));
      }
    }
  }
}
