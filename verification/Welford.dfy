/** Running statistics (baseline/engine.py:44-87) over exact reals: Welford's update beside the
    two-pass definitions, and the snapshot a restart is rebuilt from. */
module Welford {

  // ----------------------------------------------------------- two-pass definitions

  function Sum(xs: seq<real>): real {
    if xs == [] then 0.0 else Sum(xs[..|xs| - 1]) + xs[|xs| - 1]
  }

  function Square(x: real): real { x * x }

  /** The squared deviations from `c`, summed. */
  function Deviations(xs: seq<real>, c: real): real {
    if xs == [] then 0.0 else Deviations(xs[..|xs| - 1], c) + Square(xs[|xs| - 1] - c)
  }

  function Mean(xs: seq<real>): real {
    if xs == [] then 0.0 else Sum(xs) / |xs| as real
  }

  lemma SquareIsNonNegative(x: real)
    ensures Square(x) >= 0.0
  {
  }

  lemma {:induction false} DeviationsAreNonNegative(xs: seq<real>, c: real)
    ensures Deviations(xs, c) >= 0.0
  {
    if xs != [] {
      DeviationsAreNonNegative(xs[..|xs| - 1], c);
      SquareIsNonNegative(xs[|xs| - 1] - c);
    }
  }

  function Twice(a: real, b: real): real { 2.0 * a * b }

  lemma SquareShift(x: real, c: real, d: real)
    ensures Square(x - d) == Square(x - c) + Twice(c - d, x - c) + Square(c - d)
  {
  }

  /** Twice `k` times `a`, plus `n` times `q`. */
  function Moved(k: real, a: real, n: nat, q: real): real { Twice(k, a) + Times(n, q) }

  lemma MovedAdds(k: real, a: real, b: real, n: nat, q: real)
    ensures Moved(k, a + b, n + 1, q) == Moved(k, a, n, q) + Twice(k, b) + q
  {
  }

  /** How the deviations about two points differ. */
  lemma {:induction false} DeviationsShift(xs: seq<real>, c: real, d: real)
    ensures Deviations(xs, d) == Deviations(xs, c) + Moved(c - d, Sum(xs) - Multiple(xs, c), |xs|, Square(c - d))
  {
    if xs != [] {
      var front, x := xs[..|xs| - 1], xs[|xs| - 1];
      DeviationsShift(front, c, d);
      SquareShift(x, c, d);
      MovedAdds(c - d, Sum(front) - Multiple(front, c), x - c, |front|, Square(c - d));
      OneMoreMultiple(xs, c);
      hide Square, Moved, Multiple, Twice;
      assert Sum(xs) - Multiple(xs, c) == Sum(front) - Multiple(front, c) + (x - c);
    }
  }

  /** `c` once for every sample. */
  function Multiple(xs: seq<real>, c: real): real { Times(|xs|, c) }

  function Times(n: nat, x: real): real { n as real * x }

  lemma OneMoreMultiple(xs: seq<real>, c: real)
    requires xs != []
    ensures Multiple(xs, c) == Multiple(xs[..|xs| - 1], c) + c
  {
  }

  lemma MeanBalances(xs: seq<real>)
    ensures Sum(xs) == Multiple(xs, Mean(xs))
  {
    if xs != [] {
      Divided(Sum(xs), |xs| as real);
    }
  }

  lemma Divided(a: real, n: real)
    requires n != 0.0
    ensures n * (a / n) == a
  {
  }

  /** The mean is the point with the least deviations. */
  lemma MeanIsLeast(xs: seq<real>, d: real)
    ensures Deviations(xs, d) == Deviations(xs, Mean(xs)) + Times(|xs|, Square(Mean(xs) - d))
    ensures Deviations(xs, Mean(xs)) <= Deviations(xs, d)
  {
    hide Square, Deviations, Mean, Multiple, Times;
    MeanBalances(xs);
    DeviationsShift(xs, Mean(xs), d);
    MovedNothing(Mean(xs) - d, |xs|, Square(Mean(xs) - d));
    SquareIsNonNegative(Mean(xs) - d);
    TimesIsNonNegative(|xs|, Square(Mean(xs) - d));
  }

  lemma MovedNothing(k: real, n: nat, q: real)
    ensures Moved(k, 0.0, n, q) == Times(n, q)
  {
  }

  lemma TimesIsNonNegative(n: nat, x: real)
    requires x >= 0.0
    ensures Times(n, x) >= 0.0
  {
  }

  // ------------------------------------------------------------------ one-pass update

  datatype Stats = Stats(n: nat, mean: real, m2: real) {
    function Variance(): real {
      if n >= 2 then m2 / n as real else 0.0
    }
  }

  const ZERO := Stats(0, 0.0, 0.0)

  function Update(s: Stats, x: real): Stats {
    var n := s.n + 1;
    var delta := x - s.mean;
    var mean := s.mean + delta / n as real;
    Stats(n, mean, s.m2 + delta * (x - mean))
  }

  /** The statistics after all the samples. */
  function Fold(xs: seq<real>): Stats {
    if xs == [] then ZERO else Update(Fold(xs[..|xs| - 1]), xs[|xs| - 1])
  }

  lemma UpdatedMean(s: Stats, x: real)
    ensures Times(s.n + 1, Update(s, x).mean) == Times(s.n, s.mean) + x
  {
    var k := (s.n + 1) as real;
    Divided(x - s.mean, k);
    assert k * (s.mean + (x - s.mean) / k) == k * s.mean + k * ((x - s.mean) / k);
  }

  function Product(a: real, b: real): real { a * b }

  lemma UpdatedM2(s: Stats, x: real)
    ensures Update(s, x).m2 == s.m2 + Product(x - s.mean, x - Update(s, x).mean)
  {
  }

  /** The identity behind the update of the squared deviations. */
  lemma UpdatedDeviations(n: nat, m: real, m1: real, x: real)
    requires Times(n + 1, m1) == Times(n, m) + x
    ensures Times(n, Square(m - m1)) + Square(x - m1) == Product(x - m, x - m1)
  {
    var k := n as real;
    assert k * (m - m1) == m1 - x;
    assert k * Square(m - m1) == (k * (m - m1)) * (m - m1);
    assert k * Square(m - m1) == (m1 - x) * (m - m1);
    assert (m1 - x) * (m - m1) + Square(x - m1) == (x - m1) * ((m1 - m) + (x - m1));
  }

  /** Welford's one pass computes the two-pass mean and deviations of everything seen. */
  lemma {:induction false} WelfordIsExact(xs: seq<real>)
    ensures Fold(xs).n == |xs|
    ensures Fold(xs).mean == Mean(xs)
    ensures Fold(xs).m2 == Deviations(xs, Mean(xs)) >= 0.0
  {
    if xs != [] {
      WelfordIsExact(xs[..|xs| - 1]);
      MeanFollows(xs);
      DeviationsFollow(xs);
    }
    DeviationsAreNonNegative(xs, Mean(xs));
  }

  /** The population variance, 0 for fewer than two samples. */
  lemma VarianceIsExact(xs: seq<real>)
    ensures Fold(xs).Variance() == if |xs| < 2 then 0.0 else Deviations(xs, Mean(xs)) / |xs| as real
  {
    WelfordIsExact(xs);
    hide Fold, Deviations, Mean;
  }

  lemma MeanFollows(xs: seq<real>)
    requires xs != [] && Fold(xs[..|xs| - 1]).n == |xs| - 1 && Fold(xs[..|xs| - 1]).mean == Mean(xs[..|xs| - 1])
    ensures Fold(xs).mean == Mean(xs) && Fold(xs).n == |xs|
    ensures Times(|xs|, Mean(xs)) == Times(|xs| - 1, Mean(xs[..|xs| - 1])) + xs[|xs| - 1]
  {
    var front, x := xs[..|xs| - 1], xs[|xs| - 1];
    UpdatedMean(Fold(front), x);
    assert Fold(xs) == Update(Fold(front), x) && Fold(xs).n == |xs|;
    MeanBalances(front);
    MeanBalances(xs);
    hide Update, Fold, Times, Mean;
    assert Times(|xs|, Fold(xs).mean) == Sum(xs) == Times(|xs|, Mean(xs));
    SameMultiple(|xs|, Fold(xs).mean, Mean(xs));
  }

  lemma SameMultiple(n: nat, a: real, b: real)
    requires n > 0 && Times(n, a) == Times(n, b)
    ensures a == b
  {
  }

  lemma DeviationsFollow(xs: seq<real>)
    requires xs != [] && Fold(xs).mean == Mean(xs)
    requires var front := xs[..|xs| - 1];
             Fold(front).mean == Mean(front) && Fold(front).m2 == Deviations(front, Mean(front))
    requires Times(|xs|, Mean(xs)) == Times(|xs| - 1, Mean(xs[..|xs| - 1])) + xs[|xs| - 1]
    ensures Fold(xs).m2 == Deviations(xs, Mean(xs))
  {
    var front, x := xs[..|xs| - 1], xs[|xs| - 1];
    assert Fold(xs) == Update(Fold(front), x);
    UpdatedM2(Fold(front), x);
    hide Update, Fold, Times, Mean, Square, Product;
    MeanIsLeast(front, Mean(xs));
    UpdatedDeviations(|front|, Mean(front), Mean(xs), x);
    assert Deviations(xs, Mean(xs)) == Deviations(front, Mean(xs)) + Square(x - Mean(xs));
  }

  // ------------------------------------------------------------------------ restarts

  /** `sqrt` takes square roots. */
  ghost predicate TakesRoots(sqrt: real -> real) {
    forall v :: v >= 0.0 ==> sqrt(v) >= 0.0 && Square(sqrt(v)) == v
  }

  /** What a database row holds. */
  datatype Snapshot = Snapshot(mean: real, stddev: real, samples: nat)

  function Saved(s: Stats, sqrt: real -> real): Snapshot {
    Snapshot(s.mean, sqrt(s.Variance()), s.n)
  }

  /** `from_snapshot`. */
  function Rehydrated(row: Snapshot): Stats {
    Stats(row.samples, row.mean, if row.samples >= 2 then Square(row.stddev) * row.samples as real else 0.0)
  }

  /** A restart changes nothing: the rebuilt statistics are the saved ones. */
  lemma RestartIsTransparent(xs: seq<real>, sqrt: real -> real)
    requires TakesRoots(sqrt)
    ensures Rehydrated(Saved(Fold(xs), sqrt)) == Fold(xs)
  {
    WelfordIsExact(xs);
    FewSamplesDoNotDeviate(xs);
    hide Fold, Deviations, Mean;
    SavedComesBack(Fold(xs), sqrt);
  }

  lemma FewSamplesDoNotDeviate(xs: seq<real>)
    ensures |xs| < 2 ==> Fold(xs).m2 == 0.0
  {
    if |xs| == 1 {
      assert xs[..0] == [];
      assert Fold(xs) == Update(ZERO, xs[0]);
    }
  }

  lemma SavedComesBack(s: Stats, sqrt: real -> real)
    requires TakesRoots(sqrt) && s.m2 >= 0.0 && (s.n < 2 ==> s.m2 == 0.0)
    ensures Rehydrated(Saved(s, sqrt)) == s
  {
    if s.n >= 2 {
      VarianceIsNonNegative(s);
      Divided(s.m2, s.n as real);
      assert Square(sqrt(s.Variance())) == s.Variance();
    }
  }

  lemma VarianceIsNonNegative(s: Stats)
    requires s.m2 >= 0.0
    ensures s.Variance() >= 0.0
  {
  }

  /** The statistics of a stream cut by restarts: each part continues from the snapshot saved
      at the end of the part before. */
  function FoldOn(s: Stats, xs: seq<real>): Stats {
    if xs == [] then s else Update(FoldOn(s, xs[..|xs| - 1]), xs[|xs| - 1])
  }

  function AcrossRestarts(parts: seq<seq<real>>, sqrt: real -> real): Stats {
    if parts == [] then ZERO
    else FoldOn(Rehydrated(Saved(AcrossRestarts(parts[..|parts| - 1], sqrt), sqrt)), parts[|parts| - 1])
  }

  function Flatten(parts: seq<seq<real>>): seq<real> {
    if parts == [] then [] else Flatten(parts[..|parts| - 1]) + parts[|parts| - 1]
  }

  lemma {:induction false} FoldContinues(xs: seq<real>, ys: seq<real>)
    ensures FoldOn(Fold(xs), ys) == Fold(xs + ys)
  {
    if ys == [] {
      assert xs + ys == xs;
    } else {
      FoldContinues(xs, ys[..|ys| - 1]);
      assert (xs + ys)[..|xs + ys| - 1] == xs + ys[..|ys| - 1];
    }
  }

  /** However a stream is cut by restarts, the statistics are those of the whole stream. */
  lemma {:induction false} CutsDoNotMatter(parts: seq<seq<real>>, sqrt: real -> real)
    requires TakesRoots(sqrt)
    ensures AcrossRestarts(parts, sqrt) == Fold(Flatten(parts))
  {
    if parts != [] {
      var front := parts[..|parts| - 1];
      CutsDoNotMatter(front, sqrt);
      RestartIsTransparent(Flatten(front), sqrt);
      FoldContinues(Flatten(front), parts[|parts| - 1]);
    }
  }

  // -------------------------------------------------------------------- the object

  class RunningStats {
    var n: nat
    var mean: real
    var m2: real

    function View(): Stats
      reads this
    {
      Stats(n, mean, m2)
    }

    constructor ()
      ensures View() == ZERO
    {
      n, mean, m2 := 0, 0.0, 0.0;
    }

    constructor FromSnapshot(row: Snapshot)
      ensures View() == Rehydrated(row)
    {
      n, mean, m2 := row.samples, row.mean, 0.0;
      if row.samples >= 2 {
        m2 := row.stddev * row.stddev * row.samples as real;
      }
    }

    method Add(value: real)
      modifies this
      ensures View() == Update(old(View()), value)
    {
      n := n + 1;
      var delta := value - mean;
      mean := mean + delta / n as real;
      var delta2 := value - mean;
      m2 := m2 + delta * delta2;
    }
  }
}
