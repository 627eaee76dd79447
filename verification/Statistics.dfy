/** Population mean, variance and z-score over the reals, and how far a score can stand out. */
module Statistics {
  function Square(x: real): (r: real)
    ensures r >= 0.0
  {
    x * x
  }

  function Sum(s: seq<real>): real { if s == [] then 0.0 else s[0] + Sum(s[1..]) }

  /** `sum((v - m) ** 2 for v in s)` */
  function SquaredDeviations(s: seq<real>, m: real): (r: real)
    ensures r >= 0.0
  {
    if s == [] then 0.0 else Square(s[0] - m) + SquaredDeviations(s[1..], m)
  }

  function Mean(s: seq<real>): real requires s != [] { Sum(s) / |s| as real }

  function Variance(s: seq<real>): real requires s != [] { SquaredDeviations(s, Mean(s)) / |s| as real }

  /** What `math.sqrt` guarantees about the standard deviation. */
  predicate IsDeviation(s: seq<real>, std: real) { s != [] && std >= 0.0 && Square(std) == Variance(s) }

  function Abs(x: real): real { if x < 0.0 then -x else x }

  function ZScore(s: seq<real>, std: real, v: real): real
    requires s != [] && std > 0.0
  {
    Abs(v - Mean(s)) / std
  }

  predicate Flagged(s: seq<real>, std: real, t: real, v: real)
    requires s != [] && std > 0.0
  {
    ZScore(s, std, v) >= t
  }

  // ---- arithmetic: the laws the proofs use, so that they need no other multiplication ----

  function Times(a: real, b: real): real { a * b }

  lemma Laws(a: real, b: real, c: real)
    ensures Times(a, b) == Times(b, a)
    ensures Times(a, Times(b, c)) == Times(Times(a, b), c)
    ensures Times(a + b, c) == Times(a, c) + Times(b, c)
    ensures Times(a - b, c) == Times(a, c) - Times(b, c)
    ensures Times(0.0, a) == 0.0 && Times(1.0, a) == a
  {
  }

  lemma Distribute(a: real, b: real, c: real)
    ensures Times(a, b + c) == Times(a, b) + Times(a, c)
    ensures Times(a, b - c) == Times(a, b) - Times(a, c)
    ensures Times(a, 0.0) == 0.0
  {
  }

  lemma Positive(a: real, b: real)
    requires a > 0.0 && b > 0.0
    ensures Times(a, b) > 0.0
  {
  }

  lemma TimesOrder(a: real, b: real, c: real)
    requires c > 0.0
    ensures Times(a, c) <= Times(b, c) <==> a <= b
  {
    hide Times;
    Laws(a, b, c);
    Laws(b, a, c);
    if a > b { Positive(a - b, c); } else if a < b { Positive(b - a, c); }
  }

  lemma SquareLaws(a: real, b: real)
    ensures Square(a) == Times(a, a)
    ensures Square(a + b) == Square(a) + 2.0 * Times(a, b) + Square(b)
    ensures Square(a - b) == Square(a) - 2.0 * Times(a, b) + Square(b)
    ensures Square(Times(a, b)) == Times(Square(a), Square(b))
    ensures Square(a) - Square(b) == Times(a - b, a + b)
    ensures Square(-a) == Square(a)
  {
  }

  lemma SquareIsZero(a: real)
    ensures Square(a) == 0.0 <==> a == 0.0
  {
    hide Times;
    SquareLaws(a, a);
    Laws(a, a, a);
    SquareLaws(-a, a);
    if a > 0.0 { Positive(a, a); } else if a < 0.0 { Positive(-a, -a); }
  }

  lemma SquareOrder(a: real, b: real)
    requires a >= 0.0 && b >= 0.0
    ensures Square(a) <= Square(b) <==> a <= b
  {
    hide Times, Square;
    SquareLaws(a, b);
    SquareLaws(b, a);
    if a > b { Positive(a - b, a + b); } else if a < b { Positive(b - a, a + b); }
  }

  lemma Quotient(a: real, n: real)
    requires n != 0.0
    ensures Times(a / n, n) == a
  {
  }

  // ---- how sums behave ----

  lemma {:induction false} SumConcat(a: seq<real>, b: seq<real>, m: real)
    ensures Sum(a + b) == Sum(a) + Sum(b)
    ensures SquaredDeviations(a + b, m) == SquaredDeviations(a, m) + SquaredDeviations(b, m)
  {
    hide Square;
    if a == [] {
      assert a + b == b;
    } else {
      assert (a + b)[1..] == a[1..] + b;
      SumConcat(a[1..], b, m);
    }
  }

  /** A loop that accumulates from the front computes the same sums. */
  lemma SumSnoc(s: seq<real>, i: nat, m: real)
    requires i < |s|
    ensures Sum(s[..i + 1]) == Sum(s[..i]) + s[i]
    ensures SquaredDeviations(s[..i + 1], m) == SquaredDeviations(s[..i], m) + Square(s[i] - m)
  {
    hide Square;
    assert s[..i + 1] == s[..i] + [s[i]];
    SumConcat(s[..i], [s[i]], m);
    assert [s[i]][1..] == [];
  }

  /** 2at <= ka^2 + q whenever t^2 <= kq. */
  lemma ArithmeticGeometric(a: real, t: real, q: real, k: real)
    requires k > 0.0 && Square(t) <= Times(k, q)
    ensures 2.0 * Times(a, t) <= Times(k, Square(a)) + q
  {
    hide Times, Square;
    var x := Times(k, a);
    SquareLaws(x, t);
    assert Times(Times(a, t), k) == Times(x, t) by { Laws(k, a, t); Laws(Times(a, t), k, t); }
    assert Times(Times(k, Square(a)), k) == Square(x) by {
      SquareLaws(k, a);
      Laws(k, k, Square(a));
      Laws(Times(k, Square(a)), k, a);
    }
    var y, z := Times(a, t), Times(k, Square(a));
    Laws(k, q, k);
    Laws(z, q, k);
    Laws(y, y, k);
    TimesOrder(y + y, z + q, k);
  }

  lemma CauchyStep(a: real, t: real, q: real, k: real)
    requires k >= 0.0 && q >= 0.0 && Square(t) <= Times(k, q)
    ensures Square(a + t) <= Times(k + 1.0, Square(a) + q)
  {
    hide Times, Square;
    SquareLaws(a, t);
    Laws(k, 1.0, Square(a) + q);
    Laws(Square(a) + q, a, a);
    Distribute(k, Square(a), q);
    if k == 0.0 {
      Laws(q, a, t);
      SquareIsZero(t);
      Laws(t, a, a);
      Laws(a, t, a);
    } else {
      ArithmeticGeometric(a, t, q, k);
    }
  }

  /** The sum of n deviations, squared, is at most n times the sum of their squares. */
  lemma {:induction false} Cauchy(s: seq<real>, m: real)
    ensures Square(Sum(s) - Times(|s| as real, m)) <= Times(|s| as real, SquaredDeviations(s, m))
  {
    hide Times, Square;
    var k := |s| as real - 1.0;
    Laws(k, 1.0, m);
    Laws(m, m, m);
    if s == [] {
      Laws(SquaredDeviations(s, m), m, m);
      SquareIsZero(0.0);
    } else {
      Cauchy(s[1..], m);
      CauchyStep(s[0] - m, Sum(s[1..]) - Times(k, m), SquaredDeviations(s[1..], m), k);
    }
  }

  lemma MeanTimes(s: seq<real>)
    requires s != []
    ensures Times(|s| as real, Mean(s)) == Sum(s)
    ensures Times(|s| as real, Variance(s)) == SquaredDeviations(s, Mean(s))
  {
    hide Times, Sum, SquaredDeviations;
    var n := |s| as real;
    Quotient(Sum(s), n);
    Laws(Mean(s), n, n);
    Quotient(SquaredDeviations(s, Mean(s)), n);
    Laws(Variance(s), n, n);
  }

  // ---- how far one score can stand out ----

  /** Taking one score out of the sums. */
  lemma WithoutOne(s: seq<real>, i: nat, m: real)
    requires i < |s|
    ensures Sum(s[..i] + s[i + 1..]) == Sum(s) - s[i]
    ensures SquaredDeviations(s[..i] + s[i + 1..], m) == SquaredDeviations(s, m) - Square(s[i] - m)
  {
    hide Square;
    assert s == s[..i + 1] + s[i + 1..];
    SumConcat(s[..i + 1], s[i + 1..], m);
    SumSnoc(s, i, m);
    hide Sum, SquaredDeviations;
    SumConcat(s[..i], s[i + 1..], m);
  }

  /** Samuelson's inequality. */
  lemma Samuelson(s: seq<real>, i: nat)
    requires i < |s|
    ensures Square(s[i] - Mean(s)) <= Times((|s| - 1) as real, Variance(s))
  {
    hide Times, Square, Mean, Variance, Sum, SquaredDeviations;
    var m, n, v := Mean(s), |s| as real, Variance(s);
    var k := (|s| - 1) as real;
    var rest := s[..i] + s[i + 1..];
    var total, d := SquaredDeviations(s, m), Square(s[i] - m);
    WithoutOne(s, i, m);
    MeanTimes(s);
    Cauchy(rest, m);
    Laws(k, 1.0, m);
    Laws(m, n, n);
    assert Sum(rest) - Times(k, m) == -(s[i] - m);
    SquareLaws(s[i] - m, m);
    Spread(d, k, total, v);
  }

  lemma Spread(d: real, k: real, total: real, v: real)
    requires k + 1.0 > 0.0 && d <= Times(k, total - d) && Times(k + 1.0, v) == total
    ensures d <= Times(k, v)
  {
    hide Times;
    Laws(total, d, k);
    Laws(k, total - d, k);
    Laws(d, k + 1.0, k);
    Laws(k, 1.0, d);
    Laws(k, k + 1.0, v);
    Laws(Times(k, v), k + 1.0, v);
    Laws(k, total, d);
    Laws(k, d, v);
    Laws(k + 1.0, k, v);
    Laws(k + 1.0, d, v);
    TimesOrder(d, Times(k, v), k + 1.0);
  }

  /** Comparing the z-score with a positive threshold is comparing squares. */
  lemma FlaggedBySquares(s: seq<real>, std: real, t: real, v: real)
    requires IsDeviation(s, std) && std > 0.0 && t > 0.0
    ensures Flagged(s, std, t, v) <==> Square(v - Mean(s)) >= Times(Square(t), Variance(s))
  {
    hide Times, Square, Mean, Variance;
    var d := v - Mean(s);
    SquareLaws(d, d);
    SquareLaws(t, std);
    Positive(t, std);
    Quotient(Abs(d), std);
    TimesOrder(t, Abs(d) / std, std);
    SquareOrder(Times(t, std), Abs(d));
  }

  lemma VariancePositive(s: seq<real>, std: real)
    requires IsDeviation(s, std) && std > 0.0
    ensures Variance(s) > 0.0
  {
    hide Square, Variance;
    SquareIsZero(std);
  }

  /** Among n scores nothing can be flagged at a threshold above sqrt(n - 1). */
  lemma FlaggedBound(s: seq<real>, std: real, t: real, i: nat)
    requires IsDeviation(s, std) && std > 0.0 && t > 0.0 && i < |s| && Flagged(s, std, t, s[i])
    ensures Square(t) <= (|s| - 1) as real
  {
    hide Times, Square, Mean, Variance;
    FlaggedBySquares(s, std, t, s[i]);
    Samuelson(s, i);
    VariancePositive(s, std);
    TimesOrder(Square(t), (|s| - 1) as real, Variance(s));
  }

  /** At the default threshold fewer than five scores flag nothing. */
  lemma FourScoresFlagNothing(s: seq<real>, std: real, i: nat)
    requires IsDeviation(s, std) && std > 0.0 && i < |s| < 5
    ensures !Flagged(s, std, 2.0, s[i])
  {
    hide IsDeviation, Flagged;
    if Flagged(s, std, 2.0, s[i]) { FlaggedBound(s, std, 2.0, i); }
  }

  function Zeros(n: nat): seq<real> { if n == 0 then [] else [0.0] + Zeros(n - 1) }

  /** One score of 1 among n - 1 scores of 0. */
  function Spike(n: nat): seq<real> requires n > 0 { [1.0] + Zeros(n - 1) }

  lemma {:induction false} ZeroSums(n: nat, m: real)
    ensures |Zeros(n)| == n && Sum(Zeros(n)) == 0.0
    ensures SquaredDeviations(Zeros(n), m) == Times(n as real, Square(m))
  {
    hide Times, Square;
    SquareLaws(m, m);
    Laws(Square(m), m, m);
    if n > 0 {
      ZeroSums(n - 1, m);
      assert Zeros(n)[1..] == Zeros(n - 1);
      Laws((n - 1) as real, 1.0, Square(m));
    }
  }

  lemma SpikeVariance(n: nat)
    requires n >= 2
    ensures |Spike(n)| == n && Spike(n)[0] == 1.0 && Variance(Spike(n)) > 0.0
    ensures Square(1.0 - Mean(Spike(n))) == Times((n - 1) as real, Variance(Spike(n)))
  {
    hide Times, Square, Mean, Variance;
    var s, k := Spike(n), (n - 1) as real;
    assert s[1..] == Zeros(n - 1);
    var m := Mean(s);
    ZeroSums(n - 1, m);
    MeanTimes(s);
    SpikeArithmetic(k, m, Variance(s));
  }

  lemma SpikeArithmetic(k: real, m: real, v: real)
    requires k >= 1.0 && Times(k + 1.0, m) == 1.0
    requires Times(k + 1.0, v) == Square(1.0 - m) + Times(k, Square(m))
    ensures v > 0.0 && Square(1.0 - m) == Times(k, v)
  {
    hide Times, Square;
    Laws(k, 1.0, m);
    Laws(m, m, m);
    assert 1.0 - m == Times(k, m);
    SquareLaws(k, m);
    var w := Times(k, Square(m));
    Laws(k, k, Square(m));
    Laws(k, 1.0, w);
    Laws(w, w, w);
    assert Times(k + 1.0, v) == Times(k + 1.0, w);
    Laws(v, k + 1.0, w);
    Laws(w, k + 1.0, w);
    TimesOrder(v, w, k + 1.0);
    TimesOrder(w, v, k + 1.0);
    SquareIsZero(m);
    Laws(k + 1.0, 0.0, m);
    Laws(0.0, k + 1.0, m);
    Laws(k + 1.0, 1.0, m);
    Positive(k, Square(m));
  }

  /** The bound is sharp: one outlier among equals is flagged exactly when the threshold allows it. */
  lemma BoundIsSharp(n: nat, t: real, std: real)
    requires n >= 2 && t > 0.0 && IsDeviation(Spike(n), std) && std > 0.0
    ensures Flagged(Spike(n), std, t, 1.0) <==> Square(t) <= (n - 1) as real
  {
    hide Times, Square, Mean, Variance, Flagged, Spike;
    SpikeVariance(n);
    FlaggedBySquares(Spike(n), std, t, 1.0);
    TimesOrder(Square(t), (n - 1) as real, Variance(Spike(n)));
  }

  // ---- how many scores can stand out ----

  /** How many of `part` are flagged against the statistics of `s`. */
  function FlagCount(part: seq<real>, s: seq<real>, std: real, t: real): nat
    requires s != [] && std > 0.0
  {
    if part == [] then 0 else (if Flagged(s, std, t, part[0]) then 1 else 0) + FlagCount(part[1..], s, std, t)
  }

  lemma {:induction false} FlagsCost(part: seq<real>, s: seq<real>, std: real, t: real)
    requires IsDeviation(s, std) && std > 0.0 && t > 0.0
    ensures Times(FlagCount(part, s, std, t) as real, Times(Square(t), Variance(s)))
         <= SquaredDeviations(part, Mean(s))
  {
    hide Times, Square, Variance, Flagged, Mean;
    var c := Times(Square(t), Variance(s));
    Laws(c, c, c);
    if part != [] {
      FlagsCost(part[1..], s, std, t);
      FlaggedBySquares(s, std, t, part[0]);
      Laws(FlagCount(part[1..], s, std, t) as real, 1.0, c);
    }
  }

  /** Chebyshev: at threshold t at most one score in t squared is flagged, so a quarter at the default. */
  lemma Chebyshev(s: seq<real>, std: real, t: real)
    requires IsDeviation(s, std) && std > 0.0 && t > 0.0
    ensures Times(FlagCount(s, s, std, t) as real, Square(t)) <= |s| as real
  {
    hide Times, Square, Mean, Variance, FlagCount, SquaredDeviations;
    FlagsCost(s, s, std, t);
    VariancePositive(s, std);
    MeanTimes(s);
    var k, v := FlagCount(s, s, std, t) as real, Variance(s);
    Laws(k, Square(t), v);
    TimesOrder(Times(k, Square(t)), |s| as real, v);
  }

  // ---- what the flags do not depend on ----

  function Affine(s: seq<real>, a: real, b: real): (r: seq<real>)
    ensures |r| == |s|
  {
    if s == [] then [] else [Times(a, s[0]) + b] + Affine(s[1..], a, b)
  }

  lemma {:induction false} AffineSum(s: seq<real>, a: real, b: real)
    ensures Sum(Affine(s, a, b)) == Times(a, Sum(s)) + Times(|s| as real, b)
  {
    hide Times;
    Laws(a, b, 0.0);
    Laws(b, a, 0.0);
    Laws(a, 0.0, b);
    if s != [] {
      AffineSum(s[1..], a, b);
      assert Affine(s, a, b)[1..] == Affine(s[1..], a, b);
      Distribute(a, s[0], Sum(s[1..]));
      Laws(|s[1..]| as real, 1.0, b);
    }
  }

  lemma {:induction false} AffineSquares(s: seq<real>, a: real, b: real, m: real)
    ensures SquaredDeviations(Affine(s, a, b), Times(a, m) + b) == Times(Square(a), SquaredDeviations(s, m))
  {
    hide Square, Times;
    Distribute(Square(a), 0.0, 0.0);
    if s != [] {
      AffineSquares(s[1..], a, b, m);
      assert Affine(s, a, b)[1..] == Affine(s[1..], a, b);
      Distribute(a, s[0], m);
      SquareLaws(a, s[0] - m);
      Distribute(Square(a), Square(s[0] - m), SquaredDeviations(s[1..], m));
    }
  }

  lemma AffineMoments(s: seq<real>, a: real, b: real)
    requires s != []
    ensures Mean(Affine(s, a, b)) == Times(a, Mean(s)) + b
    ensures Variance(Affine(s, a, b)) == Times(Square(a), Variance(s))
  {
    hide Times, Square, Mean, Variance, Affine;
    var r, n := Affine(s, a, b), |s| as real;
    MeanTimes(s);
    MeanTimes(r);
    AffineSum(s, a, b);
    assert Mean(r) == Times(a, Mean(s)) + b by {
      Swap(n, a, Mean(s));
      Distribute(n, Times(a, Mean(s)), b);
      Cancel(n, Mean(r), Times(a, Mean(s)) + b);
    }
    AffineSquares(s, a, b, Mean(s));
    Swap(n, Square(a), Variance(s));
    Cancel(n, Variance(r), Times(Square(a), Variance(s)));
  }

  lemma Swap(a: real, b: real, c: real)
    ensures Times(a, Times(b, c)) == Times(b, Times(a, c))
  {
  }

  lemma Cancel(n: real, a: real, b: real)
    requires n > 0.0 && Times(n, a) == Times(n, b)
    ensures a == b
  {
    hide Times;
    Laws(n, a, a);
    Laws(n, b, b);
    TimesOrder(a, b, n);
    TimesOrder(b, a, n);
  }

  /** Rescaling, shifting or mirroring all scores flags the same ones. */
  lemma FlagsAreScaleFree(s: seq<real>, std: real, t: real, a: real, b: real, v: real)
    requires IsDeviation(s, std) && std > 0.0 && a != 0.0
    ensures Times(Abs(a), std) > 0.0 && IsDeviation(Affine(s, a, b), Times(Abs(a), std))
    ensures Flagged(Affine(s, a, b), Times(Abs(a), std), t, Times(a, v) + b) <==> Flagged(s, std, t, v)
  {
    hide Times, Square, Mean, Variance, Affine;
    AffineMoments(s, a, b);
    SquareLaws(a, a);
    SquareLaws(Abs(a), std);
    Positive(Abs(a), std);
    Distribute(a, v, Mean(s));
    Scale(a, v - Mean(s), std);
  }

  lemma Scale(a: real, d: real, std: real)
    requires a != 0.0 && std > 0.0 && Times(Abs(a), std) > 0.0
    ensures Abs(Times(a, d)) / Times(Abs(a), std) == Abs(d) / std
  {
    var x, y := Abs(d) / std, Abs(Times(a, d)) / Times(Abs(a), std);
    AbsTimes(a, d);
    hide Times, Abs;
    var q := Times(Abs(a), std);
    Quotient(Abs(d), std);
    Quotient(Abs(Times(a, d)), q);
    Swap(x, Abs(a), std);
    Laws(x, q, q);
    Laws(y, q, q);
    Cancel(q, x, y);
  }

  lemma AbsTimes(a: real, d: real)
    ensures Abs(Times(a, d)) == Times(Abs(a), Abs(d))
  {
    if a > 0.0 && d > 0.0 { Positive(a, d); }
    if a > 0.0 && d < 0.0 { Positive(a, -d); }
    if a < 0.0 && d > 0.0 { Positive(-a, d); }
    if a < 0.0 && d < 0.0 { Positive(-a, -d); }
  }
}
