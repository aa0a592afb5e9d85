/**
  Capacity forecasting: the least-squares line through a cell's usage samples, over
  the reals.
 */
module Forecasting {

  /** A usage sample: when it was taken, in seconds, and its post-dedup byte count. */
  datatype UsageSample = UsageSample(at: real, bytes: nat)

  // ---------------------------------------------------------------- real arithmetic

  function Sq(d: real): real { d * d }

  lemma Positive(a: real, b: real, c: real)
    requires a > 0.0 && b > 0.0 && c == a * b
    ensures c > 0.0
  {}

  lemma Negative(a: real, b: real, c: real)
    requires a < 0.0 && b < 0.0 && c == a * b
    ensures c > 0.0
  {}

  lemma Square(d: real)
    ensures Sq(d) >= 0.0 && (Sq(d) == 0.0 ==> d == 0.0)
  {
    if d > 0.0 {
      Positive(d, d, Sq(d));
    } else if d < 0.0 {
      Negative(d, d, Sq(d));
    }
  }

  lemma Linear(k: real, s: real, t: real)
    ensures k * (s + t) == k * s + k * t
  {}

  lemma Cancel(n: real, p: real, q: real)
    requires n > 0.0 && n * p == n * q
    ensures p == q
  {
    if p > q {
      Positive(n, p - q, n * (p - q));
    } else if p < q {
      Positive(n, q - p, n * (q - p));
    }
  }

  lemma Quotient(p: real, q: real)
    requires q != 0.0
    ensures p / q * q == p
  {}

  // ---------------------------------------------------------------- sums

  /** The sample count and the five sums over (x, y), x relative to a base instant. */
  datatype Sums = Sums(n: real, x: real, y: real, xx: real, xy: real, yy: real)

  const NoSums := Sums(0.0, 0.0, 0.0, 0.0, 0.0, 0.0)

  function Add(s: Sums, x: real, y: real): Sums {
    Sums(s.n + 1.0, s.x + x, s.y + y, s.xx + x * x, s.xy + x * y, s.yy + y * y)
  }

  function X(u: UsageSample, t0: real): real { u.at - t0 }

  function Y(u: UsageSample): real { u.bytes as real }

  function SumsOf(ss: seq<UsageSample>, t0: real): Sums {
    if ss == [] then NoSums else Add(SumsOf(ss[..|ss| - 1], t0), X(ss[|ss| - 1], t0), Y(ss[|ss| - 1]))
  }

  lemma {:induction false} Counts(ss: seq<UsageSample>, t0: real)
    ensures SumsOf(ss, t0).n == |ss| as real
  {
    if ss != [] { Counts(ss[..|ss| - 1], t0); }
  }

  /** A quantity summed over the samples. */
  function SumBy(ss: seq<UsageSample>, f: UsageSample -> real): real {
    if ss == [] then 0.0 else SumBy(ss[..|ss| - 1], f) + f(ss[|ss| - 1])
  }

  /** F computes from the sums what f adds up sample by sample. */
  ghost predicate Computes(t0: real, f: UsageSample -> real, F: Sums -> real) {
    F(NoSums) == 0.0 && forall s: Sums, u: UsageSample :: F(Add(s, X(u, t0), Y(u))) == F(s) + f(u)
  }

  lemma {:induction false} SumByFormula(ss: seq<UsageSample>, t0: real, f: UsageSample -> real, F: Sums -> real)
    requires Computes(t0, f, F)
    ensures SumBy(ss, f) == F(SumsOf(ss, t0))
  {
    if ss != [] { SumByFormula(ss[..|ss| - 1], t0, f, F); }
  }

  lemma {:induction false} SumBySign(ss: seq<UsageSample>, f: UsageSample -> real)
    requires forall u :: f(u) >= 0.0
    ensures SumBy(ss, f) >= 0.0
    ensures SumBy(ss, f) == 0.0 <==> forall i :: 0 <= i < |ss| ==> f(ss[i]) == 0.0
  {
    if ss != [] {
      var n := |ss| - 1;
      SumBySign(ss[..n], f);
      if SumBy(ss, f) == 0.0 {
        forall i | 0 <= i < |ss|
          ensures f(ss[i]) == 0.0
        {
          if i < n { assert f(ss[..n][i]) == 0.0; }
        }
      }
    }
  }

  // ---------------------------------------------------------------- the denominator

  function Denominator(s: Sums): real { s.n * s.xx - s.x * s.x }

  /** Squared distance from x. */
  function Distance(t0: real, x: real): UsageSample -> real { (u: UsageSample) => Sq(x - X(u, t0)) }

  function SpreadOf(s: Sums, x: real): real { s.n * (x * x) - 2.0 * (x * s.x) + s.xx }

  lemma SpreadStep(s: Sums, x: real, px: real, py: real)
    ensures SpreadOf(Add(s, px, py), x) == SpreadOf(s, x) + Sq(x - px)
  {
    Linear(x * x, s.n, 1.0);
    Linear(x, s.x, px);
    assert Sq(x - px) == x * x - 2.0 * (x * px) + px * px;
  }

  lemma SpreadFormula(ss: seq<UsageSample>, t0: real, x: real)
    ensures SumBy(ss, Distance(t0, x)) == SpreadOf(SumsOf(ss, t0), x)
  {
    var F := (s: Sums) => SpreadOf(s, x);
    forall s: Sums, u: UsageSample
      ensures F(Add(s, X(u, t0), Y(u))) == F(s) + Distance(t0, x)(u)
    {
      SpreadStep(s, x, X(u, t0), Y(u));
    }
    SumByFormula(ss, t0, Distance(t0, x), F);
  }

  lemma SpreadSign(ss: seq<UsageSample>, t0: real, x: real)
    ensures SumBy(ss, Distance(t0, x)) >= 0.0
    ensures SumBy(ss, Distance(t0, x)) == 0.0 <==> forall i :: 0 <= i < |ss| ==> X(ss[i], t0) == x
  {
    forall u: UsageSample
      ensures Distance(t0, x)(u) >= 0.0 && (Distance(t0, x)(u) == 0.0 ==> X(u, t0) == x)
    {
      Square(x - X(u, t0));
    }
    SumBySign(ss, Distance(t0, x));
    if forall i :: 0 <= i < |ss| ==> X(ss[i], t0) == x {
      forall i | 0 <= i < |ss|
        ensures Distance(t0, x)(ss[i]) == 0.0
      {
        assert X(ss[i], t0) == x;
      }
    }
    if SumBy(ss, Distance(t0, x)) == 0.0 {
      forall i | 0 <= i < |ss|
        ensures X(ss[i], t0) == x
      {
        assert Distance(t0, x)(ss[i]) == 0.0;
      }
    }
  }

  /** One more sample adds its squared distances from the others. */
  lemma DenominatorStep(s: Sums, x: real, y: real)
    ensures Denominator(Add(s, x, y)) == Denominator(s) + SpreadOf(s, x)
  {
    assert (s.n + 1.0) * (s.xx + x * x) == s.n * s.xx + s.n * (x * x) + s.xx + x * x;
    assert (s.x + x) * (s.x + x) == s.x * s.x + 2.0 * (x * s.x) + x * x;
  }

  predicate SameInstant(ss: seq<UsageSample>) { forall i, j :: 0 <= i < j < |ss| ==> ss[i].at == ss[j].at }

  lemma SameInstantStep(ss: seq<UsageSample>, t0: real)
    requires ss != []
    ensures var n := |ss| - 1;
            SameInstant(ss) <==> SameInstant(ss[..n]) && forall i :: 0 <= i < n ==> X(ss[..n][i], t0) == X(ss[n], t0)
  {
    var n := |ss| - 1;
    if SameInstant(ss) {
      forall i | 0 <= i < n
        ensures X(ss[..n][i], t0) == X(ss[n], t0)
      {
        assert ss[i].at == ss[n].at;
      }
    }
    if SameInstant(ss[..n]) && forall i :: 0 <= i < n ==> X(ss[..n][i], t0) == X(ss[n], t0) {
      forall i, j | 0 <= i < j < |ss|
        ensures ss[i].at == ss[j].at
      {
        assert X(ss[..n][i], t0) == X(ss[n], t0);
        if j < n { assert ss[..n][i].at == ss[..n][j].at; }
      }
    }
  }

  /** The denominator is never negative, and zero exactly when all samples were taken at one instant. */
  lemma {:induction false} DenominatorSign(ss: seq<UsageSample>, t0: real)
    ensures Denominator(SumsOf(ss, t0)) >= 0.0
    ensures Denominator(SumsOf(ss, t0)) == 0.0 <==> SameInstant(ss)
  {
    if ss != [] {
      var n := |ss| - 1;
      DenominatorSign(ss[..n], t0);
      DenominatorStep(SumsOf(ss[..n], t0), X(ss[n], t0), Y(ss[n]));
      SpreadFormula(ss[..n], t0, X(ss[n], t0));
      SpreadSign(ss[..n], t0, X(ss[n], t0));
      SameInstantStep(ss, t0);
    }
  }

  // ---------------------------------------------------------------- least squares

  function Line(a: real, b: real, x: real): real { a * x + b }

  /** Squared residual of the line y = a x + b. */
  function Residual(t0: real, a: real, b: real): UsageSample -> real {
    (u: UsageSample) => Sq(Y(u) - Line(a, b, X(u, t0)))
  }

  /** Squared height of that line. */
  function Height(t0: real, a: real, b: real): UsageSample -> real { (u: UsageSample) => Sq(Line(a, b, X(u, t0))) }

  function HeightsOf(s: Sums, a: real, b: real): real {
    a * a * s.xx + 2.0 * (a * b * s.x) + s.n * (b * b)
  }

  function ResidualsOf(s: Sums, a: real, b: real): real {
    s.yy - 2.0 * (a * s.xy) - 2.0 * (b * s.y) + HeightsOf(s, a, b)
  }

  lemma HeightsStep(s: Sums, x: real, y: real, a: real, b: real)
    ensures HeightsOf(Add(s, x, y), a, b) == HeightsOf(s, a, b) + Sq(Line(a, b, x))
  {
    Linear(a * a, s.xx, x * x);
    Linear(a * b, s.x, x);
    Linear(b * b, s.n, 1.0);
    assert Sq(Line(a, b, x)) == a * a * (x * x) + 2.0 * (a * b * x) + b * b;
  }

  lemma ResidualsStep(s: Sums, x: real, y: real, a: real, b: real)
    ensures ResidualsOf(Add(s, x, y), a, b) == ResidualsOf(s, a, b) + Sq(y - Line(a, b, x))
  {
    Linear(a, s.xy, x * y);
    Linear(b, s.y, y);
    HeightsStep(s, x, y, a, b);
    var h := Line(a, b, x);
    assert Sq(y - h) == y * y - 2.0 * (y * h) + Sq(h);
    assert y * h == a * (x * y) + b * y;
  }

  lemma ResidualsFormula(ss: seq<UsageSample>, t0: real, a: real, b: real)
    ensures SumBy(ss, Residual(t0, a, b)) == ResidualsOf(SumsOf(ss, t0), a, b)
  {
    var F := (s: Sums) => ResidualsOf(s, a, b);
    forall s: Sums, u: UsageSample
      ensures F(Add(s, X(u, t0), Y(u))) == F(s) + Residual(t0, a, b)(u)
    {
      ResidualsStep(s, X(u, t0), Y(u), a, b);
    }
    SumByFormula(ss, t0, Residual(t0, a, b), F);
  }

  lemma HeightSign(u: UsageSample, t0: real, a: real, b: real)
    ensures Height(t0, a, b)(u) >= 0.0
  {
    Square(Line(a, b, X(u, t0)));
  }

  lemma HeightsSign(ss: seq<UsageSample>, t0: real, a: real, b: real)
    ensures HeightsOf(SumsOf(ss, t0), a, b) >= 0.0
  {
    var F := (s: Sums) => HeightsOf(s, a, b);
    forall s: Sums, u: UsageSample
      ensures F(Add(s, X(u, t0), Y(u))) == F(s) + Height(t0, a, b)(u)
    {
      HeightsStep(s, X(u, t0), Y(u), a, b);
    }
    SumByFormula(ss, t0, Height(t0, a, b), F);
    forall u: UsageSample
      ensures Height(t0, a, b)(u) >= 0.0
    {
      HeightSign(u, t0, a, b);
    }
    SumBySign(ss, Height(t0, a, b));
  }

  /** The normal equations of the least-squares line. */
  ghost predicate Normal(s: Sums, a: real, b: real) {
    a * s.xx + b * s.x == s.xy && a * s.x + s.n * b == s.y
  }

  /** Moving away from a line that meets the normal equations costs exactly the move's own squares. */
  lemma MovingAway(s: Sums, a: real, b: real, da: real, db: real)
    requires Normal(s, a, b)
    ensures ResidualsOf(s, a + da, b + db) == ResidualsOf(s, a, b) + HeightsOf(s, da, db)
  {
    assert (a + da) * (a + da) * s.xx == a * a * s.xx + 2.0 * (da * (a * s.xx)) + da * da * s.xx;
    assert (a + da) * (b + db) * s.x == a * b * s.x + da * (b * s.x) + db * (a * s.x) + da * db * s.x;
    assert s.n * ((b + db) * (b + db)) == s.n * (b * b) + 2.0 * (db * (s.n * b)) + s.n * (db * db);
    assert (a + da) * s.xy == a * s.xy + da * s.xy && (b + db) * s.y == b * s.y + db * s.y;
    assert da * s.xy == da * (a * s.xx) + da * (b * s.x);
    assert db * s.y == db * (a * s.x) + db * (s.n * b);
  }

  function SlopeOf(s: Sums): real
    requires Denominator(s) != 0.0
  {
    (s.n * s.xy - s.x * s.y) / Denominator(s)
  }

  function InterceptOf(s: Sums): real
    requires Denominator(s) != 0.0 && s.n > 0.0
  {
    (s.y - SlopeOf(s) * s.x) / s.n
  }

  lemma NormalAlgebra(s: Sums, d: real, a: real, b: real)
    requires s.n > 0.0 && d == s.n * s.xx - s.x * s.x
    requires a * d == s.n * s.xy - s.x * s.y && b * s.n == s.y - a * s.x
    ensures Normal(s, a, b)
  {
    assert a * (s.n * s.xx) - a * (s.x * s.x) == s.n * s.xy - s.x * s.y;
    assert b * s.n * s.x == s.y * s.x - a * (s.x * s.x);
    assert s.n * (a * s.xx + b * s.x) == s.n * s.xy;
    Cancel(s.n, a * s.xx + b * s.x, s.xy);
  }

  lemma MeetsNormal(s: Sums)
    requires Denominator(s) != 0.0 && s.n > 0.0
    ensures Normal(s, SlopeOf(s), InterceptOf(s))
  {
    Quotient(s.n * s.xy - s.x * s.y, Denominator(s));
    Quotient(s.y - SlopeOf(s) * s.x, s.n);
    NormalAlgebra(s, Denominator(s), SlopeOf(s), InterceptOf(s));
  }

  /** The slope and intercept returned minimise the sum of squared residuals over all lines. */
  lemma LeastSquares(ss: seq<UsageSample>, t0: real, a: real, b: real)
    requires !SameInstant(ss)
    ensures var s := SumsOf(ss, t0);
            && s.n > 0.0 && Denominator(s) != 0.0
            && SumBy(ss, Residual(t0, SlopeOf(s), InterceptOf(s))) <= SumBy(ss, Residual(t0, a, b))
  {
    DenominatorSign(ss, t0);
    Counts(ss, t0);
    var s := SumsOf(ss, t0);
    var k, c := SlopeOf(s), InterceptOf(s);
    MeetsNormal(s);
    ResidualsFormula(ss, t0, k, c);
    ResidualsFormula(ss, t0, a, b);
    MovesTo(s, k, c, a, b);
    HeightsSign(ss, t0, a - k, b - c);
  }

  lemma MovesTo(s: Sums, k: real, c: real, a: real, b: real)
    requires Normal(s, k, c)
    ensures ResidualsOf(s, a, b) == ResidualsOf(s, k, c) + HeightsOf(s, a - k, b - c)
  {
    MovingAway(s, k, c, a - k, b - c);
    assert k + (a - k) == a && c + (b - c) == b;
  }

  // ---------------------------------------------------------------- the function

  /** The fitted line's value, floored at zero and truncated. */
  function Predicted(s: Sums, x: real): nat
    requires Denominator(s) != 0.0 && s.n > 0.0
  {
    var line := SlopeOf(s) * x + InterceptOf(s);
    if line < 0.0 then 0 else line.Floor
  }

  /** The prediction is the largest whole number on or below the line, or zero where the line is negative. */
  lemma PredictedIs(s: Sums, x: real)
    requires Denominator(s) != 0.0 && s.n > 0.0
    ensures var line, p := SlopeOf(s) * x + InterceptOf(s), Predicted(s, x) as real;
            if line >= 0.0 then p <= line < p + 1.0 else p == 0.0
  {}

  /** The loop over the samples; sumYY, which the fit does not use, is carried for the residuals. */
  method AddUp(samples: seq<UsageSample>, t0: real) returns (s: Sums)
    ensures s == SumsOf(samples, t0)
  {
    var n, sumX, sumY, sumXX, sumXY, sumYY := 0.0, 0.0, 0.0, 0.0, 0.0, 0.0;
    for i := 0 to |samples|
      invariant Sums(n, sumX, sumY, sumXX, sumXY, sumYY) == SumsOf(samples[..i], t0)
    {
      assert samples[..i + 1][..i] == samples[..i];
      var x, y := samples[i].at - t0, samples[i].bytes as real;
      n, sumX, sumY, sumXX, sumXY, sumYY := n + 1.0, sumX + x, sumY + y, sumXX + x * x, sumXY + x * y, sumYY + y * y;
    }
    assert samples[..|samples|] == samples;
    s := Sums(n, sumX, sumY, sumXX, sumXY, sumYY);
  }

  /** LinearGrowth: predicted bytes at an instant, and the slope. */
  method LinearGrowth(samples: seq<UsageSample>, at: real) returns (predicted: nat, slope: real)
    ensures |samples| == 0 ==> predicted == 0 && slope == 0.0
    ensures |samples| > 0 && SameInstant(samples) ==> predicted == samples[|samples| - 1].bytes && slope == 0.0
    ensures !SameInstant(samples) ==>
      var s := SumsOf(samples, samples[0].at);
      && s.n > 0.0 && Denominator(s) != 0.0 && slope == SlopeOf(s)
      && predicted == Predicted(s, at - samples[0].at)
  {
    if |samples| == 0 { return 0, 0.0; }
    if |samples| == 1 { return samples[0].bytes, 0.0; }
    var t0 := samples[0].at;
    var s := AddUp(samples, t0);
    DenominatorSign(samples, t0);
    Counts(samples, t0);
    var denom := Denominator(s);
    if denom == 0.0 { return samples[|samples| - 1].bytes, 0.0; }
    slope := SlopeOf(s);
    predicted := Predicted(s, at - t0);
  }
}
