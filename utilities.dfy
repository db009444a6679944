/** Statistics and vector helpers shared by the eigenvalue drivers: sums and
 *  sums of squares, the mean and variance of a sample, normalisation to a
 *  unit absolute sum, and splitting complex vectors. Square roots are left
 *  to the caller: the variance is returned, not the standard deviation. */
module Utilities {
  import opened RealSums
  import opened HistSources

  datatype Complex = Complex(re: real, im: real)

  /** The square of x. */
  function Sq(x: real): real
  {
    x * x
  }

  /** The entrywise squares of s. */
  function Squares(s: seq<real>): (r: seq<real>)
    ensures |r| == |s|
  {
    if s == [] then [] else Squares(s[..|s| - 1]) + [Sq(s[|s| - 1])]
  }

  /** The squared distances of the entries of s from c. */
  function Deviations(s: seq<real>, c: real): (r: seq<real>)
    ensures |r| == |s|
  {
    if s == [] then [] else Deviations(s[..|s| - 1], c) + [Sq(s[|s| - 1] - c)]
  }

  /** Entry i of the squares is the square of entry i, and likewise for the
   *  deviations. */
  lemma EntrywiseSquares(s: seq<real>, c: real)
    ensures forall i :: 0 <= i < |s| ==> Squares(s)[i] == s[i] * s[i]
    ensures forall i :: 0 <= i < |s| ==> Deviations(s, c)[i] == (s[i] - c) * (s[i] - c)
  {
    forall i | 0 <= i < |s|
      ensures Squares(s)[i] == s[i] * s[i]
      ensures Deviations(s, c)[i] == (s[i] - c) * (s[i] - c)
    {
      SquaresAt(s, i);
      DeviationsAt(s, c, i);
    }
  }

  lemma {:induction false} SquaresAt(s: seq<real>, i: nat)
    requires i < |s|
    ensures Squares(s)[i] == Sq(s[i])
    decreases |s|
  {
    var k := |s| - 1;
    if i < k {
      SquaresAt(s[..k], i);
      assert s[..k][i] == s[i];
    }
  }

  lemma {:induction false} DeviationsAt(s: seq<real>, c: real, i: nat)
    requires i < |s|
    ensures Deviations(s, c)[i] == Sq(s[i] - c)
    decreases |s|
  {
    var k := |s| - 1;
    if i < k {
      DeviationsAt(s[..k], c, i);
      assert s[..k][i] == s[i];
    }
  }

  /** The sum of s and the sum of its squares, accumulated entry by entry. */
  method Sums(v: seq<real>) returns (sum: real, sum2: real)
    ensures sum == Sum(v) && sum2 == Sum(Squares(v))
  {
    sum, sum2 := 0.0, 0.0;
    var i := 0;
    while i < |v|
      invariant 0 <= i <= |v|
      invariant sum == Sum(v[..i]) && sum2 == Sum(Squares(v[..i]))
    {
      assert v[..i + 1][..i] == v[..i];
      assert Squares(v[..i + 1]) == Squares(v[..i]) + [Sq(v[i])];
      SumSnoc(Squares(v[..i]), Sq(v[i]));
      sum := sum + v[i];
      sum2 := sum2 + v[i] * v[i];
      i := i + 1;
    }
    assert v[..i] == v;
  }

  /** One over n times the mean square q / n less the squared mean m. */
  function Spread(n: real, q: real, m: real): real
    requires n != 0.0
  {
    (1.0 / n) * (q / n - m * m)
  }

  /** The sum of (x - c) squared over n entries whose sum is s and whose
   *  sum of squares is q. */
  function Expanded(q: real, s: real, n: real, c: real): real
  {
    q - 2.0 * c * s + n * (c * c)
  }

  /** The squared deviations from any c expand into the sums of squares and
   *  of entries. */
  lemma {:induction false} DeviationsExpand(s: seq<real>, c: real)
    ensures Sum(Deviations(s, c)) == Expanded(Sum(Squares(s)), Sum(s), |s| as real, c)
    decreases |s|
  {
    if s != [] {
      var k := |s| - 1;
      var x := s[k];
      var ds, qs := Deviations(s[..k], c), Squares(s[..k]);
      DeviationsExpand(s[..k], c);
      SumSnoc(ds, Sq(x - c));
      SumSnoc(qs, Sq(x));
      assert Sum(s) == Sum(s[..k]) + x;
      ExpandedStep(Sum(qs), Sum(s[..k]), k as real, c, x, Sum(ds),
        Sum(Deviations(s, c)), Sum(Squares(s)), Sum(s), |s| as real);
    }
  }

  /** One more entry x adds its squared deviation to the expansion. */
  lemma ExpandedStep(q: real, s: real, n: real, c: real, x: real, d: real,
                     d': real, q': real, s': real, n': real)
    requires d == Expanded(q, s, n, c) && d' == d + Sq(x - c)
    requires q' == q + Sq(x) && s' == s + x && n' == n + 1.0
    ensures d' == Expanded(q', s', n', c)
  {
  }

  /** About any m with m * N equal to the sum, the spread is the sum of the
   *  squared deviations from m over N squared. */
  lemma CenteredSpread(v: seq<real>, m: real)
    requires |v| > 0 && m * (|v| as real) == Sum(v)
    ensures Spread(|v| as real, Sum(Squares(v)), m) == Sum(Deviations(v, m)) / (|v| as real) / (|v| as real)
  {
    DeviationsExpand(v, m);
    SpreadAtMean(|v| as real, Sum(v), Sum(Squares(v)), m, Sum(Deviations(v, m)));
  }

  /** The arithmetic behind CenteredSpread, on plain reals. */
  lemma SpreadAtMean(n: real, s: real, q: real, m: real, d: real)
    requires n > 0.0 && m * n == s && d == Expanded(q, s, n, m)
    ensures Spread(n, q, m) == d / n / n
  {
    var mm := m * m;
    assert n * mm == m * s;
    assert d == q - n * mm;
    assert q / n - mm == (q - n * mm) / n;
  }

  lemma DeviationsNonNegative(s: seq<real>, c: real)
    ensures Sum(Deviations(s, c)) >= 0.0
  {
    EntrywiseSquares(s, c);
    forall i | 0 <= i < |s|
      ensures Deviations(s, c)[i] >= 0.0
    {
      NonNegativeSquare(s[i] - c);
    }
    SumNonNegative(Deviations(s, c));
  }

  lemma NonNegativeSquare(x: real)
    ensures x * x >= 0.0
  {
    if x < 0.0 {
      assert x * x == (-x) * (-x);
      NonNegativeProduct(-x, -x);
    } else {
      NonNegativeProduct(x, x);
    }
  }

  /** In a constant sample the only mean is that constant, and there is no
   *  spread about it. */
  lemma ConstantSample(v: seq<real>, c: real, m: real)
    requires |v| > 0 && forall i :: 0 <= i < |v| ==> v[i] == c
    requires m * (|v| as real) == Sum(v)
    ensures m == c && Sum(Deviations(v, m)) == 0.0
  {
    var n := |v| as real;
    SumConstant(v, c);
    CancelFactor(m, c, n);
    forall i | 0 <= i < |v|
      ensures Deviations(v, c)[i] == 0.0
    {
      DeviationsAt(v, c, i);
      assert v[i] - c == 0.0;
    }
    SumConstant(Deviations(v, c), 0.0);
  }

  lemma CancelFactor(a: real, b: real, n: real)
    requires n != 0.0 && a * n == n * b
    ensures a == b
  {
    assert (a - b) * n == 0.0;
  }

  /** m and v are the mean and the variance of the mean of the non-empty
   *  sample s: m times the sample size is the sum, and v is the sum of
   *  squared deviations from m over the size twice. */
  ghost predicate MeanOf(s: seq<real>, m: real, v: real)
  {
    |s| > 0 &&
    var n := |s| as real;
    m * n == Sum(s) && v == Sum(Deviations(s, m)) / n / n
  }

  /** The mean and the variance of a non-empty sample: the mean times N is
   *  the sum, and the variance is the mean squared deviation from it divided
   *  once more by N, so it is never negative and its square root exists. */
  method StdDevMean(v: seq<real>) returns (mean: real, variance: real)
    requires |v| > 0
    ensures mean * (|v| as real) == Sum(v)
    ensures variance == Sum(Deviations(v, mean)) / (|v| as real) / (|v| as real)
    ensures variance >= 0.0
    ensures MeanOf(v, mean, variance)
  {
    var n := |v| as real;
    var sum, sum2 := Sums(v);
    mean := sum / n;
    variance := Spread(n, sum2, mean);
    MeanSpread(v, sum, sum2, mean);
  }

  /** The mean computed as the sum over N, and the spread about it. */
  lemma MeanSpread(v: seq<real>, sum: real, sum2: real, mean: real)
    requires |v| > 0 && sum == Sum(v) && sum2 == Sum(Squares(v)) && mean == sum / (|v| as real)
    ensures mean * (|v| as real) == sum
    ensures Spread(|v| as real, sum2, mean) == Sum(Deviations(v, mean)) / (|v| as real) / (|v| as real)
    ensures Sum(Deviations(v, mean)) / (|v| as real) / (|v| as real) >= 0.0
  {
    QuotientTimes(sum, |v| as real);
    SampleSpread(v, mean);
  }

  /** About the mean, the spread is the mean squared deviation over N, and
   *  so never negative. */
  lemma SampleSpread(v: seq<real>, mean: real)
    requires |v| > 0 && mean * (|v| as real) == Sum(v)
    ensures Spread(|v| as real, Sum(Squares(v)), mean) == Sum(Deviations(v, mean)) / (|v| as real) / (|v| as real)
    ensures Sum(Deviations(v, mean)) / (|v| as real) / (|v| as real) >= 0.0
  {
    var n := |v| as real;
    CenteredSpread(v, mean);
    DeviationsNonNegative(v, mean);
    NonNegativeQuotient(Sum(Deviations(v, mean)), n);
    NonNegativeQuotient(Sum(Deviations(v, mean)) / n, n);
  }

  lemma QuotientTimes(a: real, n: real)
    requires n != 0.0
    ensures (a / n) * n == a
  {
  }

  /** Divide every entry by the sum of the absolute values, so that the
   *  absolute values then sum to one. */
  method Norm(v: array<real>)
    requires Magnitude(v[..]) != 0.0
    modifies v
    ensures v[..] == Scaled(old(v[..]), Magnitude(old(v[..])))
    ensures Magnitude(v[..]) == 1.0
  {
    var sum := 0.0;
    var i := 0;
    while i < v.Length
      invariant 0 <= i <= v.Length
      invariant sum == Sum(AbsAll(v[..])[..i])
    {
      assert AbsAll(v[..])[..i + 1][..i] == AbsAll(v[..])[..i];
      sum := sum + Abs(v[i]);
      i := i + 1;
    }
    assert AbsAll(v[..])[..i] == AbsAll(v[..]);
    ghost var d := v[..];
    i := 0;
    while i < v.Length
      invariant 0 <= i <= v.Length
      invariant forall j :: 0 <= j < i ==> v[j] == d[j] / sum
      invariant forall j :: i <= j < v.Length ==> v[j] == d[j]
    {
      v[i] := v[i] / sum;
      i := i + 1;
    }
    assert v[..] == Scaled(d, sum);
    NormalizedMagnitude(d);
  }

  /** Scaling by the magnitude leaves absolute values summing to one. */
  lemma NormalizedMagnitude(d: seq<real>)
    requires Magnitude(d) != 0.0
    ensures Magnitude(Scaled(d, Magnitude(d))) == 1.0
  {
    var m := Magnitude(d);
    assert AbsAll(Scaled(d, m)) == Pdf(d, m);
    PdfScaled(d, m);
    SumScaled(AbsAll(d), m);
    SelfQuotient(m);
  }

  function RealParts(v: seq<Complex>): (r: seq<real>)
    ensures |r| == |v|
  {
    seq(|v|, i requires 0 <= i < |v| => v[i].re)
  }

  function ImagParts(v: seq<Complex>): (r: seq<real>)
    ensures |r| == |v|
  {
    seq(|v|, i requires 0 <= i < |v| => v[i].im)
  }

  /** Put real and imaginary parts back together. */
  function Joined(re: seq<real>, im: seq<real>): (v: seq<Complex>)
    requires |re| == |im|
    ensures |v| == |re|
  {
    seq(|re|, i requires 0 <= i < |re| => Complex(re[i], im[i]))
  }

  /** Joining the split parts gives back the vector, and splitting joined
   *  parts gives back the parts. */
  lemma SplitJoin(v: seq<Complex>, re: seq<real>, im: seq<real>)
    requires |re| == |im|
    ensures Joined(RealParts(v), ImagParts(v)) == v
    ensures RealParts(Joined(re, im)) == re && ImagParts(Joined(re, im)) == im
  {
  }

  /** Split a complex vector into fresh arrays of its real and imaginary
   *  parts, each as long as the input. */
  method SplitComplexVector(v: seq<Complex>) returns (re: array<real>, im: array<real>)
    ensures fresh(re) && fresh(im)
    ensures re.Length == |v| && im.Length == |v|
    ensures Joined(re[..], im[..]) == v
  {
    re := new real[|v|];
    im := new real[|v|];
    var i := 0;
    while i < |v|
      invariant 0 <= i <= |v|
      invariant forall j :: 0 <= j < i ==> re[j] == v[j].re && im[j] == v[j].im
    {
      re[i] := v[i].re;
      im[i] := v[i].im;
      i := i + 1;
    }
  }
}
