/** Bookkeeping of Monte Carlo Arnoldi's method: how many histories each
 *  matrix-vector product tracks (possibly relaxed as the residual falls),
 *  how the transported source is scaled back into a vector, the running
 *  statistics of the dominant eigenvalue estimate, and the per-restart and
 *  per-iteration records with their inactive and active parts. The
 *  transport itself, the eigen-solves and the entropy are inputs here. */
module ArnoldiMonteCarlo {
  import opened RealSums
  import opened HistSources
  import opened Utilities
  import opened RealVectors
  import CR = CycleRecords

  const Zero := Complex(0.0, 0.0)

  function Add(a: Complex, b: Complex): Complex
  {
    Complex(a.re + b.re, a.im + b.im)
  }

  function Mul(a: Complex, b: Complex): Complex
  {
    Complex(a.re * b.re - a.im * b.im, a.re * b.im + a.im * b.re)
  }

  /** A complex number divided by a real one. */
  function Over(a: Complex, n: real): Complex
    requires n != 0.0
  {
    Complex(a.re / n, a.im / n)
  }

  /** One over n times the mean square q / n less the squared mean m, in
   *  complex arithmetic. */
  function ComplexSpread(n: real, q: Complex, m: Complex): Complex
    requires n != 0.0
  {
    var mm := Mul(m, m);
    Complex((1.0 / n) * (q.re / n - mm.re), (1.0 / n) * (q.im / n - mm.im))
  }

  /** The sum of a sequence of complex numbers, part by part. */
  function ComplexSum(s: seq<Complex>): Complex
  {
    Complex(Sum(RealParts(s)), Sum(ImagParts(s)))
  }

  /** The squares of a sequence of complex numbers. */
  function SquaresOf(s: seq<Complex>): (r: seq<Complex>)
    ensures |r| == |s|
  {
    seq(|s|, i requires 0 <= i < |s| => Mul(s[i], s[i]))
  }

  /** Adding one more number to a complex sum. */
  lemma ComplexSumSnoc(s: seq<Complex>, x: Complex)
    ensures ComplexSum(s + [x]) == Add(ComplexSum(s), x)
    ensures SquaresOf(s + [x]) == SquaresOf(s) + [Mul(x, x)]
  {
    assert RealParts(s + [x]) == RealParts(s) + [x.re];
    assert ImagParts(s + [x]) == ImagParts(s) + [x.im];
    SumSnoc(RealParts(s), x.re);
    SumSnoc(ImagParts(s), x.im);
  }

  // ---------------------------------------------------------------------
  // Relaxed matrix-vector products

  /** x times x. */
  function Square(x: real): (r: real)
    ensures r >= 0.0
  {
    x * x
  }

  /** Squaring keeps the order of non-negative numbers, strictly when they
   *  differ. */
  lemma SquaresOrdered(a: real, b: real)
    requires 0.0 <= a <= b
    ensures 0.0 <= Square(a) <= Square(b)
    ensures a < b ==> Square(a) < Square(b)
  {
    NonNegativeProduct(a, b - a);
    NonNegativeProduct(b, b - a);
    NonNegativeProduct(a, a);
    assert a * (b - a) == a * b - a * a;
    assert b * (b - a) == b * b - a * b;
    assert Square(a) == a * a && Square(b) == b * b;
    if a < b {
      PositiveProduct(b - a, b + a);
      assert (b - a) * (b + a) == b * b - a * a;
    }
  }

  /** The square of x over the square of e. */
  function Ratio(x: real, e: real): real
    requires e > 0.0
  {
    SquaresOrdered(0.0, e);
    Square(x) / Square(e)
  }

  /** The number of histories for the next product: when the residual has
   *  fallen below the relaxation parameter, the full count times the
   *  squared ratio of the two, truncated to a whole number; otherwise the
   *  full count. */
  function RelaxedHistories(histories: nat, relaxed: real, res: real): (r: nat)
    requires relaxed > 0.0 && res >= 0.0
  {
    if res < relaxed then
      var q := Ratio(res, relaxed);
      SquareRatio(res, relaxed);
      NonNegativeProduct(histories as real, q);
      (histories as real * q).Floor
    else histories
  }

  /** The squared ratio of a residual below the parameter lies in [0, 1). */
  lemma SquareRatio(res: real, relaxed: real)
    requires 0.0 <= res < relaxed
    ensures 0.0 <= Ratio(res, relaxed) < 1.0
  {
    SquaresOrdered(res, relaxed);
    QuotientBelowOne(Square(res), Square(relaxed));
  }

  lemma QuotientBelowOne(a: real, b: real)
    requires 0.0 <= a < b
    ensures 0.0 <= a / b < 1.0
  {
  }

  /** Relaxing never asks for more histories than the full count, asks for
   *  the full count while the residual is at or above the parameter, and
   *  for none once the residual vanishes. */
  lemma RelaxedBounds(histories: nat, relaxed: real, res: real)
    requires relaxed > 0.0 && res >= 0.0
    ensures RelaxedHistories(histories, relaxed, res) <= histories
    ensures res >= relaxed ==> RelaxedHistories(histories, relaxed, res) == histories
    ensures res == 0.0 ==> RelaxedHistories(histories, relaxed, res) == 0
  {
    if res < relaxed {
      var q := Ratio(res, relaxed);
      SquareRatio(res, relaxed);
      NonNegativeProduct(histories as real, 1.0 - q);
      if res == 0.0 {
        SquaresOrdered(0.0, relaxed);
        assert Square(res) == 0.0;
        assert q == 0.0 / Square(relaxed) == 0.0;
        assert histories as real * q == 0.0;
      }
    }
  }

  /** A larger residual never asks for fewer histories. */
  lemma RelaxedMonotone(histories: nat, relaxed: real, res1: real, res2: real)
    requires relaxed > 0.0 && 0.0 <= res1 <= res2
    ensures RelaxedHistories(histories, relaxed, res1) <= RelaxedHistories(histories, relaxed, res2)
  {
    RelaxedBounds(histories, relaxed, res1);
    if res2 < relaxed {
      RatiosOrdered(res1, res2, relaxed);
      ScaledOrdered(histories as real, Ratio(res1, relaxed), Ratio(res2, relaxed));
    }
  }

  lemma RatiosOrdered(a: real, b: real, e: real)
    requires 0.0 <= a <= b && e > 0.0
    ensures Ratio(a, e) <= Ratio(b, e)
  {
    SquaresOrdered(a, b);
    SquaresOrdered(0.0, e);
    QuotientOrdered(Square(a), Square(b), Square(e));
  }

  lemma QuotientOrdered(a: real, b: real, c: real)
    requires a <= b && c > 0.0
    ensures a / c <= b / c
  {
  }

  lemma ScaledOrdered(h: real, q1: real, q2: real)
    requires h >= 0.0 && q1 <= q2
    ensures (h * q1).Floor <= (h * q2).Floor
  {
    NonNegativeProduct(h, q2 - q1);
  }

  // ---------------------------------------------------------------------
  // Scaling the transported source

  /** The next source's distribution scaled to keep the magnitude of the
   *  vector: times the current source's magnitude over the number of
   *  histories tracked, or the zero vector when none were tracked. */
  function ScaleSource(pdf: seq<real>, magnitude: real, rHistories: nat): (v: seq<real>)
    ensures |v| == |pdf|
  {
    if rHistories != 0 then Times(pdf, magnitude / rHistories as real) else Times(pdf, 0.0)
  }

  /** The same for a linear-space source, whose distribution is already per
   *  history: times the magnitude alone, or zero. */
  function ScaleLinearSource(pdf: seq<real>, magnitude: real, rHistories: nat): (v: seq<real>)
    ensures |v| == |pdf|
  {
    if rHistories != 0 then Times(pdf, magnitude) else Times(pdf, 0.0)
  }

  /** The scaled vector sums to the distribution's sum times the magnitude
   *  per history, and is zero everywhere when no history was tracked. */
  lemma ScaledSums(pdf: seq<real>, magnitude: real, rHistories: nat)
    ensures rHistories != 0 ==> Sum(ScaleSource(pdf, magnitude, rHistories)) * (rHistories as real) == Sum(pdf) * magnitude
    ensures rHistories != 0 ==> Sum(ScaleLinearSource(pdf, magnitude, rHistories)) == Sum(pdf) * magnitude
    ensures rHistories == 0 ==> forall i :: 0 <= i < |pdf| ==>
      ScaleSource(pdf, magnitude, rHistories)[i] == 0.0 && ScaleLinearSource(pdf, magnitude, rHistories)[i] == 0.0
  {
    if rHistories != 0 {
      var n := rHistories as real;
      var q := magnitude / n;
      SumTimes(pdf, q);
      SumTimes(pdf, magnitude);
      PerHistory(Sum(pdf), magnitude, n, q, Sum(Times(pdf, q)));
    }
  }

  lemma PerHistory(s: real, m: real, n: real, q: real, t: real)
    requires n != 0.0 && q == m / n && t == s * q
    ensures t * n == s * m
  {
    assert q * n == m;
  }

  // ---------------------------------------------------------------------
  // Statistics of the dominant eigenvalue estimate

  /** The running statistics: the sums of the estimates and of their
   *  squares, their mean, and the variance whose square root is reported
   *  as the standard deviation. */
  datatype Stats = Stats(sum: Complex, sum2: Complex, mean: Complex, variance: Complex)

  /** One more estimate d at active restart number `active` (counting from
   *  zero): it joins the sums; after the first active restart the mean and
   *  variance come from the sums over active + 1 estimates, at the first
   *  one the mean is d and the variance zero. */
  function ValueStats(s: Stats, d: Complex, active: nat): Stats
  {
    var sum, sum2 := Add(s.sum, d), Add(s.sum2, Mul(d, d));
    var n := (active + 1) as real;
    if active > 0 then
      var mean := Over(sum, n);
      Stats(sum, sum2, mean, ComplexSpread(n, sum2, mean))
    else
      Stats(sum, sum2, d, Zero)
  }

  /** Whatever the branch, the statistics after the estimates ds are the
   *  mean and the variance formula over all of them: the special case of
   *  the first active restart agrees with the general formula. */
  lemma ValueStatsOverAll(s: Stats, ds: seq<Complex>, d: Complex)
    requires s.sum == ComplexSum(ds) && s.sum2 == ComplexSum(SquaresOf(ds))
    ensures var r := ValueStats(s, d, |ds|);
      var n := (|ds| + 1) as real;
      r.sum == ComplexSum(ds + [d]) && r.sum2 == ComplexSum(SquaresOf(ds + [d])) &&
      r.mean == Over(r.sum, n) && r.variance == ComplexSpread(n, r.sum2, r.mean)
  {
    ComplexSumSnoc(ds, d);
    ComplexSumSnoc(SquaresOf(ds), Mul(d, d));
    if ds == [] {
      assert RealParts(ds) == [] && ImagParts(ds) == [];
      assert SquaresOf(ds) == [];
      assert ComplexSum(ds) == Zero && ComplexSum(SquaresOf(ds)) == Zero;
      FirstEstimate(d);
    }
  }

  /** Over a single estimate the mean is the estimate and the variance is
   *  zero. */
  lemma FirstEstimate(d: Complex)
    ensures Over(Add(Zero, d), 1.0) == d
    ensures ComplexSpread(1.0, Add(Zero, Mul(d, d)), d) == Zero
  {
  }

  /** When the estimates are real, the mean is their ordinary mean and the
   *  real part of the variance is the mean squared deviation over N, so it
   *  is never negative. */
  lemma RealEstimates(ds: seq<Complex>, m: Complex, v: Complex)
    requires |ds| > 0 && forall i :: 0 <= i < |ds| ==> ds[i].im == 0.0
    requires m == Over(ComplexSum(ds), |ds| as real)
    requires v == ComplexSpread(|ds| as real, ComplexSum(SquaresOf(ds)), m)
    ensures m.im == 0.0 && m.re * (|ds| as real) == Sum(RealParts(ds))
    ensures v.re == Sum(Deviations(RealParts(ds), m.re)) / (|ds| as real) / (|ds| as real)
    ensures v.re >= 0.0
  {
    var n := |ds| as real;
    var re := RealParts(ds);
    RealEstimatesMean(ds, m);
    RealEstimatesSpread(ds, m, v, n, re);
  }

  /** The mean of real estimates is real, and times N it is their sum. */
  lemma RealEstimatesMean(ds: seq<Complex>, m: Complex)
    requires |ds| > 0 && forall i :: 0 <= i < |ds| ==> ds[i].im == 0.0
    requires m == Over(ComplexSum(ds), |ds| as real)
    ensures m.im == 0.0 && m.re * (|ds| as real) == Sum(RealParts(ds))
  {
    SumConstant(ImagParts(ds), 0.0);
    RealMean(Sum(RealParts(ds)), Sum(ImagParts(ds)), |ds| as real, m);
  }

  /** About that real mean, the real part of the variance is the mean
   *  squared deviation over N, never negative. */
  lemma RealEstimatesSpread(ds: seq<Complex>, m: Complex, v: Complex, n: real, re: seq<real>)
    requires |ds| > 0 && forall i :: 0 <= i < |ds| ==> ds[i].im == 0.0
    requires n == |ds| as real && re == RealParts(ds)
    requires m.im == 0.0 && m.re * n == Sum(re)
    requires v == ComplexSpread(n, ComplexSum(SquaresOf(ds)), m)
    ensures v.re == Sum(Deviations(re, m.re)) / n / n
    ensures v.re >= 0.0
  {
    RealSquares(ds);
    CenteredSpread(re, m.re);
    DeviationsNonNegative(re, m.re);
    RealSpread(n, ComplexSum(SquaresOf(ds)), m, Sum(Squares(re)), Sum(Deviations(re, m.re)));
  }

  /** The mean of sums s and zero over n entries. */
  lemma RealMean(s: real, t: real, n: real, m: Complex)
    requires n > 0.0 && t == 0.0 && m == Over(Complex(s, t), n)
    ensures m.im == 0.0 && m.re * n == s
  {
  }

  /** The spread of a real mean, given its value as a sum of squared
   *  deviations, is that sum over n twice, and not negative. */
  lemma RealSpread(n: real, q: Complex, m: Complex, sq: real, dev: real)
    requires n > 0.0 && m.im == 0.0 && q.re == sq && dev >= 0.0
    requires Spread(n, sq, m.re) == dev / n / n
    ensures ComplexSpread(n, q, m).re == dev / n / n && dev / n / n >= 0.0
  {
    SpreadParts(n, q, m, sq);
    NonNegativeQuotient(dev, n);
    NonNegativeQuotient(dev / n, n);
  }

  lemma SpreadParts(n: real, q: Complex, m: Complex, sq: real)
    requires n > 0.0 && m.im == 0.0 && q.re == sq
    ensures ComplexSpread(n, q, m).re == Spread(n, sq, m.re)
  {
  }

  /** The squares of real numbers are real, and their real parts are the
   *  squares of the real parts. */
  lemma RealSquares(ds: seq<Complex>)
    requires forall i :: 0 <= i < |ds| ==> ds[i].im == 0.0
    ensures RealParts(SquaresOf(ds)) == Squares(RealParts(ds))
    ensures Sum(ImagParts(SquaresOf(ds))) == 0.0
  {
    var re := RealParts(ds);
    forall i | 0 <= i < |ds|
      ensures RealParts(SquaresOf(ds))[i] == Squares(re)[i]
      ensures ImagParts(SquaresOf(ds))[i] == 0.0
    {
      var d := ds[i];
      SquaresAt(re, i);
      assert Mul(d, d) == Complex(Sq(d.re), 0.0);
    }
    SumConstant(ImagParts(SquaresOf(ds)), 0.0);
  }

  // ---------------------------------------------------------------------
  // The driver's records

  /** Every list the driver keeps, each split into the part recorded during
   *  the inactive restarts and the part recorded during the active ones:
   *  running totals of histories and elapsed times by restart and by
   *  iteration, the entropy by iteration and by restart, the residual by
   *  restart, and the restart numbers. */
  datatype Records = Records(
    tracksRestart: seq<real>, tracksRestartInactive: seq<real>,
    tracksIteration: seq<real>, tracksIterationInactive: seq<real>,
    timeRestart: seq<real>, timeRestartInactive: seq<real>,
    timeIteration: seq<real>, timeIterationInactive: seq<real>,
    entropy: seq<real>, entropyInactive: seq<real>,
    entropyRestart: seq<real>, entropyRestartInactive: seq<real>,
    residual: seq<Complex>, residualInactive: seq<Complex>,
    restarts: seq<int>)

  /** No records at all. */
  const NoRecords := Records([], [], [], [], [], [], [], [], [], [], [], [], [], [], [])

  /** The restart numbers are counted from the first active restart, so the
   *  inactive ones are negative. */
  ghost predicate Numbered(restarts: seq<int>, inactive: nat)
  {
    forall i :: 0 <= i < |restarts| ==> restarts[i] == i - inactive
  }

  /** Listing the next restart keeps the numbering. */
  lemma NumberedNext(restarts: seq<int>, inactive: nat)
    requires Numbered(restarts, inactive)
    ensures Numbered(restarts + [|restarts| - inactive], inactive)
  {
  }

  /** The running sums are those of the estimates ds and of their squares,
   *  and once there is an estimate the mean and variance follow from them. */
  ghost predicate StatsOver(s: Stats, ds: seq<Complex>)
  {
    && s.sum == ComplexSum(ds)
    && s.sum2 == ComplexSum(SquaresOf(ds))
    && (ds != [] ==>
          s.mean == Over(s.sum, |ds| as real) &&
          s.variance == ComplexSpread(|ds| as real, s.sum2, s.mean))
  }

  /** The records after `restart` restarts of which the first `inactive`
   *  are inactive: the track lists are the running sums of the counts,
   *  every restart list has one entry per restart of its kind and every
   *  iteration list one entry per iteration of its kind. */
  ghost predicate Consistent(r: Records, restart: nat, inactive: nat,
                             counts: seq<real>, countsInactive: seq<real>,
                             iterationCounts: seq<real>, iterationCountsInactive: seq<real>)
  {
    var done := if restart < inactive then restart else inactive;
    && r.tracksRestart == PrefixSums(counts)
    && r.tracksRestartInactive == PrefixSums(countsInactive)
    && r.tracksIteration == PrefixSums(iterationCounts)
    && r.tracksIterationInactive == PrefixSums(iterationCountsInactive)
    && |countsInactive| == |r.timeRestartInactive| == |r.residualInactive| == done
    && |counts| == |r.timeRestart| == |r.residual| == restart - done
    && |iterationCounts| == |r.timeIteration| == |r.entropy|
    && |iterationCountsInactive| == |r.timeIterationInactive| == |r.entropyInactive|
    && |r.restarts| == restart
    && Numbered(r.restarts, inactive)
  }

  /** Records with nothing but entropies by restart fit no restart yet. */
  lemma ClearedConsistent(a: seq<real>, b: seq<real>, inactive: nat)
    ensures Consistent(NoRecords.(entropyRestart := a, entropyRestartInactive := b), 0, inactive, [], [], [], [])
  {
  }

  /** No estimate yet and zero sums. */
  lemma NoStatistics(s: Stats)
    requires s.sum == Zero && s.sum2 == Zero
    ensures StatsOver(s, [])
  {
    assert RealParts([]) == [] && ImagParts([]) == [] && SquaresOf([]) == [];
  }

  /** The bookkeeping state of Monte Carlo Arnoldi's method: the numbers of
   *  histories, the restart counter, the records and the running
   *  statistics. The ghost fields hold the per-restart and per-iteration
   *  history counts whose running totals the track lists are, and the
   *  dominant eigenvalue estimates of the active restarts. */
  class ArnoldiMC {
    const relaxed: real
    var histories: nat
    var rHistories: nat
    var tracks: nat
    var inactive: nat
    var restart: nat
    var rec: Records
    var stats: Stats

    ghost var counts: seq<real>
    ghost var countsInactive: seq<real>
    ghost var iterationCounts: seq<real>
    ghost var iterationCountsInactive: seq<real>
    ghost var dominants: seq<Complex>

    /** The number of restarts done so far that were inactive. */
    function InactiveRestarts(): nat
      reads this
    {
      if restart < inactive then restart else inactive
    }

    ghost predicate Valid()
      reads this
    {
      && Consistent(rec, restart, inactive, counts, countsInactive, iterationCounts, iterationCountsInactive)
      && |dominants| == |counts|
      && StatsOver(stats, dominants)
    }

    /** A driver with relaxation parameter relaxedIn (zero for none) and no
     *  records. */
    constructor(relaxedIn: real)
      ensures Valid()
      ensures relaxed == relaxedIn && histories == 0 && rHistories == 0 && tracks == 0
      ensures inactive == 0 && restart == 0 && rec == NoRecords
      ensures stats == Stats(Zero, Zero, Zero, Zero)
    {
      relaxed := relaxedIn;
      histories, rHistories, tracks, inactive, restart := 0, 0, 0, 0, 0;
      rec := NoRecords;
      stats := Stats(Zero, Zero, Zero, Zero);
      ClearedConsistent([], [], 0);
      NoStatistics(Stats(Zero, Zero, Zero, Zero));
      counts, countsInactive, iterationCounts, iterationCountsInactive, dominants := [], [], [], [], [];
    }

    /** The set-up of restarted Arnoldi's method: the number of inactive
     *  restarts and of histories per product are stored, every record but
     *  the entropy by restart is cleared, and so are the sums. */
    method Start(historiesIn: nat, inactiveIn: nat)
      modifies this
      ensures Valid()
      ensures histories == historiesIn && inactive == inactiveIn && restart == 0
      ensures rHistories == old(rHistories) && tracks == old(tracks)
      ensures rec == NoRecords.(entropyRestart := old(rec.entropyRestart),
                                entropyRestartInactive := old(rec.entropyRestartInactive))
      ensures stats == old(stats).(sum := Zero, sum2 := Zero)
    {
      var a, b := rec.entropyRestart, rec.entropyRestartInactive;
      var st := stats.(sum := Zero, sum2 := Zero);
      ClearedConsistent(a, b, inactiveIn);
      NoStatistics(st);
      histories, inactive, restart := historiesIn, inactiveIn, 0;
      rec, stats := NoRecords.(entropyRestart := a, entropyRestartInactive := b), st;
      counts, countsInactive, iterationCounts, iterationCountsInactive, dominants := [], [], [], [], [];
    }

    /** The start of a restart: the full number of histories again, and no
     *  history tracked yet in this restart. */
    method BeginRestart()
      requires Valid()
      modifies this
      ensures Valid()
      ensures rHistories == histories && tracks == 0
      ensures histories == old(histories) && inactive == old(inactive) && restart == old(restart)
      ensures rec == old(rec) && stats == old(stats)
    {
      rHistories, tracks := histories, 0;
    }

    /** One matrix-vector product: the transport of rHistories histories
     *  (whose next source, distribution nextPdf, is given together with
     *  the current source's magnitude) is counted, and the next source is
     *  scaled into the new vector. */
    method Av(nextPdf: seq<real>, magnitude: real) returns (v: seq<real>)
      requires Valid()
      modifies this
      ensures Valid()
      ensures v == ScaleSource(nextPdf, magnitude, rHistories)
      ensures tracks == old(tracks) + rHistories
      ensures rHistories == old(rHistories) && histories == old(histories)
      ensures inactive == old(inactive) && restart == old(restart)
      ensures rec == old(rec) && stats == old(stats)
    {
      tracks := tracks + rHistories;
      v := ScaleSource(nextPdf, magnitude, rHistories);
    }

    /** The records of one Arnoldi iteration: the entropy ent of the
     *  fundamental Ritz vector, the elapsed time, and the running total of
     *  histories, in the active lists once restart has reached the number
     *  of inactive restarts and in the inactive lists before. With
     *  relaxation the histories for the next product follow from the
     *  residual res. */
    method RecordIteration(duration: real, ent: real, res: real)
      requires Valid() && res >= 0.0
      modifies this
      ensures Valid()
      ensures restart == old(restart) && inactive == old(inactive) && histories == old(histories)
      ensures tracks == old(tracks) && stats == old(stats)
      ensures old(restart) >= inactive ==>
        rec == old(rec).(entropy := old(rec.entropy) + [ent],
                         timeIteration := old(rec.timeIteration) + [duration],
                         tracksIteration := CR.Accumulated(old(rec.tracksIteration), old(rHistories) as real))
      ensures old(restart) < inactive ==>
        rec == old(rec).(entropyInactive := old(rec.entropyInactive) + [ent],
                         timeIterationInactive := old(rec.timeIterationInactive) + [duration],
                         tracksIterationInactive := CR.Accumulated(old(rec.tracksIterationInactive), old(rHistories) as real))
      ensures relaxed > 0.0 ==> rHistories == RelaxedHistories(histories, relaxed, res)
      ensures relaxed <= 0.0 ==> rHistories == old(rHistories)
    {
      var h := rHistories as real;
      if restart >= inactive {
        CR.AccumulatedSums(iterationCounts, h);
        rec := rec.(entropy := rec.entropy + [ent],
                    timeIteration := rec.timeIteration + [duration],
                    tracksIteration := CR.Accumulated(rec.tracksIteration, h));
        iterationCounts := iterationCounts + [h];
      } else {
        CR.AccumulatedSums(iterationCountsInactive, h);
        rec := rec.(entropyInactive := rec.entropyInactive + [ent],
                    timeIterationInactive := rec.timeIterationInactive + [duration],
                    tracksIterationInactive := CR.Accumulated(rec.tracksIterationInactive, h));
        iterationCountsInactive := iterationCountsInactive + [h];
      }
      if relaxed > 0.0 {
        rHistories := RelaxedHistories(histories, relaxed, res);
      }
    }

    /** The records of one restart: the elapsed time, the running total of
     *  histories, the residual res and the entropy ent; in an inactive
     *  restart the mean is the dominant estimate and the variance zero, in
     *  an active one the estimate joins the running statistics. The
     *  restart number, less the inactive count, is listed, and the driver
     *  counts the restart. */
    method FinishRestart(duration: real, res: Complex, dominant: Complex, ent: real)
      requires Valid()
      modifies this
      ensures Valid()
      ensures restart == old(restart) + 1 && histories == old(histories) && inactive == old(inactive)
      ensures rHistories == old(rHistories) && tracks == old(tracks)
      ensures old(restart) < inactive ==>
        && rec == old(rec).(timeRestartInactive := old(rec.timeRestartInactive) + [duration],
                            tracksRestartInactive := CR.Accumulated(old(rec.tracksRestartInactive), old(tracks) as real),
                            residualInactive := old(rec.residualInactive) + [res],
                            entropyRestartInactive := old(rec.entropyRestartInactive) + [ent],
                            restarts := old(rec.restarts) + [old(restart) - inactive])
        && stats == old(stats).(mean := dominant, variance := Zero)
      ensures old(restart) >= inactive ==>
        && rec == old(rec).(timeRestart := old(rec.timeRestart) + [duration],
                            tracksRestart := CR.Accumulated(old(rec.tracksRestart), old(tracks) as real),
                            residual := old(rec.residual) + [res],
                            entropyRestart := old(rec.entropyRestart) + [ent],
                            restarts := old(rec.restarts) + [old(restart) - inactive])
        && stats == ValueStats(old(stats), dominant, old(restart) - inactive)
    {
      if restart < inactive {
        FinishInactive(duration, res, dominant, ent);
      } else {
        FinishActive(duration, res, dominant, ent);
      }
    }

    /** FinishRestart before the active restarts begin. */
    method FinishInactive(duration: real, res: Complex, dominant: Complex, ent: real)
      requires Valid() && restart < inactive
      modifies this
      ensures Valid()
      ensures restart == old(restart) + 1 && histories == old(histories) && inactive == old(inactive)
      ensures rHistories == old(rHistories) && tracks == old(tracks)
      ensures rec == old(rec).(timeRestartInactive := old(rec.timeRestartInactive) + [duration],
                               tracksRestartInactive := CR.Accumulated(old(rec.tracksRestartInactive), old(tracks) as real),
                               residualInactive := old(rec.residualInactive) + [res],
                               entropyRestartInactive := old(rec.entropyRestartInactive) + [ent],
                               restarts := old(rec.restarts) + [old(restart) - inactive])
      ensures stats == old(stats).(mean := dominant, variance := Zero)
    {
      var t := tracks as real;
      var number := restart - inactive;
      NumberedNext(rec.restarts, inactive);
      CR.AccumulatedSums(countsInactive, t);
      rec := rec.(timeRestartInactive := rec.timeRestartInactive + [duration],
                  tracksRestartInactive := CR.Accumulated(rec.tracksRestartInactive, t),
                  residualInactive := rec.residualInactive + [res],
                  entropyRestartInactive := rec.entropyRestartInactive + [ent],
                  restarts := rec.restarts + [number]);
      countsInactive := countsInactive + [t];
      stats := stats.(mean := dominant, variance := Zero);
      restart := restart + 1;
    }

    /** FinishRestart once the active restarts have begun. */
    method FinishActive(duration: real, res: Complex, dominant: Complex, ent: real)
      requires Valid() && restart >= inactive
      modifies this
      ensures Valid()
      ensures restart == old(restart) + 1 && histories == old(histories) && inactive == old(inactive)
      ensures rHistories == old(rHistories) && tracks == old(tracks)
      ensures rec == old(rec).(timeRestart := old(rec.timeRestart) + [duration],
                               tracksRestart := CR.Accumulated(old(rec.tracksRestart), old(tracks) as real),
                               residual := old(rec.residual) + [res],
                               entropyRestart := old(rec.entropyRestart) + [ent],
                               restarts := old(rec.restarts) + [old(restart) - inactive])
      ensures stats == ValueStats(old(stats), dominant, old(restart) - inactive)
    {
      var t := tracks as real;
      var number := restart - inactive;
      NumberedNext(rec.restarts, inactive);
      CR.AccumulatedSums(counts, t);
      ValueStatsOverAll(stats, dominants, dominant);
      rec := rec.(timeRestart := rec.timeRestart + [duration],
                  tracksRestart := CR.Accumulated(rec.tracksRestart, t),
                  residual := rec.residual + [res],
                  entropyRestart := rec.entropyRestart + [ent],
                  restarts := rec.restarts + [number]);
      counts := counts + [t];
      stats := ValueStats(stats, dominant, restart - inactive);
      dominants := dominants + [dominant];
      restart := restart + 1;
    }

    /** The running totals of histories by restart, with or without the
     *  inactive restarts: with them, the running sums over all restarts;
     *  without them, those of the active restarts raised by the inactive
     *  total. */
    function Tracks(withInactive: bool): (r: seq<real>)
      requires Valid()
      reads this
      ensures withInactive ==> r == PrefixSums(countsInactive + counts)
      ensures !withInactive ==> r == CR.Offset(PrefixSums(counts), Sum(countsInactive))
    {
      CR.TracksAreRunningTotals(countsInactive, counts);
      CR.TracksSplit(rec.tracksRestartInactive, rec.tracksRestart);
      CR.TotalOfRunningSums(countsInactive);
      CR.Tracks(withInactive, rec.tracksRestartInactive, rec.tracksRestart)
    }

    /** The running totals by iteration: with the inactive iterations, the
     *  running sums over all of them; without, those of the active
     *  iterations alone. */
    function TracksByIteration(withInactive: bool): (r: seq<real>)
      requires Valid()
      reads this
      ensures withInactive ==> r == PrefixSums(iterationCountsInactive + iterationCounts)
      ensures !withInactive ==> r == PrefixSums(iterationCounts)
    {
      CR.TracksAreRunningTotals(iterationCountsInactive, iterationCounts);
      CR.TracksByIterationAgrees(rec.tracksIterationInactive, rec.tracksIteration);
      CR.TracksByIteration(withInactive, rec.tracksIterationInactive, rec.tracksIteration)
    }

    /** The elapsed time at each restart: one entry per restart when the
     *  inactive ones are wanted, one per active restart otherwise. */
    function Time(withInactive: bool): (r: seq<real>)
      requires Valid()
      reads this
      ensures withInactive ==> r == rec.timeRestartInactive + rec.timeRestart && |r| == restart
      ensures !withInactive ==> r == rec.timeRestart && |r| == restart - InactiveRestarts()
    {
      CR.WithInactiveConcatenates(withInactive, rec.timeRestartInactive, rec.timeRestart);
      CR.WithInactive(withInactive, rec.timeRestartInactive, rec.timeRestart)
    }

    /** The elapsed time at each iteration, matching the running totals by
     *  iteration entry for entry. */
    function TimeByIteration(withInactive: bool): (r: seq<real>)
      requires Valid()
      reads this
      ensures withInactive ==> r == rec.timeIterationInactive + rec.timeIteration
      ensures !withInactive ==> r == rec.timeIteration
      ensures |r| == |TracksByIteration(withInactive)|
    {
      CR.WithInactiveConcatenates(withInactive, rec.timeIterationInactive, rec.timeIteration);
      CR.WithInactive(withInactive, rec.timeIterationInactive, rec.timeIteration)
    }

    /** The entropy at each iteration, one entry per iteration recorded. */
    function Entropy(withInactive: bool): (r: seq<real>)
      requires Valid()
      reads this
      ensures withInactive ==> r == rec.entropyInactive + rec.entropy
      ensures !withInactive ==> r == rec.entropy
      ensures |r| == |TimeByIteration(withInactive)|
    {
      CR.WithInactiveConcatenates(withInactive, rec.entropyInactive, rec.entropy);
      CR.WithInactive(withInactive, rec.entropyInactive, rec.entropy)
    }

    /** The entropy at each restart. */
    function EntropyRestart(withInactive: bool): (r: seq<real>)
      reads this
      ensures withInactive ==> r == rec.entropyRestartInactive + rec.entropyRestart
      ensures !withInactive ==> r == rec.entropyRestart
    {
      CR.WithInactiveConcatenates(withInactive, rec.entropyRestartInactive, rec.entropyRestart);
      CR.WithInactive(withInactive, rec.entropyRestartInactive, rec.entropyRestart)
    }

    /** The residual at each restart: one entry per restart with the
     *  inactive ones, one per active restart without. */
    function Residual(withInactive: bool): (r: seq<Complex>)
      requires Valid()
      reads this
      ensures withInactive ==> r == rec.residualInactive + rec.residual && |r| == restart
      ensures !withInactive ==> r == rec.residual && |r| == restart - InactiveRestarts()
    {
      if withInactive then rec.residualInactive + rec.residual else rec.residual
    }

    /** The restart numbers: one per restart, counted from the first active
     *  restart. */
    function Restarts(): (r: seq<int>)
      requires Valid()
      reads this
      ensures |r| == restart
      ensures forall i :: 0 <= i < |r| ==> r[i] == i - inactive
    {
      rec.restarts
    }

    /** With real dominant estimates, the reported mean is their mean and
     *  the variance's real part the mean squared deviation over N, never
     *  negative. */
    lemma RealStatistics()
      requires Valid() && dominants != []
      requires forall i :: 0 <= i < |dominants| ==> dominants[i].im == 0.0
      ensures stats.mean.im == 0.0
      ensures stats.mean.re * (|dominants| as real) == Sum(RealParts(dominants))
      ensures stats.variance.re == Sum(Deviations(RealParts(dominants), stats.mean.re)) / (|dominants| as real) / (|dominants| as real)
      ensures stats.variance.re >= 0.0
    {
      RealEstimates(dominants, stats.mean, stats.variance);
    }
  }
}
