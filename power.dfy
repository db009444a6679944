/** The Monte Carlo power method: each cycle transports the current fission
 *  source, banks a whole number of fission sites per collision, updates
 *  the eigenvalue estimate from the size of the new bank, records the
 *  estimate and its running mean and variance, and swaps the two sources.
 *  The transport, the clock, the entropy and the discretised eigenvector
 *  of each cycle are inputs. */
module PowerMethod {
  import opened RealSums
  import opened Utilities
  import opened RealVectors
  import opened BankSources
  import opened MarkovTransport
  import CR = CycleRecords
  import HS = HistSources

  // ---------------------------------------------------------------------
  // Banking fission sites

  /** The conversion of a real to an integer, rounding toward zero. */
  function Truncate(x: real): (n: int)
    ensures x >= 0.0 ==> n == x.Floor
    ensures x < 0.0 ==> n == -((-x).Floor)
  {
    if x >= 0.0 then x.Floor else -((-x).Floor)
  }

  /** Truncation never moves away from zero, and moves by less than one. */
  lemma TruncateBounds(x: real)
    ensures x >= 0.0 ==> 0.0 <= Truncate(x) as real <= x < Truncate(x) as real + 1.0
    ensures x < 0.0 ==> Truncate(x) as real - 1.0 < x <= Truncate(x) as real <= 0.0
  {
  }

  /** The fission neutrons a collision of weight w produces per history in
   *  material mat, relative to the current eigenvalue estimate k. */
  function Expected(w: real, k: real, mat: Material): real
    requires k != 0.0 && mat.xT != 0.0
  {
    Abs(w) * (1.0 / k) * (mat.nu * mat.xF / mat.xT)
  }

  /** The number of sites banked for one collision: the expected count plus
   *  a random number xi in [0, 1), truncated to an integer. */
  function BankedCount(w: real, k: real, mat: Material, xi: real): int
    requires k != 0.0 && mat.xT != 0.0
  {
    Truncate(Expected(w, k, mat) + xi)
  }

  /** For a non-negative expected count m and xi in [0, 1), banking rounds m
   *  down, or up exactly when xi is at least one less the fractional part
   *  of m: an unbiased stochastic rounding. */
  lemma StochasticRounding(m: real, xi: real)
    requires m >= 0.0 && 0.0 <= xi < 1.0
    ensures Truncate(m + xi) == m.Floor + (if xi >= 1.0 - (m - m.Floor as real) then 1 else 0)
  {
    var f := m.Floor;
    if xi >= 1.0 - (m - f as real) {
      assert (f + 1) as real <= m + xi < (f + 2) as real;
    } else {
      assert f as real <= m + xi < (f + 1) as real;
    }
  }

  /** Each collision of the cycle is a scored particle, in a zone of the
   *  field, with its random draw. */
  predicate Scorable(mats: seq<Material>, scored: seq<Particle>, xis: seq<real>)
  {
    && Materials(mats) && |xis| == |scored|
    && forall i :: 0 <= i < |scored| ==> scored[i].zone < |mats|
  }

  /** The site a particle banks: its position, on the slab's axis, and its
   *  weight. */
  function SiteOf(p: Particle): Entry
  {
    Entry(p.x, 0.0, 0.0, p.weight)
  }

  /** The sites the collisions bank, in order: for each, BankedCount copies
   *  of its site (none when the count is not positive). */
  function Banked(mats: seq<Material>, scored: seq<Particle>, xis: seq<real>, k: real): (r: seq<Entry>)
    requires k != 0.0 && Scorable(mats, scored, xis)
    decreases |scored|
  {
    if scored == [] then []
    else
      var n := |scored| - 1;
      var p := scored[n];
      Banked(mats, scored[..n], xis[..n], k)
        + Copies(SiteOf(p), Repeats(BankedCount(p.weight, k, mats[p.zone], xis[n]) as real))
  }

  /** Every banked site is the site of one of the collisions. */
  lemma {:induction false} BankedSites(mats: seq<Material>, scored: seq<Particle>, xis: seq<real>, k: real)
    requires k != 0.0 && Scorable(mats, scored, xis)
    ensures forall e :: e in Banked(mats, scored, xis, k) ==> exists i :: 0 <= i < |scored| && e == SiteOf(scored[i])
    decreases |scored|
  {
    if scored != [] {
      var n := |scored| - 1;
      BankedSites(mats, scored[..n], xis[..n], k);
      forall e | e in Banked(mats, scored, xis, k)
        ensures exists i :: 0 <= i < |scored| && e == SiteOf(scored[i])
      {
        var p := scored[n];
        var c := Copies(SiteOf(p), Repeats(BankedCount(p.weight, k, mats[p.zone], xis[n]) as real));
        if e in Banked(mats, scored[..n], xis[..n], k) {
          var i :| 0 <= i < n && e == SiteOf(scored[..n][i]);
          assert scored[..n][i] == scored[i];
        } else {
          assert e in c;
          assert e == SiteOf(scored[n]);
        }
      }
    }
  }

  /** Every collision lies in the slab whose zone edges are edges. */
  predicate ScoredInSlab(edges: seq<real>, scored: seq<Particle>)
  {
    |edges| >= 1 && forall i :: 0 <= i < |scored| ==> 0.0 <= scored[i].x <= edges[|edges| - 1]
  }

  /** The banked sites then lie in the slab too, and so can be binned. */
  lemma BankedInSlab(mats: seq<Material>, scored: seq<Particle>, xis: seq<real>, k: real, edges: seq<real>)
    requires k != 0.0 && Scorable(mats, scored, xis) && ScoredInSlab(edges, scored)
    ensures BankSources.InSlab(edges, Banked(mats, scored, xis, k))
  {
    var b := Banked(mats, scored, xis, k);
    BankedSites(mats, scored, xis, k);
    forall j | 0 <= j < |b|
      ensures 0.0 <= b[j].x <= edges[|edges| - 1]
    {
      assert b[j] in b;
    }
  }

  /** The histogram over the zones of the sites the collisions bank. */
  function CycleHistogram(mats: seq<Material>, scored: seq<Particle>, xis: seq<real>, k: real,
                          edges: seq<real>): (h: seq<real>)
    requires k != 0.0 && Scorable(mats, scored, xis) && HS.Geometry(edges) && ScoredInSlab(edges, scored)
    ensures BankSources.InSlab(edges, Banked(mats, scored, xis, k))
    ensures h == Histogram(edges, Banked(mats, scored, xis, k))
  {
    BankedInSlab(mats, scored, xis, k, edges);
    Histogram(edges, Banked(mats, scored, xis, k))
  }

  /** Banks the sites of every collision into source, one score after the
   *  other. */
  method ScoreAll(source: BankSource, mats: seq<Material>, scored: seq<Particle>, xis: seq<real>, k: real)
    requires source.Valid() && k != 0.0 && Scorable(mats, scored, xis)
    modifies source
    ensures source.Valid()
    ensures source.Contents() == old(source.Contents()) + Banked(mats, scored, xis, k)
  {
    ghost var c0 := source.Contents();
    var i := 0;
    while i < |scored|
      invariant 0 <= i <= |scored| && source.Valid()
      invariant source.Contents() == c0 + Banked(mats, scored[..i], xis[..i], k)
    {
      var p := scored[i];
      var n := BankedCount(p.weight, k, mats[p.zone], xis[i]);
      source.Score(SiteOf(p), n as real);
      assert scored[..i + 1][..i] == scored[..i] && xis[..i + 1][..i] == xis[..i];
      i := i + 1;
    }
    assert scored[..i] == scored && xis[..i] == xis;
  }

  // ---------------------------------------------------------------------
  // Running statistics

  /** The running means and variances of the estimates: entry i is over the
   *  first i + 1 estimates. */
  ghost predicate RunningStats(est: seq<real>, means: seq<real>, variances: seq<real>)
  {
    && |means| == |est| && |variances| == |est|
    && forall i :: 0 <= i < |est| ==> MeanOf(est[..i + 1], means[i], variances[i])
  }

  /** One more estimate with its mean and variance over all estimates. */
  lemma RunningStatsSnoc(est: seq<real>, means: seq<real>, variances: seq<real>, x: real, m: real, v: real)
    requires RunningStats(est, means, variances)
    requires MeanOf(est + [x], m, v)
    ensures RunningStats(est + [x], means + [m], variances + [v])
  {
    var e, ms, vs := est + [x], means + [m], variances + [v];
    forall i | 0 <= i < |e|
      ensures MeanOf(e[..i + 1], ms[i], vs[i])
    {
      if i < |est| {
        assert e[..i + 1] == est[..i + 1];
      } else {
        assert e[..i + 1] == e;
      }
    }
  }

  /** The entries of column j of a list of vectors. */
  function Column(rows: seq<seq<real>>, j: nat): (c: seq<real>)
    requires forall i :: 0 <= i < |rows| ==> j < |rows[i]|
    ensures |c| == |rows|
  {
    seq(|rows|, i requires 0 <= i < |rows| => rows[i][j])
  }

  /** Every vector has n entries. */
  predicate Rectangular(rows: seq<seq<real>>, n: nat)
  {
    forall i :: 0 <= i < |rows| ==> |rows[i]| == n
  }

  /** The mean and variance of each component of a list of vectors of n
   *  entries. */
  ghost predicate ColumnStats(rows: seq<seq<real>>, n: nat, means: seq<real>, variances: seq<real>)
    requires Rectangular(rows, n)
  {
    && |means| == n && |variances| == n
    && forall j :: 0 <= j < n ==> MeanOf(Column(rows, j), means[j], variances[j])
  }

  /** A component's mean and variance from its sum s and sum of squares q:
   *  the mean is s over the count, and the spread of the sums is the sum of
   *  squared deviations over the count twice, never negative. */
  lemma ComponentStats(col: seq<real>, s: real, q: real, m: real, v: real)
    requires |col| > 0 && s == Sum(col) && q == Sum(Squares(col))
    requires m * (|col| as real) == s && v == Spread(|col| as real, q, m)
    ensures MeanOf(col, m, v) && v >= 0.0
  {
    var n := |col| as real;
    CenteredSpread(col, m);
    DeviationsNonNegative(col, m);
    NonNegativeQuotient(Sum(Deviations(col, m)), n);
    NonNegativeQuotient(Sum(Deviations(col, m)) / n, n);
  }

  /** The mean times the count is the sum. */
  lemma MeanTimes(s: real, n: real, m: real)
    requires n != 0.0 && m == s / n
    ensures m * n == s
  {
  }

  /** Appending a row extends each column by the row's entry. */
  lemma ColumnSnoc(rows: seq<seq<real>>, i: nat, j: nat)
    requires i < |rows| && forall r :: 0 <= r < |rows| ==> j < |rows[r]|
    ensures Column(rows[..i + 1], j) == Column(rows[..i], j) + [rows[i][j]]
  {
    var a, b := Column(rows[..i + 1], j), Column(rows[..i], j) + [rows[i][j]];
    assert |a| == i + 1 == |b|;
    forall r | 0 <= r <= i
      ensures a[r] == b[r]
    {
      assert rows[..i + 1][r] == rows[r];
      if r < i {
        assert rows[..i][r] == rows[r];
      }
    }
  }

  /** Squaring one more entry. */
  lemma SquaresSnoc(s: seq<real>, x: real)
    ensures Squares(s + [x]) == Squares(s) + [Sq(x)]
  {
    assert (s + [x])[..|s|] == s;
  }

  /** sum and sum2 hold the column sums and sums of squares of the first i
   *  vectors. */
  ghost predicate SumsUpTo(rows: seq<seq<real>>, n: nat, i: nat, sum: seq<real>, sum2: seq<real>)
    requires Rectangular(rows, n) && i <= |rows|
  {
    && |sum| == n && |sum2| == n
    && (forall j :: 0 <= j < n ==> sum[j] == Sum(Column(rows[..i], j)))
    && (forall j :: 0 <= j < n ==> sum2[j] == Sum(Squares(Column(rows[..i], j))))
  }

  /** One more vector adds its entries to the column sums and their
   *  squares to the sums of squares. */
  lemma SumsStep(rows: seq<seq<real>>, n: nat, i: nat, sum: seq<real>, sum2: seq<real>)
    requires Rectangular(rows, n) && i < |rows| && SumsUpTo(rows, n, i, sum, sum2)
    ensures SumsUpTo(rows, n, i + 1, Plus(sum, rows[i]), Plus(sum2, Products(rows[i], rows[i])))
  {
    var v := rows[i];
    var s, s2 := Plus(sum, v), Plus(sum2, Products(v, v));
    forall j | 0 <= j < n
      ensures s[j] == Sum(Column(rows[..i + 1], j))
      ensures s2[j] == Sum(Squares(Column(rows[..i + 1], j)))
    {
      ColumnSnoc(rows, i, j);
      SumSnoc(Column(rows[..i], j), v[j]);
      SquaresSnoc(Column(rows[..i], j), v[j]);
      SumSnoc(Squares(Column(rows[..i], j)), Sq(v[j]));
    }
  }

  /** The sums and the sums of squares of every component over the vectors,
   *  accumulated one vector after the other. */
  method ColumnSums(rows: seq<seq<real>>, n: nat) returns (sum: seq<real>, sum2: seq<real>)
    requires Rectangular(rows, n)
    ensures |sum| == n && |sum2| == n
    ensures forall j :: 0 <= j < n ==> sum[j] == Sum(Column(rows, j))
    ensures forall j :: 0 <= j < n ==> sum2[j] == Sum(Squares(Column(rows, j)))
  {
    sum := Zeros(n);
    sum2 := Zeros(n);
    var i := 0;
    while i < |rows|
      invariant 0 <= i <= |rows| && SumsUpTo(rows, n, i, sum, sum2)
    {
      var v := rows[i];
      SumsStep(rows, n, i, sum, sum2);
      sum, sum2 := Plus(sum, v), Plus(sum2, Products(v, v));
      i := i + 1;
    }
    assert rows[..i] == rows;
  }

  /** The mean and variance of every component of the cycle vectors: sums
   *  and sums of squares over the vectors, then the mean and the spread of
   *  each component. */
  method CalcMeanVector(rows: seq<seq<real>>, n: nat) returns (means: seq<real>, variances: seq<real>)
    requires |rows| > 0 && Rectangular(rows, n)
    ensures ColumnStats(rows, n, means, variances)
    ensures forall j :: 0 <= j < n ==> variances[j] >= 0.0
  {
    var sum, sum2 := ColumnSums(rows, n);
    var count := |rows| as real;
    means, variances := [], [];
    var j := 0;
    while j < n
      invariant 0 <= j <= n && |means| == j && |variances| == j
      invariant forall c :: 0 <= c < j ==> MeanOf(Column(rows, c), means[c], variances[c])
      invariant forall c :: 0 <= c < j ==> variances[c] >= 0.0
    {
      var mean := sum[j] / count;
      var variance := Spread(count, sum2[j], mean);
      MeanTimes(sum[j], count, mean);
      ComponentStats(Column(rows, j), sum[j], sum2[j], mean, variance);
      means, variances := means + [mean], variances + [variance];
      j := j + 1;
    }
  }


  /** Dividing a vector by its Euclidean norm (a positive c with c * c the
   *  sum of squares) leaves a vector whose squares sum to one. */
  lemma UnitVector(pdf: seq<real>, c: real)
    requires c > 0.0 && Sum(Squares(pdf)) > 0.0 && c * c == Sum(Squares(pdf))
    ensures Sum(Squares(Scaled(pdf, c))) == 1.0
  {
    var u := Scaled(pdf, c);
    EntrywiseSquares(u, 0.0);
    EntrywiseSquares(pdf, 0.0);
    var cc := c * c;
    forall i | 0 <= i < |u|
      ensures Squares(u)[i] == Scaled(Squares(pdf), cc)[i]
    {
      QuotientSquare(pdf[i], c, u[i], cc);
    }
    assert Squares(u) == Scaled(Squares(pdf), cc);
    SumScaled(Squares(pdf), cc);
    SelfQuotient(cc);
  }

  // ---------------------------------------------------------------------
  // The records of a run

  /** The per-cycle lists: the estimates of the eigenvalue, their running
   *  means and variances, elapsed times, running totals of histories and
   *  entropies (each for the active and for the inactive cycles), the
   *  normalised cycle vectors and their component-wise means and
   *  variances. */
  datatype Records = Records(
    eigEstimates: seq<real>, inactiveEstimates: seq<real>,
    meanEigActive: seq<real>, varianceEig: seq<real>,
    time: seq<real>, timeInactive: seq<real>,
    tracks: seq<real>, tracksInactive: seq<real>,
    entropy: seq<real>, entropyInactive: seq<real>,
    cycleVectors: seq<seq<real>>, meanVector: seq<real>, varianceVector: seq<real>)

  const NoRecords := Records([], [], [], [], [], [], [], [], [], [], [], [], [])

  /** The records agree with the histories tracked per active cycle
   *  (counts) and per inactive cycle (countsInactive): the totals are their
   *  running sums, there is one estimate, entropy and cycle vector per
   *  active cycle and one estimate and entropy per inactive one, the
   *  running statistics are over the active estimates and the vector
   *  statistics over the cycle vectors, which all have one length. */
  ghost predicate Consistent(r: Records, counts: seq<real>, countsInactive: seq<real>)
  {
    && r.tracks == PrefixSums(counts) && r.tracksInactive == PrefixSums(countsInactive)
    && |counts| == |r.eigEstimates| == |r.entropy| == |r.cycleVectors|
    && |countsInactive| == |r.inactiveEstimates| == |r.entropyInactive|
    && RunningStats(r.eigEstimates, r.meanEigActive, r.varianceEig)
    && (r.cycleVectors != [] ==>
          Rectangular(r.cycleVectors, |r.cycleVectors[0]|) &&
          ColumnStats(r.cycleVectors, |r.cycleVectors[0]|, r.meanVector, r.varianceVector))
  }

  /** norm is the Euclidean norm of a non-zero vector pdf: positive, with
   *  its square the sum of the squares of the entries. */
  predicate NormOf(pdf: seq<real>, norm: real)
  {
    norm > 0.0 && Sum(Squares(pdf)) > 0.0 && norm * norm == Sum(Squares(pdf))
  }

  /** r' is r after one cycle with estimate k, h histories, the given
   *  elapsed time and entropy, and the cycle vector pdf divided by its
   *  norm: in an active cycle the active lists grow by one entry each and
   *  the inactive ones stay; in an inactive cycle only the inactive lists
   *  grow. */
  ghost predicate Recorded(r: Records, r': Records, active: bool, k: real, h: real,
                           duration: real, ent: real, pdf: seq<real>, norm: real)
  {
    if active then
      && r'.eigEstimates == r.eigEstimates + [k]
      && |r'.meanEigActive| == |r.meanEigActive| + 1 && r'.meanEigActive[..|r.meanEigActive|] == r.meanEigActive
      && |r'.varianceEig| == |r.varianceEig| + 1 && r'.varianceEig[..|r.varianceEig|] == r.varianceEig
      && r'.time == r.time + [duration]
      && r'.tracks == CR.Accumulated(r.tracks, h)
      && r'.entropy == r.entropy + [ent]
      && norm != 0.0 && r'.cycleVectors == r.cycleVectors + [Scaled(pdf, norm)]
      && r'.inactiveEstimates == r.inactiveEstimates && r'.timeInactive == r.timeInactive
      && r'.tracksInactive == r.tracksInactive && r'.entropyInactive == r.entropyInactive
    else
      r' == r.(inactiveEstimates := r.inactiveEstimates + [k],
               timeInactive := r.timeInactive + [duration],
               tracksInactive := CR.Accumulated(r.tracksInactive, h),
               entropyInactive := r.entropyInactive + [ent])
  }

  /** The histories per cycle after one more cycle of h histories. */
  function Counted(counts: seq<real>, countsInactive: seq<real>, active: bool, h: real): (c: (seq<real>, seq<real>))
    ensures active ==> c == (counts + [h], countsInactive)
    ensures !active ==> c == (counts, countsInactive + [h])
  {
    if active then (counts + [h], countsInactive) else (counts, countsInactive + [h])
  }

  /** The records of one cycle: in an active cycle the estimate is appended
   *  with the mean and variance of all active estimates so far, the vector
   *  (the cycle's discretised source divided by its Euclidean norm) is
   *  appended and the vector statistics recomputed; in an inactive cycle
   *  only the estimate, time, total and entropy are kept. */
  method Record(r: Records, ghost counts: seq<real>, ghost countsInactive: seq<real>,
                active: bool, k: real, h: real, duration: real, ent: real,
                pdf: seq<real>, norm: real) returns (r': Records)
    requires Consistent(r, counts, countsInactive)
    requires active ==> NormOf(pdf, norm)
    requires active && r.cycleVectors != [] ==> |pdf| == |r.cycleVectors[0]|
    ensures Recorded(r, r', active, k, h, duration, ent, pdf, norm)
    ensures Consistent(r', Counted(counts, countsInactive, active, h).0, Counted(counts, countsInactive, active, h).1)
    ensures active ==> Sum(Squares(r'.cycleVectors[|r'.cycleVectors| - 1])) == 1.0
  {
    if active {
      var est := r.eigEstimates + [k];
      var mean, variance := StdDevMean(est);
      RunningStatsSnoc(r.eigEstimates, r.meanEigActive, r.varianceEig, k, mean, variance);
      CR.AccumulatedSums(counts, h);
      var u := Scaled(pdf, norm);
      UnitVector(pdf, norm);
      var rows := r.cycleVectors + [u];
      assert Rectangular(rows, |rows[0]|);
      var means, variances := CalcMeanVector(rows, |rows[0]|);
      r' := r.(eigEstimates := est,
               meanEigActive := r.meanEigActive + [mean],
               varianceEig := r.varianceEig + [variance],
               time := r.time + [duration],
               tracks := CR.Accumulated(r.tracks, h),
               entropy := r.entropy + [ent],
               cycleVectors := rows, meanVector := means, varianceVector := variances);
    } else {
      CR.AccumulatedSums(countsInactive, h);
      r' := r.(inactiveEstimates := r.inactiveEstimates + [k],
               timeInactive := r.timeInactive + [duration],
               tracksInactive := CR.Accumulated(r.tracksInactive, h),
               entropyInactive := r.entropyInactive + [ent]);
    }
  }

  // ---------------------------------------------------------------------
  // The power method

  /** The next estimate of the eigenvalue: k times the sites banked per
   *  history. */
  function Grown(k: real, banked: real, histories: nat): real
    requires histories > 0
  {
    k * (banked / histories as real)
  }

  /** The transport of one cycle, as far as the sources go: the collisions
   *  bank their sites into the empty next source, whose size is returned,
   *  and the current source is emptied to become the next one. */
  method Cycle(current: BankSource, next: BankSource, mats: seq<Material>, scored: seq<Particle>,
               xis: seq<real>, k: real) returns (m: real)
    requires current != next && current.Valid() && next.Valid() && next.Contents() == []
    requires k != 0.0 && Scorable(mats, scored, xis)
    modifies current, next
    ensures current.Valid() && next.Valid() && current.Contents() == []
    ensures next.Contents() == Banked(mats, scored, xis, k)
    ensures m == |Banked(mats, scored, xis, k)| as real
  {
    ScoreAll(next, mats, scored, xis, k);
    m := next.Magnitude();
    current.Reset();
  }

  class Power {
    var k: real
    var histories: nat
    var active: bool
    var rec: Records
    var current: BankSource
    var next: BankSource

    ghost var counts: seq<real>
    ghost var countsInactive: seq<real>

    /** Two distinct sources, the next one empty between cycles. */
    ghost predicate SourcesValid()
      reads this`current, this`next, current, next
    {
      current != next && current.Valid() && next.Valid() && next.Contents() == []
    }

    /** The sources after the transport of a cycle: the current one empty,
     *  the next one holding the banked sites. */
    ghost predicate SourcesValid'(banked: seq<Entry>)
      reads this`current, this`next, current, next
    {
      current != next && current.Valid() && next.Valid() && current.Contents() == []
      && next.Contents() == banked
    }

    ghost predicate RecordsValid()
      reads this`rec, this`counts, this`countsInactive
    {
      Consistent(rec, counts, countsInactive)
    }

    ghost predicate Valid()
      reads this, current, next
    {
      SourcesValid() && RecordsValid()
    }

    /** A power method with the estimate one and no records. */
    constructor()
      ensures Valid() && fresh(current) && fresh(next)
      ensures k == 1.0 && !active && histories == 0 && rec == NoRecords
      ensures current.Contents() == []
    {
      k := 1.0;
      histories := 0;
      active := false;
      rec := NoRecords;
      counts, countsInactive := [], [];
      current := new BankSource.Empty();
      next := new BankSource.Empty();
    }

    /** The set-up of a run: the starting source and the histories per
     *  cycle are taken, a fresh empty source receives the next cycle's
     *  sites, the cycles are inactive, and the times are cleared; the
     *  estimates and other records carry over. */
    method Begin(source: BankSource, historiesIn: nat)
      requires RecordsValid() && source.Valid()
      modifies this
      ensures Valid()
      ensures current == source && fresh(next) && histories == historiesIn && !active && k == old(k)
      ensures rec == old(rec).(time := [], timeInactive := [])
    {
      histories := historiesIn;
      current := source;
      next := new BankSource.Empty();
      active := false;
      rec := rec.(time := [], timeInactive := []);
    }

    /** The switch from the inactive cycles to the active ones. */
    method Activate()
      requires Valid()
      modifies this
      ensures Valid() && active
      ensures k == old(k) && histories == old(histories) && rec == old(rec)
      ensures current == old(current) && next == old(next)
    {
      active := true;
    }

    /** One cycle: the collisions bank their sites into the next source, the
     *  estimate is multiplied by the number of sites per history, the
     *  estimate, time, running total of histories and entropy are recorded
     *  in the active or the inactive lists (in active cycles with the
     *  running mean and variance of the estimates and the statistics of the
     *  normalised cycle vectors), and the sources are swapped, the new next
     *  source emptied. */
    method Iteration(mats: seq<Material>, scored: seq<Particle>, xis: seq<real>,
                     duration: real, ent: real, edges: seq<real>, norm: real)
      requires Valid() && k != 0.0 && histories > 0 && Scorable(mats, scored, xis)
      requires HS.Geometry(edges) && ScoredInSlab(edges, scored)
      requires active ==> NormOf(CycleHistogram(mats, scored, xis, k, edges), norm)
      requires active && rec.cycleVectors != [] ==> |edges| - 1 == |rec.cycleVectors[0]|
      modifies this, current, next
      ensures Valid()
      ensures current == old(next) && next == old(current)
      ensures histories == old(histories) && active == old(active)
      ensures current.Contents() == Banked(mats, scored, xis, old(k))
      ensures k == Grown(old(k), |Banked(mats, scored, xis, old(k))| as real, old(histories))
      ensures Recorded(old(rec), rec, active, k, histories as real, duration, ent,
                       CycleHistogram(mats, scored, xis, old(k), edges), norm)
    {
      var h, k0 := histories as real, k;
      var m, pdf := Transport(mats, scored, xis, edges);
      k := Grown(k0, m, histories);
      Log(active, k, h, duration, ent, pdf, norm);
      current, next := next, current;
    }

    /** The records of one cycle with estimate k and h histories. */
    method Log(active: bool, k: real, h: real, duration: real, ent: real, pdf: seq<real>, norm: real)
      requires RecordsValid()
      requires active ==> NormOf(pdf, norm)
      requires active && rec.cycleVectors != [] ==> |pdf| == |rec.cycleVectors[0]|
      modifies this`rec, this`counts, this`countsInactive
      ensures RecordsValid()
      ensures Recorded(old(rec), rec, active, k, h, duration, ent, pdf, norm)
    {
      rec := Record(rec, counts, countsInactive, active, k, h, duration, ent, pdf, norm);
      counts, countsInactive := Counted(counts, countsInactive, active, h).0, Counted(counts, countsInactive, active, h).1;
    }

    /** The transport of one cycle into the next source, and the histogram
     *  of the sites banked there. */
    method Transport(mats: seq<Material>, scored: seq<Particle>, xis: seq<real>, edges: seq<real>)
      returns (m: real, pdf: seq<real>)
      requires SourcesValid() && k != 0.0 && Scorable(mats, scored, xis)
      requires HS.Geometry(edges) && ScoredInSlab(edges, scored)
      modifies current, next
      ensures SourcesValid'(Banked(mats, scored, xis, k))
      ensures m == |Banked(mats, scored, xis, k)| as real
      ensures pdf == CycleHistogram(mats, scored, xis, k, edges)
    {
      m := Cycle(current, next, mats, scored, xis, k);
      BankedInSlab(mats, scored, xis, k, edges);
      pdf := next.Discretized(edges);
    }

    /** The estimates, the inactive ones first when they are wanted. */
    function EigEstimates(withInactive: bool): (r: seq<real>)
      reads this
      ensures withInactive ==> r == rec.inactiveEstimates + rec.eigEstimates
      ensures !withInactive ==> r == rec.eigEstimates
    {
      CR.WithInactiveConcatenates(withInactive, rec.inactiveEstimates, rec.eigEstimates);
      CR.WithInactive(withInactive, rec.inactiveEstimates, rec.eigEstimates)
    }

    /** The elapsed times of the inactive then the active cycles. */
    function Time(): (r: seq<real>)
      reads this
      ensures |r| == |rec.timeInactive| + |rec.time|
      ensures forall i :: 0 <= i < |rec.timeInactive| ==> r[i] == rec.timeInactive[i]
      ensures forall i :: |rec.timeInactive| <= i < |r| ==> r[i] == rec.time[i - |rec.timeInactive|]
    {
      rec.timeInactive + rec.time
    }

    /** The entropies of the inactive then the active cycles, one per cycle
     *  of either kind. */
    function Entropy(): (r: seq<real>)
      requires RecordsValid()
      reads this
      ensures |r| == |rec.inactiveEstimates| + |rec.eigEstimates|
      ensures forall i :: 0 <= i < |rec.entropyInactive| ==> r[i] == rec.entropyInactive[i]
      ensures forall i :: |rec.entropyInactive| <= i < |r| ==> r[i] == rec.entropy[i - |rec.entropyInactive|]
    {
      rec.entropyInactive + rec.entropy
    }

    /** The running totals of histories: with the inactive cycles, the
     *  running sums over all cycles; without, those of the active cycles
     *  raised by the inactive total. */
    function Tracks(withInactive: bool): (r: seq<real>)
      requires RecordsValid()
      reads this
      ensures withInactive ==> r == PrefixSums(countsInactive + counts)
      ensures !withInactive ==> r == CR.Offset(PrefixSums(counts), Sum(countsInactive))
    {
      CR.TracksAreRunningTotals(countsInactive, counts);
      CR.TracksSplit(rec.tracksInactive, rec.tracks);
      CR.TotalOfRunningSums(countsInactive);
      CR.Tracks(withInactive, rec.tracksInactive, rec.tracks)
    }

    /** The estimate of each cycle: the inactive estimates as they are, then
     *  for the j-th active cycle the mean of the first j + 1 active
     *  estimates. */
    function MeanValues(): (r: seq<real>)
      requires RecordsValid()
      reads this
      ensures |r| == |rec.inactiveEstimates| + |rec.eigEstimates|
      ensures forall i :: 0 <= i < |rec.inactiveEstimates| ==> r[i] == rec.inactiveEstimates[i]
      ensures forall i :: |rec.inactiveEstimates| <= i < |r| ==>
        r[i] * ((i - |rec.inactiveEstimates| + 1) as real) == Sum(rec.eigEstimates[..i - |rec.inactiveEstimates| + 1])
    {
      rec.inactiveEstimates + rec.meanEigActive
    }

    /** The spread of each cycle's estimate: zero for the inactive cycles,
     *  then the variance of the mean of the active estimates so far about
     *  the mean MeanValues reports, never negative. */
    function StdDevValues(): (r: seq<real>)
      requires RecordsValid()
      reads this
      ensures |r| == |MeanValues()|
      ensures forall i :: 0 <= i < |rec.inactiveEstimates| ==> r[i] == 0.0
      ensures forall i :: |rec.inactiveEstimates| <= i < |r| ==>
        var j := i - |rec.inactiveEstimates| + 1;
        r[i] == Sum(Deviations(rec.eigEstimates[..j], MeanValues()[i])) / (j as real) / (j as real)
    {
      Zeros(|rec.inactiveEstimates|) + rec.varianceEig
    }
  }
}
