/** One zone of the linear-in-space fission source: a line y = m x + b over
 *  [xmin, xmax], fitted from scored moments. When the line crosses zero
 *  inside the zone it is split at the root into two non-negative halves
 *  (the "straddled" case). The state is given as a value (SpaceState) with
 *  the operations as functions, and the class LinearSpace holds the same
 *  state in fields and is proved against those functions. */
module LinearSpaces {
  import opened Wrappers
  import opened RealSums

  /** A line over an interval. */
  datatype Line = Line(m: real, b: real, xmin: real, xmax: real)

  function Y(l: Line, x: real): real
  {
    l.m * x + l.b
  }

  /** The signed area under the line over its interval, by the trapezoid
   *  rule (exact for a line). */
  function Area(l: Line): (a: real)
    ensures a == 0.5 * (l.xmax - l.xmin) * (Y(l, l.xmin) + Y(l, l.xmax))
  {
    0.5 * (l.xmax - l.xmin) * (2.0 * l.b + l.m * (l.xmax + l.xmin))
  }

  /** The tolerance below which the product of the end values counts as a
   *  sign change. */
  const StraddleTolerance: real := 0.00000000000001

  /** The line changes sign inside its interval. */
  predicate Straddles(l: Line)
  {
    Y(l, l.xmin) * Y(l, l.xmax) < -StraddleTolerance
  }

  /** The root of a line with a non-zero slope. */
  function Root(l: Line): real
    requires l.m != 0.0
  {
    -l.b / l.m
  }

  /** The two halves of a straddling line, both non-negative: the side that
   *  is positive keeps the line, the other side takes its negation. */
  function Halves(l: Line): (h: (Line, Line))
    requires Straddles(l)
    ensures l.m != 0.0
    ensures h.0.xmin == l.xmin && h.0.xmax == Root(l) && h.1.xmin == Root(l) && h.1.xmax == l.xmax
  {
    NonZeroSlope(l);
    var mid := Root(l);
    if l.m < 0.0 then (Line(l.m, l.b, l.xmin, mid), Line(-l.m, -l.b, mid, l.xmax))
    else (Line(-l.m, -l.b, l.xmin, mid), Line(l.m, l.b, mid, l.xmax))
  }

  lemma NonZeroSlope(l: Line)
    requires Straddles(l)
    ensures l.m != 0.0
  {
    FlatProduct(l);
  }

  lemma FlatProduct(l: Line)
    ensures l.m == 0.0 ==> Y(l, l.xmin) * Y(l, l.xmax) == l.b * l.b >= 0.0
  {
  }

  /** A line with a non-zero slope is its slope times the distance from
   *  its root. */
  lemma RootForm(l: Line, x: real)
    requires l.m != 0.0
    ensures Y(l, x) == l.m * (x - Root(l))
  {
    assert l.m * (l.b / l.m) == l.b;
  }

  lemma ProductSigns(a: real, c: real)
    ensures a >= 0.0 && c >= 0.0 ==> a * c >= 0.0
    ensures a <= 0.0 && c <= 0.0 ==> a * c >= 0.0
    ensures a >= 0.0 && c <= 0.0 ==> a * c <= 0.0
    ensures a <= 0.0 && c >= 0.0 ==> a * c <= 0.0
  {
  }

  /** Each half of a straddling line follows |y| on its side of the root,
   *  so both halves are non-negative and vanish at the root. */
  lemma HalvesFollowAbs(l: Line, x: real)
    requires Straddles(l)
    ensures var (left, right) := Halves(l);
      (x <= Root(l) ==> Y(left, x) == Abs(Y(l, x))) &&
      (x >= Root(l) ==> Y(right, x) == Abs(Y(l, x)))
  {
    var (left, right) := Halves(l);
    var mid := Root(l);
    RootForm(l, x);
    RootForm(left, x);
    RootForm(right, x);
    ProductSigns(l.m, x - mid);
    assert Root(left) == mid && Root(right) == mid;
  }

  /** The root of a straddling line lies strictly inside its interval. */
  lemma RootInside(l: Line)
    requires Straddles(l) && l.xmin < l.xmax
    ensures l.m != 0.0 && l.xmin < Root(l) < l.xmax
  {
    NonZeroSlope(l);
    var mid := Root(l);
    RootForm(l, l.xmin);
    RootForm(l, l.xmax);
    var d0, d1 := l.xmin - mid, l.xmax - mid;
    assert Y(l, l.xmin) * Y(l, l.xmax) == (l.m * l.m) * (d0 * d1);
    ProductSigns(d0, d1);
    PositiveSquare(l.m);
    ProductSigns(l.m * l.m, d0 * d1);
  }

  lemma PositiveSquare(a: real)
    requires a != 0.0
    ensures a * a > 0.0
  {
    if a < 0.0 {
      assert a * a == (-a) * (-a);
    }
  }

  /** Both halves of a straddling line enclose a positive area, and neither
   *  half straddles zero itself. */
  lemma HalvesPositive(l: Line)
    requires Straddles(l) && l.xmin < l.xmax
    ensures Area(Halves(l).0) > 0.0 && Area(Halves(l).1) > 0.0
    ensures !Straddles(Halves(l).0) && !Straddles(Halves(l).1)
  {
    RootInside(l);
    var (left, right) := Halves(l);
    var mid := Root(l);
    HalvesFollowAbs(l, l.xmin);
    HalvesFollowAbs(l, mid);
    HalvesFollowAbs(l, l.xmax);
    RootForm(l, mid);
    assert Y(l, l.xmin) != 0.0 && Y(l, l.xmax) != 0.0;
    assert Y(left, l.xmin) > 0.0 && Y(left, mid) == 0.0;
    assert Y(right, l.xmax) > 0.0 && Y(right, mid) == 0.0;
    PositiveProduct(0.5 * (mid - l.xmin), Y(left, l.xmin));
    PositiveProduct(0.5 * (l.xmax - mid), Y(right, l.xmax));
  }

  lemma PositiveProduct(a: real, c: real)
    requires a > 0.0 && c > 0.0
    ensures a * c > 0.0
  {
  }

  /** A line divided by a non-zero a. */
  function ScaledLine(l: Line, a: real): Line
    requires a != 0.0
  {
    Line(l.m / a, l.b / a, l.xmin, l.xmax)
  }

  /** Dividing the coefficients divides the area. */
  lemma AreaScaled(l: Line, a: real)
    requires a != 0.0
    ensures Area(ScaledLine(l, a)) == Area(l) / a
  {
    var s := ScaledLine(l, a);
    var k := 1.0 / a;
    assert s.m == l.m * k && s.b == l.b * k;
    assert 2.0 * s.b + s.m * (l.xmax + l.xmin) == (2.0 * l.b + l.m * (l.xmax + l.xmin)) * k;
    assert Area(s) == Area(l) * k;
  }

  // ---------------------------------------------------------------------
  // The state of a space

  datatype SpaceState = SpaceState(
    line: Line,
    /** Scored weight, later the magnitude. */
    alpha: real,
    /** First moment about the midpoint, and its square. */
    beta: real, betaSq: real,
    /** The last first-moment contribution. */
    value: real,
    /** The share of the left end in the sum of the end values; None when
     *  that sum is zero (a division by zero in the source). */
    yRatio: Option<real>,
    straddled: bool,
    left: Line, right: Line,
    pLeft: real, pRight: real)

  /** The midpoint of the zone. */
  function Mid(s: SpaceState): real
  {
    (s.line.xmax + s.line.xmin) / 2.0
  }

  /** The facts every state keeps: a proper zone, and side probabilities
   *  that are non-negative and not both zero once the line is split. */
  predicate WellFormed(s: SpaceState)
  {
    s.line.xmin < s.line.xmax && s.pLeft >= 0.0 && s.pRight >= 0.0 &&
    (s.straddled ==> s.pLeft + s.pRight > 0.0)
  }

  /** A space with a zero line over [xmin, xmax]. */
  function Initial(xmin: real, xmax: real): (s: SpaceState)
    requires xmin < xmax
    ensures WellFormed(s) && s.line == Line(0.0, 0.0, xmin, xmax) && !s.straddled
  {
    SpaceState(Line(0.0, 0.0, xmin, xmax), 0.0, 0.0, 0.0, 0.0, None, false,
      Line(0.0, 0.0, 0.0, 0.0), Line(0.0, 0.0, 0.0, 0.0), 0.0, 0.0)
  }

  /** A space with the given line; the scored weight starts at the
   *  intercept and the first moment at the slope. */
  function WithLine(slope: real, intercept: real, xmin: real, xmax: real): (s: SpaceState)
    requires xmin < xmax
    ensures WellFormed(s) && s.line == Line(slope, intercept, xmin, xmax) && !s.straddled
  {
    SpaceState(Line(slope, intercept, xmin, xmax), intercept, slope, 0.0, 0.0, None, false,
      Line(0.0, 0.0, 0.0, 0.0), Line(0.0, 0.0, 0.0, 0.0), 0.0, 0.0)
  }

  /** Scoring weight w at position x. */
  function Scored(s: SpaceState, x: real, w: real): (t: SpaceState)
    ensures WellFormed(s) ==> WellFormed(t)
  {
    var v := w * (x - Mid(s));
    s.(alpha := s.alpha + w, value := v, beta := s.beta + v, betaSq := s.betaSq + v * v)
  }

  /** A score: a position and a weight. */
  datatype Tally = Tally(x: real, w: real)

  /** Scoring a sequence of tallies in order. */
  function ScoredAll(s: SpaceState, ts: seq<Tally>): SpaceState
    decreases |ts|
  {
    if ts == [] then s
    else var last := ts[|ts| - 1]; Scored(ScoredAll(s, ts[..|ts| - 1]), last.x, last.w)
  }

  function TallyWeights(ts: seq<Tally>): (r: seq<real>)
    ensures |r| == |ts| && forall i :: 0 <= i < |ts| ==> r[i] == ts[i].w
  {
    seq(|ts|, i requires 0 <= i < |ts| => ts[i].w)
  }

  /** The first moment of one score about mid. */
  function Moment(t: Tally, mid: real): real
  {
    t.w * (t.x - mid)
  }

  function TallyMoments(ts: seq<Tally>, mid: real): (r: seq<real>)
    ensures |r| == |ts| && forall i :: 0 <= i < |ts| ==> r[i] == Moment(ts[i], mid)
  {
    seq(|ts|, i requires 0 <= i < |ts| => Moment(ts[i], mid))
  }

  lemma TallySnoc(ts: seq<Tally>, mid: real)
    requires ts != []
    ensures var n := |ts| - 1;
      TallyWeights(ts)[..n] == TallyWeights(ts[..n]) && TallyWeights(ts)[n] == ts[n].w &&
      TallyMoments(ts, mid)[..n] == TallyMoments(ts[..n], mid) &&
      TallyMoments(ts, mid)[n] == Moment(ts[n], mid)
  {
  }

  /** The accumulators hold the total weight and the total first moment
   *  about the midpoint of everything scored, and the line is untouched. */
  lemma {:induction false} ScoresAccumulate(s: SpaceState, ts: seq<Tally>)
    ensures var t := ScoredAll(s, ts);
      t.line == s.line && t.straddled == s.straddled &&
      t.alpha == s.alpha + Sum(TallyWeights(ts)) &&
      t.beta == s.beta + Sum(TallyMoments(ts, Mid(s)))
    decreases |ts|
  {
    if ts != [] {
      var n := |ts| - 1;
      ScoresAccumulate(s, ts[..n]);
      TallySnoc(ts, Mid(s));
      var t0 := ScoredAll(s, ts[..n]);
      assert Mid(t0) == Mid(s);
      assert ScoredAll(s, ts) == Scored(t0, ts[n].x, ts[n].w);
    }
  }

  /** Turns the accumulated moments of n histories into the fitted line. */
  function PostScored(s: SpaceState, n: int): (t: SpaceState)
    requires n != 0 && s.line.xmin < s.line.xmax
    ensures WellFormed(s) ==> WellFormed(t)
    ensures t.line.xmin == s.line.xmin && t.line.xmax == s.line.xmax
  {
    var l := s.line;
    var w := l.xmax - l.xmin;
    var beta := s.beta / n as real;
    var m := 12.0 / (w * w * w) * beta;
    var b := (s.alpha / n as real - m * 0.5 * (l.xmax * l.xmax - l.xmin * l.xmin)) / w;
    s.(beta := beta, betaSq := s.betaSq / n as real, line := Line(m, b, l.xmin, l.xmax))
  }

  /** The fitted line reproduces the scored moments per history: its area
   *  is the mean weight and its first moment about the midpoint, w^3 m / 12,
   *  is the mean first moment. */
  lemma PostScoringMoments(s: SpaceState, n: int)
    requires n != 0 && s.line.xmin < s.line.xmax
    ensures var t := PostScored(s, n); var w := s.line.xmax - s.line.xmin;
      Area(t.line) == s.alpha / n as real &&
      t.line.m * (w * w * w) / 12.0 == s.beta / n as real
  {
    var t := PostScored(s, n);
    var l := s.line;
    var x0, x1 := l.xmin, l.xmax;
    var w := x1 - x0;
    var m, b := t.line.m, t.line.b;
    var mean := s.alpha / n as real;
    var k := m * 0.5 * (x1 * x1 - x0 * x0);
    assert b == (mean - k) / w;
    assert w * b == mean - k;
    assert Area(t.line) == w * b + m * 0.5 * (x1 + x0) * w;
    assert (x1 + x0) * w == x1 * x1 - x0 * x0;
    assert m * 0.5 * (x1 + x0) * w == k;
    var w3 := w * w * w;
    PositiveProduct(w * w, w);
    assert m == 12.0 / w3 * (s.beta / n as real);
  }

  /** The total area of the space: the two side areas once the line is
   *  split (splitting it on the first straddling call), otherwise the
   *  absolute area. Returns the new state with the magnitude. */
  function WithMagnitude(s: SpaceState): (r: (SpaceState, real))
    requires WellFormed(s)
    ensures WellFormed(r.0) && r.1 >= 0.0 && r.0.line == s.line
    ensures r.0.straddled <==> s.straddled || Straddles(s.line)
  {
    if Straddles(s.line) then
      if !s.straddled then
        var (left, right) := Halves(s.line);
        HalvesPositive(s.line);
        var t := s.(straddled := true, left := left, right := right,
                    pLeft := Abs(Area(left)), pRight := Abs(Area(right)));
        (t, t.pLeft + t.pRight)
      else (s, s.pLeft + s.pRight)
    else (s, Abs(Area(s.line)))
  }

  /** A newly split line's side probabilities are the areas under |y| on
   *  each side of the root. */
  lemma SplitAreas(s: SpaceState)
    requires WellFormed(s) && !s.straddled && Straddles(s.line)
    ensures var (t, a) := WithMagnitude(s);
      t.straddled && t.pLeft == Area(Halves(s.line).0) && t.pRight == Area(Halves(s.line).1) &&
      t.pLeft > 0.0 && t.pRight > 0.0 && a == t.pLeft + t.pRight
  {
    HalvesPositive(s.line);
  }

  /** The normalisation of a half: divided by its absolute area unless
   *  that is zero. */
  function NormalizedLine(l: Line): Line
  {
    var a := Abs(Area(l));
    if a != 0.0 then ScaledLine(l, a) else l
  }

  /** Normalisation: the line is divided by the magnitude (when non-zero),
   *  which becomes the weight; the end-value ratio is recomputed; a split
   *  space rescales its side probabilities to sum to one and normalises
   *  its halves. */
  function Normalized(s: SpaceState): (t: SpaceState)
    requires WellFormed(s)
    ensures WellFormed(t) && t.straddled == WithMagnitude(s).0.straddled
  {
    var (u, a) := WithMagnitude(s);
    var line := if a != 0.0 then ScaledLine(u.line, a) else u.line;
    var alpha := if a != 0.0 then a else u.alpha;
    var ends := Y(line, line.xmin) + Y(line, line.xmax);
    var ratio := if ends != 0.0 then Some(Y(line, line.xmin) / ends) else None;
    var v := u.(line := line, alpha := alpha, yRatio := ratio);
    if v.straddled then
      var total := v.pLeft + v.pRight;
      v.(pLeft := v.pLeft / total, pRight := v.pRight / total,
         left := NormalizedLine(v.left), right := NormalizedLine(v.right))
    else v
  }

  /** After normalisation a split space picks a side with probabilities
   *  summing to one, an unsplit one with a non-zero magnitude has unit
   *  absolute area, and the weight becomes the magnitude. */
  lemma NormalizedUnit(s: SpaceState)
    requires WellFormed(s)
    ensures var (u, a) := WithMagnitude(s); var t := Normalized(s);
      (t.straddled ==> t.pLeft + t.pRight == 1.0 && t.pLeft >= 0.0 && t.pRight >= 0.0) &&
      (!t.straddled && a != 0.0 ==> Abs(Area(t.line)) == 1.0) &&
      (a != 0.0 ==> t.alpha == a)
  {
    var (u, a) := WithMagnitude(s);
    var t := Normalized(s);
    if t.straddled {
      ShareSum(u.pLeft, u.pRight);
    } else if a != 0.0 {
      AreaScaled(u.line, a);
      assert a == Abs(Area(u.line));
      AbsQuotient(Area(u.line));
    }
  }

  lemma AbsQuotient(x: real)
    requires x != 0.0
    ensures Abs(x / Abs(x)) == 1.0
  {
    if x < 0.0 {
      assert x / -x == -1.0;
    } else {
      assert x / x == 1.0;
    }
  }

  /** Two non-negative parts with a positive total, each divided by the
   *  total, are non-negative and sum to one. */
  lemma ShareSum(p: real, q: real)
    requires p >= 0.0 && q >= 0.0 && p + q > 0.0
    ensures p / (p + q) >= 0.0 && q / (p + q) >= 0.0
    ensures p / (p + q) + q / (p + q) == 1.0
  {
    var t := p + q;
    assert p / t + q / t == (p + q) / t;
  }

  /** A normalised half has unit area: halves are non-negative, so their
   *  area is their magnitude. */
  lemma NormalizedHalfUnit(l: Line)
    requires Straddles(l) && l.xmin < l.xmax
    ensures Area(NormalizedLine(Halves(l).0)) == 1.0
    ensures Area(NormalizedLine(Halves(l).1)) == 1.0
  {
    HalvesPositive(l);
    var (left, right) := Halves(l);
    var al, ar := Area(left), Area(right);
    assert Abs(al) == al && Abs(ar) == ar;
    assert NormalizedLine(left) == ScaledLine(left, al);
    assert NormalizedLine(right) == ScaledLine(right, ar);
    AreaScaled(left, al);
    AreaScaled(right, ar);
    SelfQuotient(al);
    SelfQuotient(ar);
  }

  // ---------------------------------------------------------------------
  // The space as an object

  class LinearSpace {
    var m: real
    var b: real
    const xmin: real
    const xmax: real
    var alpha: real
    var beta: real
    var betaSq: real
    var value: real
    var yRatio: Option<real>
    var straddled: bool
    var left: Line
    var right: Line
    var pLeft: real
    var pRight: real

    function State(): SpaceState
      reads this
    {
      SpaceState(Line(m, b, xmin, xmax), alpha, beta, betaSq, value, yRatio, straddled,
        left, right, pLeft, pRight)
    }

    /** A space with a zero line. */
    constructor (xminIn: real, xmaxIn: real)
      requires xminIn < xmaxIn
      ensures State() == Initial(xminIn, xmaxIn)
    {
      m, b, xmin, xmax := 0.0, 0.0, xminIn, xmaxIn;
      alpha, beta, betaSq, value := 0.0, 0.0, 0.0, 0.0;
      yRatio, straddled := None, false;
      left, right := Line(0.0, 0.0, 0.0, 0.0), Line(0.0, 0.0, 0.0, 0.0);
      pLeft, pRight := 0.0, 0.0;
    }

    /** A space with the given slope and intercept. */
    constructor Coefficients(slope: real, intercept: real, xminIn: real, xmaxIn: real)
      requires xminIn < xmaxIn
      ensures State() == WithLine(slope, intercept, xminIn, xmaxIn)
    {
      m, b, xmin, xmax := slope, intercept, xminIn, xmaxIn;
      alpha, beta, betaSq, value := intercept, slope, 0.0, 0.0;
      yRatio, straddled := None, false;
      left, right := Line(0.0, 0.0, 0.0, 0.0), Line(0.0, 0.0, 0.0, 0.0);
      pLeft, pRight := 0.0, 0.0;
    }

    /** The scored weight (the magnitude once normalised). */
    function Magnitude(): (r: real)
      reads this
      ensures r == State().alpha
    {
      alpha
    }

    method Score(x: real, w: real)
      modifies this
      ensures State() == Scored(old(State()), x, w)
    {
      ghost var s0 := State();
      var mid := (xmax + xmin) / 2.0;
      assert mid == Mid(s0);
      var v := w * (x - mid);
      var sq := v * v;
      alpha := alpha + w;
      value := v;
      beta := beta + v;
      betaSq := betaSq + sq;
      assert State() == s0.(alpha := s0.alpha + w, value := v, beta := s0.beta + v, betaSq := s0.betaSq + sq);
    }

    method PostScoring(n: int)
      requires n != 0 && xmin < xmax
      modifies this
      ensures State() == PostScored(old(State()), n)
    {
      beta := beta / n as real;
      betaSq := betaSq / n as real;
      var w := xmax - xmin;
      m := 12.0 / (w * w * w) * beta;
      b := (alpha / n as real - m * 0.5 * (xmax * xmax - xmin * xmin)) / w;
    }

    /** The total area, splitting the line on the first call that finds it
     *  straddling zero. */
    method TotalArea() returns (a: real)
      requires WellFormed(State())
      modifies this
      ensures State() == WithMagnitude(old(State())).0
      ensures a == WithMagnitude(old(State())).1
    {
      var l := Line(m, b, xmin, xmax);
      if Y(l, xmin) * Y(l, xmax) < -StraddleTolerance {
        if !straddled {
          straddled := true;
          var halves := Halves(l);
          left, right := halves.0, halves.1;
          pLeft := Abs(Area(left));
          pRight := Abs(Area(right));
        }
        a := pLeft + pRight;
      } else {
        a := Abs(Area(l));
      }
    }

    method Normalize()
      requires WellFormed(State())
      modifies this
      ensures State() == Normalized(old(State()))
    {
      var a := TotalArea();
      if a != 0.0 {
        m := m / a;
        b := b / a;
        alpha := a;
      }
      var l := Line(m, b, xmin, xmax);
      var ends := Y(l, xmin) + Y(l, xmax);
      yRatio := if ends != 0.0 then Some(Y(l, xmin) / ends) else None;
      if straddled {
        var total := pLeft + pRight;
        pLeft := pLeft / total;
        pRight := pRight / total;
        left := NormalizedLine(left);
        right := NormalizedLine(right);
      }
    }
  }
}
