/** The linear-in-space fission source: one LinearSpace per zone of the
 *  mesh, with a distribution function over the zones built from the
 *  spaces' magnitudes. */
module LinearSpaceSources {
  import opened Wrappers
  import opened RealSums
  import opened LinearSpaces
  import opened HistSources

  /** Slopes and intercepts, interleaved: slope of zone 0, intercept of
   *  zone 0, slope of zone 1, ... */
  function Interleaved(lines: seq<Line>): (r: seq<real>)
    ensures |r| == 2 * |lines|
    ensures forall i :: 0 <= i < |lines| ==> r[2 * i] == lines[i].m && r[2 * i + 1] == lines[i].b
  {
    if lines == [] then []
    else [lines[0].m, lines[0].b] + Interleaved(lines[1..])
  }

  /** The slope of zone i from interleaved coefficients. */
  function SlopeAt(c: seq<real>, i: nat): real
    requires 2 * i + 1 < |c|
  {
    c[2 * i]
  }

  /** The intercept of zone i from interleaved coefficients. */
  function InterceptAt(c: seq<real>, i: nat): real
    requires 2 * i + 1 < |c|
  {
    c[2 * i + 1]
  }

  /** Reading interleaved coefficients back gives each zone its own slope
   *  and intercept. */
  lemma InterleavedRoundTrip(lines: seq<Line>, i: nat)
    requires i < |lines|
    ensures SlopeAt(Interleaved(lines), i) == lines[i].m
    ensures InterceptAt(Interleaved(lines), i) == lines[i].b
  {
  }

  /** The lines of a sequence of states. */
  function LinesOf(ss: seq<SpaceState>): (r: seq<Line>)
    ensures |r| == |ss| && forall i :: 0 <= i < |ss| ==> r[i] == ss[i].line
  {
    seq(|ss|, i requires 0 <= i < |ss| => ss[i].line)
  }

  /** The magnitudes the spaces report when asked for their total area. */
  function Magnitudes(ss: seq<SpaceState>): (r: seq<real>)
    requires forall i :: 0 <= i < |ss| ==> WellFormed(ss[i])
    ensures |r| == |ss| && forall i :: 0 <= i < |ss| ==> r[i] == WithMagnitude(ss[i]).1 && r[i] >= 0.0
  {
    seq(|ss|, i requires 0 <= i < |ss| && WellFormed(ss[i]) => WithMagnitude(ss[i]).1)
  }

  /** The scored weights of the spaces. */
  function Alphas(ss: seq<SpaceState>): (r: seq<real>)
    ensures |r| == |ss| && forall i :: 0 <= i < |ss| ==> r[i] == ss[i].alpha
  {
    seq(|ss|, i requires 0 <= i < |ss| => ss[i].alpha)
  }

  /** The distribution function over the zones is a proper one: it never
   *  decreases, stays within [0, 1] and ends at one, so every draw in
   *  [0, 1] selects a zone. */
  lemma ZoneCdfShape(ss: seq<SpaceState>, p: real)
    requires |ss| > 0 && forall i :: 0 <= i < |ss| ==> WellFormed(ss[i])
    requires Sum(Magnitudes(ss)) != 0.0
    requires 0.0 <= p <= 1.0
    ensures var c := Shares(Magnitudes(ss));
      (forall i, j :: 0 <= i <= j < |c| ==> 0.0 <= c[i] <= c[j] <= 1.0) &&
      c[|c| - 1] == 1.0 &&
      FirstReaching(c, p) < |c|
  {
    var mags := Magnitudes(ss);
    var c := Shares(mags);
    SharesSorted(mags);
    SharesEndAtOne(mags);
    FirstReachingSpec(c, p);
    assert Abs(c[|c| - 1]) == 1.0;
  }

  /** The running sums of the absolute values of p, starting from p[0]
   *  itself; for non-negative p these are its prefix sums. */
  method Accumulate(p: array<real>, c: array<real>)
    requires p.Length == c.Length > 0 && p != c
    requires forall k :: 0 <= k < p.Length ==> p[k] >= 0.0
    modifies c
    ensures c[..] == PrefixSums(p[..])
  {
    ghost var spec := PrefixSums(p[..]);
    PrefixSumSteps(p[..], 0);
    c[0] := p[0];
    var i := 1;
    while i < c.Length
      invariant 1 <= i <= c.Length
      invariant forall k :: 0 <= k < i ==> c[k] == spec[k]
    {
      PrefixSumSteps(p[..], i);
      c[i] := c[i - 1] + Abs(p[i]);
      i := i + 1;
    }
  }

  /** Fresh spaces over the zones with edges edges, each with the line
   *  given by line(i). */
  method MakeSpaces(edges: seq<real>, slopes: seq<real>, intercepts: seq<real>)
    returns (sps: seq<LinearSpace>)
    requires Geometry(edges) && |slopes| == |intercepts| == |edges| - 1
    ensures |sps| == |edges| - 1
    ensures forall i, j :: 0 <= i < j < |sps| ==> sps[i] != sps[j]
    ensures forall i :: 0 <= i < |sps| ==> fresh(sps[i])
    ensures forall i :: 0 <= i < |sps| ==> sps[i].xmin == edges[i] && sps[i].xmax == edges[i + 1]
    ensures forall i :: 0 <= i < |sps| ==>
      sps[i].State() == WithLine(slopes[i], intercepts[i], edges[i], edges[i + 1])
    ensures forall i :: 0 <= i < |sps| ==> WellFormed(sps[i].State())
  {
    sps := [];
    var i := 0;
    while i < |edges| - 1
      invariant 0 <= i <= |edges| - 1 && |sps| == i
      invariant forall a, b :: 0 <= a < b < i ==> sps[a] != sps[b]
      invariant forall a :: 0 <= a < i ==> fresh(sps[a])
      invariant forall a :: 0 <= a < i ==> sps[a].xmin == edges[a] && sps[a].xmax == edges[a + 1]
      invariant forall a :: 0 <= a < i ==>
        sps[a].State() == WithLine(slopes[a], intercepts[a], edges[a], edges[a + 1])
      invariant forall a :: 0 <= a < i ==> WellFormed(sps[a].State())
    {
      var s := new LinearSpace.Coefficients(slopes[i], intercepts[i], edges[i], edges[i + 1]);
      sps := sps + [s];
      i := i + 1;
    }
  }

  /** The states of a sequence of spaces. */
  ghost function StatesOf(sps: seq<LinearSpace>): (ss: seq<SpaceState>)
    reads set s | s in sps
    ensures |ss| == |sps| && forall i :: 0 <= i < |sps| ==> ss[i] == sps[i].State()
  {
    seq(|sps|, i requires 0 <= i < |sps| reads set s | s in sps => sps[i].State())
  }

  predicate Distinct(sps: seq<LinearSpace>)
  {
    forall i, j :: 0 <= i < j < |sps| ==> sps[i] != sps[j]
  }

  /** Fits every space from its moments over n histories. */
  method PostScoreAll(sps: seq<LinearSpace>, n: int)
    requires Distinct(sps) && n != 0
    requires forall i :: 0 <= i < |sps| ==> sps[i].xmin < sps[i].xmax
    requires forall i :: 0 <= i < |sps| ==> WellFormed(sps[i].State())
    modifies set s | s in sps
    ensures forall i :: 0 <= i < |sps| ==> sps[i].State() == PostScored(old(sps[i].State()), n)
    ensures forall i :: 0 <= i < |sps| ==> WellFormed(sps[i].State())
  {
    ghost var olds := StatesOf(sps);
    var i := 0;
    while i < |sps|
      invariant 0 <= i <= |sps|
      invariant forall j :: 0 <= j < i ==> sps[j].State() == PostScored(olds[j], n)
      invariant forall j :: i <= j < |sps| ==> sps[j].State() == olds[j]
    {
      sps[i].PostScoring(n);
      i := i + 1;
    }
  }

  /** Asks every space for its total area; returns the areas and their
   *  sum. */
  method TotalAreas(sps: seq<LinearSpace>) returns (mags: seq<real>, magSum: real)
    requires Distinct(sps)
    requires forall i :: 0 <= i < |sps| ==> WellFormed(sps[i].State())
    modifies set s | s in sps
    ensures forall i :: 0 <= i < |sps| ==> sps[i].State() == WithMagnitude(old(sps[i].State())).0
    ensures forall i :: 0 <= i < |sps| ==> WellFormed(sps[i].State())
    ensures mags == Magnitudes(old(StatesOf(sps)))
    ensures magSum == Sum(mags)
  {
    ghost var olds := StatesOf(sps);
    ghost var spec := Magnitudes(olds);
    mags, magSum := [], 0.0;
    var i := 0;
    while i < |sps|
      invariant 0 <= i <= |sps| && |mags| == i
      invariant forall j :: 0 <= j < i ==> sps[j].State() == WithMagnitude(olds[j]).0
      invariant forall j :: i <= j < |sps| ==> sps[j].State() == olds[j]
      invariant forall j :: 0 <= j < i ==> mags[j] == spec[j]
      invariant magSum == Sum(spec[..i])
    {
      PrefixSumSteps(spec, i);
      var a := sps[i].TotalArea();
      mags := mags + [a];
      magSum := magSum + a;
      i := i + 1;
    }
    assert spec[..|sps|] == spec;
  }

  /** Writes the entries of d divided by t into a. */
  method DivideInto(a: array<real>, d: seq<real>, t: real)
    requires a.Length == |d| && t != 0.0
    modifies a
    ensures a[..] == Scaled(d, t)
  {
    var i := 0;
    while i < a.Length
      invariant 0 <= i <= a.Length
      invariant forall k :: 0 <= k < i ==> a[k] == d[k] / t
    {
      a[i] := d[i] / t;
      i := i + 1;
    }
  }

  /** Normalises every space. */
  method NormalizeAll(sps: seq<LinearSpace>)
    requires Distinct(sps)
    requires forall i :: 0 <= i < |sps| ==> WellFormed(sps[i].State())
    modifies set s | s in sps
    ensures forall i :: 0 <= i < |sps| ==> sps[i].State() == Normalized(old(sps[i].State()))
    ensures forall i :: 0 <= i < |sps| ==> WellFormed(sps[i].State())
  {
    ghost var olds := StatesOf(sps);
    var i := 0;
    while i < |sps|
      invariant 0 <= i <= |sps|
      invariant forall j :: 0 <= j < i ==> sps[j].State() == Normalized(olds[j])
      invariant forall j :: i <= j < |sps| ==> sps[j].State() == olds[j]
    {
      sps[i].Normalize();
      i := i + 1;
    }
  }

  class LinearSpaceSource {
    /** The node positions of the mesh. */
    const edges: seq<real>
    /** One space per zone. */
    const spaces: seq<LinearSpace>
    /** The normalised zone magnitudes and their running sums. */
    const pdf: array<real>
    const cdf: array<real>

    function Spaces(): set<LinearSpace>
    {
      set s | s in spaces
    }

    /** The structure that never changes: one distinct space per zone,
     *  covering that zone, and one distribution entry per zone. */
    predicate Layout()
    {
      Geometry(edges) && |spaces| == |edges| - 1 &&
      pdf.Length == |spaces| && cdf.Length == |spaces| && pdf != cdf && Distinct(spaces) &&
      (forall i :: 0 <= i < |spaces| ==> spaces[i].xmin == edges[i] && spaces[i].xmax == edges[i + 1])
    }

    ghost predicate Valid()
      reads Spaces()
    {
      Layout() && forall i :: 0 <= i < |spaces| ==> WellFormed(spaces[i].State())
    }

    /** The states of the spaces, zone by zone. */
    ghost function States(): (ss: seq<SpaceState>)
      reads Spaces()
      ensures |ss| == |spaces| && forall i :: 0 <= i < |spaces| ==> ss[i] == spaces[i].State()
    {
      StatesOf(spaces)
    }

    /** A source with a zero line in every zone. */
    constructor (edgesIn: seq<real>)
      requires Geometry(edgesIn)
      ensures Valid() && edges == edgesIn
      ensures forall i :: 0 <= i < |spaces| ==> spaces[i].State() == Initial(edges[i], edges[i + 1])
    {
      var n := |edgesIn| - 1;
      var zeros := seq(n, _ => 0.0);
      var sps := MakeSpaces(edgesIn, zeros, zeros);
      edges, spaces := edgesIn, sps;
      pdf := new real[n];
      cdf := new real[n];
    }

    /** A source with the given slope and intercept in each zone. */
    constructor FromLines(slopes: seq<real>, intercepts: seq<real>, edgesIn: seq<real>)
      requires Geometry(edgesIn)
      requires |slopes| == |intercepts| == |edgesIn| - 1
      ensures Valid() && edges == edgesIn
      ensures forall i :: 0 <= i < |spaces| ==>
        spaces[i].State() == WithLine(slopes[i], intercepts[i], edges[i], edges[i + 1])
    {
      var sps := MakeSpaces(edgesIn, slopes, intercepts);
      edges, spaces := edgesIn, sps;
      pdf := new real[|edgesIn| - 1];
      cdf := new real[|edgesIn| - 1];
    }

    /** A source from interleaved coefficients: two per zone, slope first. */
    constructor FromCoefficients(edgesIn: seq<real>, coefficients: seq<real>)
      requires Geometry(edgesIn)
      requires |coefficients| >= 2 * (|edgesIn| - 1)
      ensures Valid() && edges == edgesIn
      ensures forall i :: 0 <= i < |spaces| ==>
        spaces[i].State() == WithLine(SlopeAt(coefficients, i), InterceptAt(coefficients, i),
                                      edges[i], edges[i + 1])
    {
      var n := |edgesIn| - 1;
      var slopes := seq(n, i requires 0 <= i < n => coefficients[2 * i]);
      var intercepts := seq(n, i requires 0 <= i < n => coefficients[2 * i + 1]);
      var sps := MakeSpaces(edgesIn, slopes, intercepts);
      edges, spaces := edgesIn, sps;
      pdf := new real[n];
      cdf := new real[n];
    }

    /** The total scored weight over all zones. */
    method Magnitude() returns (mag: real)
      requires Layout()
      ensures mag == Sum(Alphas(States()))
    {
      ghost var al := Alphas(States());
      mag := 0.0;
      var i := 0;
      while i < |spaces|
        invariant 0 <= i <= |spaces| && mag == Sum(al[..i])
      {
        PrefixSumSteps(al, i);
        mag := mag + spaces[i].Magnitude();
        i := i + 1;
      }
      assert al[..|spaces|] == al;
    }

    /** Scores weight w at x into the zone holding x; nothing else
     *  changes. */
    method Score(x: real, w: real)
      requires Valid() && 0.0 <= x <= edges[|edges| - 1]
      modifies Spaces()
      ensures Valid()
      ensures var z := ZoneOf(edges, x);
        forall i :: 0 <= i < |spaces| ==>
          spaces[i].State() == if i == z then Scored(old(spaces[i].State()), x, w) else old(spaces[i].State())
    {
      var z := FindZone(edges, x);
      spaces[z].Score(x, w);
    }

    /** Fits the line of every zone from its moments over n histories. */
    method PostScoring(n: int)
      requires Valid() && n != 0
      modifies Spaces()
      ensures Valid()
      ensures forall i :: 0 <= i < |spaces| ==> spaces[i].State() == PostScored(old(spaces[i].State()), n)
    {
      PostScoreAll(spaces, n);
    }

    /** Builds the distribution over the zones: each zone's magnitude (its
     *  space splitting its line on the way when it straddles zero),
     *  divided by their sum, and the running sums of those. */
    method MakeDistributionFunctions()
      requires Valid() && Sum(Magnitudes(States())) != 0.0
      modifies Spaces(), pdf, cdf
      ensures Valid()
      ensures forall i :: 0 <= i < |spaces| ==> spaces[i].State() == WithMagnitude(old(spaces[i].State())).0
      ensures var mags := Magnitudes(old(States()));
        pdf[..] == Scaled(mags, Sum(mags)) && cdf[..] == Shares(mags)
    {
      ghost var olds := States();
      var mags, magSum := TotalAreas(spaces);
      assert mags == Magnitudes(olds) && Valid();
      ghost var news := States();
      SumNonNegative(mags);
      ScaledNonNegative(mags, magSum);
      DivideInto(pdf, mags, magSum);
      Accumulate(pdf, cdf);
      assert States() == news;
    }

    /** Normalises the source: builds the distribution over the zones, then
     *  normalises every space. */
    method Normalize()
      requires Valid() && Sum(Magnitudes(States())) != 0.0
      modifies Spaces(), pdf, cdf
      ensures Valid()
      ensures forall i :: 0 <= i < |spaces| ==>
        spaces[i].State() == Normalized(WithMagnitude(old(spaces[i].State())).0)
      ensures var mags := Magnitudes(old(States()));
        pdf[..] == Scaled(mags, Sum(mags)) && cdf[..] == Shares(mags)
    {
      MakeDistributionFunctions();
      NormalizeAll(spaces);
    }

    /** The interleaved slopes and intercepts of the zones. */
    method Coefficients() returns (r: seq<real>)
      requires Layout()
      ensures r == Interleaved(LinesOf(States()))
    {
      ghost var lines := LinesOf(States());
      r := [];
      var i := |spaces|;
      while i > 0
        invariant 0 <= i <= |spaces|
        invariant r == Interleaved(lines[i..])
      {
        i := i - 1;
        assert lines[i..][1..] == lines[i + 1..];
        r := [spaces[i].m, spaces[i].b] + r;
      }
    }

    /** Picks the first zone whose distribution entry reaches the draw p,
     *  and weights the position x that zone's sampler returns by the sign
     *  of the zone's line there. */
    method Sample(p: real, x: real) returns (zone: nat, weight: real)
      requires Layout() && exists i :: 0 <= i < cdf.Length && p <= Abs(cdf[i])
      ensures zone == FirstReaching(cdf[..], p) && zone < |spaces|
      ensures weight == if Y(spaces[zone].State().line, x) < 0.0 then -1.0 else 1.0
    {
      FirstReachingSpec(cdf[..], p);
      zone := 0;
      while p > Abs(cdf[zone])
        invariant 0 <= zone <= FirstReaching(cdf[..], p)
        invariant forall k :: 0 <= k < zone ==> Abs(cdf[k]) < p
        decreases FirstReaching(cdf[..], p) - zone
      {
        zone := zone + 1;
      }
      weight := if spaces[zone].m * x + spaces[zone].b < 0.0 then -1.0 else 1.0;
    }
  }
}
