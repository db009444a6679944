/** The histogram fission source: one bin per zone of a source mesh, a
 *  cumulative distribution built from the absolute bin values, sampling by
 *  the first bin whose cumulative value reaches a random draw, and scoring
 *  into the bin that contains a position. Random draws are parameters. */
module HistSources {
  import opened Wrappers
  import opened RealSums
  import opened Fields
  import CartesianMesh

  /** A sampled source site: its position and its weight of +1 or -1. */
  datatype Site = Site(x: real, weight: real)

  /** The node positions of a source mesh: at least one zone, starting at
   *  a non-negative left node and strictly increasing. */
  predicate Geometry(edges: seq<real>)
  {
    && |edges| >= 2 && edges[0] >= 0.0
    && (forall i, j :: 0 <= i < j < |edges| ==> edges[i] < edges[j])
  }

  /** The zone holding x, as the mesh's position lookup finds it: the
   *  first zone whose right node is not left of x. Inside the mesh, x lies
   *  in (left, right] of that zone, or in the closed first zone. */
  function ZoneOf(edges: seq<real>, x: real): (z: nat)
    requires Geometry(edges) && 0.0 <= x <= edges[|edges| - 1]
    ensures z < |edges| - 1
    ensures x <= edges[z + 1]
    ensures z > 0 ==> edges[z] < x
  {
    var rs := edges[1..];
    CartesianMesh.FirstAtLeastSpec(rs, x);
    var z := CartesianMesh.FirstAtLeast(rs, x);
    assert rs[|rs| - 1] == edges[|edges| - 1];
    assert z > 0 ==> rs[z - 1] == edges[z];
    z
  }

  /** The position lookup: a binary search over the right nodes. */
  method FindZone(edges: seq<real>, x: real) returns (z: nat)
    requires Geometry(edges) && 0.0 <= x <= edges[|edges| - 1]
    ensures z == ZoneOf(edges, x) && z < |edges| - 1
  {
    var rs := edges[1..];
    assert forall i, j :: 0 <= i < j < |rs| ==> rs[i] <= rs[j] by {
      forall i, j | 0 <= i < j < |rs|
        ensures rs[i] <= rs[j]
      {
        assert rs[i] == edges[i + 1] && rs[j] == edges[j + 1];
      }
    }
    z := CartesianMesh.LowerBound(rs, x);
  }

  /** The absolute values of the entries of s. */
  function AbsAll(s: seq<real>): (r: seq<real>)
    ensures |r| == |s| && forall i :: 0 <= i < |s| ==> r[i] >= 0.0
  {
    seq(|s|, i requires 0 <= i < |s| => Abs(s[i]))
  }

  /** The magnitude of a histogram: the sum of its absolute bin values. */
  function Magnitude(d: seq<real>): (m: real)
    ensures m >= 0.0
  {
    SumNonNegative(AbsAll(d));
    Sum(AbsAll(d))
  }

  /** The probability of each bin: its absolute value over the total. */
  function Pdf(d: seq<real>, total: real): (p: seq<real>)
    requires total != 0.0
    ensures |p| == |d| && forall i :: 0 <= i < |p| ==> p[i] >= 0.0
  {
    seq(|d|, i requires 0 <= i < |d| => Abs(d[i] / total))
  }

  /** With a positive total the probabilities are the absolute values
   *  scaled by the total. */
  lemma PdfScaled(d: seq<real>, total: real)
    requires total > 0.0
    ensures Pdf(d, total) == Scaled(AbsAll(d), total)
  {
    forall i | 0 <= i < |d|
      ensures Pdf(d, total)[i] == Scaled(AbsAll(d), total)[i]
    {
      AbsQuotient(d[i], total);
    }
  }

  /** The cumulative distribution the histogram is sampled from. */
  function Cdf(d: seq<real>, total: real): (c: seq<real>)
    requires total != 0.0
    ensures |c| == |d|
  {
    PrefixSums(Pdf(d, total))
  }

  /** With a positive magnitude the distribution function never decreases,
   *  starts at or above zero and ends at exactly one. */
  lemma CdfShape(d: seq<real>)
    requires Magnitude(d) > 0.0
    ensures var c := Cdf(d, Magnitude(d));
      && (forall i, j :: 0 <= i <= j < |c| ==> c[i] <= c[j])
      && (forall i :: 0 <= i < |c| ==> 0.0 <= c[i] <= 1.0)
      && (|d| > 0 ==> c[|d| - 1] == 1.0)
  {
    var m := Magnitude(d);
    var p := Pdf(d, m);
    PdfScaled(d, m);
    SumScaled(AbsAll(d), m);
    SelfQuotient(m);
    assert Sum(p) == 1.0;
    PrefixSumsSortedTotal(p);
  }

  lemma AbsQuotient(x: real, m: real)
    requires m > 0.0
    ensures Abs(x / m) == Abs(x) / m
  {
    if x < 0.0 {
      assert x / m < 0.0;
    } else {
      assert x / m >= 0.0;
    }
  }

  /** The first bin whose cumulative value reaches the draw p. */
  function FirstReaching(c: seq<real>, p: real): nat
    decreases |c|
  {
    if c == [] || p <= Abs(c[0]) then 0 else FirstReaching(c[1..], p) + 1
  }

  lemma {:induction false} FirstReachingSpec(c: seq<real>, p: real)
    ensures FirstReaching(c, p) <= |c|
    ensures forall i :: 0 <= i < FirstReaching(c, p) ==> Abs(c[i]) < p
    ensures FirstReaching(c, p) < |c| ==> p <= Abs(c[FirstReaching(c, p)])
    ensures (exists i :: 0 <= i < |c| && p <= Abs(c[i])) <==> FirstReaching(c, p) < |c|
    decreases |c|
  {
    if c != [] && !(p <= Abs(c[0])) {
      FirstReachingSpec(c[1..], p);
      forall i | 0 <= i < FirstReaching(c, p)
        ensures Abs(c[i]) < p
      {
        if i > 0 {
          assert c[i] == c[1..][i - 1];
        }
      }
      if exists i :: 0 <= i < |c| && p <= Abs(c[i]) {
        var i :| 0 <= i < |c| && p <= Abs(c[i]);
        assert i > 0 && c[1..][i - 1] == c[i];
      }
      if FirstReaching(c, p) < |c| {
        assert c[FirstReaching(c, p)] == c[1..][FirstReaching(c, p) - 1];
      }
    }
  }

  /** After the distribution is built, every draw of at most one finds a
   *  bin. */
  lemma DrawFindsBin(d: seq<real>, p: real)
    requires Magnitude(d) > 0.0 && p <= 1.0
    ensures FirstReaching(Cdf(d, Magnitude(d)), p) < |d|
  {
    var c := Cdf(d, Magnitude(d));
    CdfShape(d);
    FirstReachingSpec(c, p);
    assert p <= Abs(c[|d| - 1]);
  }

  /** A fraction u in [0, 1) of the way across [lo, hi) stays inside. */
  lemma FractionInside(lo: real, hi: real, u: real)
    requires lo < hi && 0.0 <= u < 1.0
    ensures lo <= (hi - lo) * u + lo < hi
  {
    var a := hi - lo;
    var w := a * u;
    PositiveProduct(a, 1.0 - u);
    assert a * (1.0 - u) == a - w;
    assert w < a;
    NonNegativeProduct(a, u);
    assert (hi - lo) * u == w;
  }

  lemma NonNegativeProduct(a: real, b: real)
    requires a >= 0.0 && b >= 0.0
    ensures a * b >= 0.0
  {
  }

  lemma PositiveProduct(a: real, b: real)
    requires a > 0.0 && b > 0.0
    ensures a * b > 0.0
  {
  }

  /** The sum of the absolute values of d, accumulated in order. */
  method SumAbs(d: seq<real>) returns (sum: real)
    ensures sum == Magnitude(d)
  {
    sum := 0.0;
    var i := 0;
    while i < |d|
      invariant 0 <= i <= |d|
      invariant sum == Sum(AbsAll(d)[..i])
    {
      PrefixSumSteps(AbsAll(d), i);
      sum := sum + Abs(d[i]);
      i := i + 1;
    }
    assert AbsAll(d)[..|d|] == AbsAll(d);
  }

  /** Writes the absolute values of d over total into a. */
  method FillPdf(a: array<real>, d: seq<real>, total: real)
    requires a.Length == |d| && total != 0.0
    modifies a
    ensures a[..] == Pdf(d, total)
  {
    var i := 0;
    while i < a.Length
      invariant 0 <= i <= a.Length
      invariant forall k :: 0 <= k < i ==> a[k] == Pdf(d, total)[k]
    {
      a[i] := Abs(d[i] / total);
      i := i + 1;
    }
  }

  /** Turns a into its running sums in place, from the second entry on. */
  method PrefixInPlace(a: array<real>)
    modifies a
    ensures a[..] == PrefixSums(old(a[..]))
  {
    ghost var p := a[..];
    if a.Length == 0 {
      return;
    }
    PrefixSumSteps(p, 0);
    var i := 1;
    while i < a.Length
      invariant 1 <= i <= a.Length
      invariant forall k :: 0 <= k < i ==> a[k] == Sum(p[..k + 1])
      invariant forall k :: i <= k < a.Length ==> a[k] == p[k]
    {
      PrefixSumSteps(p, i);
      a[i] := a[i] + a[i - 1];
      i := i + 1;
    }
  }

  class HistSource {
    /** The node positions of the source mesh. */
    const edges: seq<real>
    /** The bins, one per zone. */
    const field: Field<real>
    /** The cumulative distribution, one entry per zone. */
    const cdf: array<real>

    ghost predicate Valid()
      reads this, field
    {
      && Geometry(edges)
      && field.Valid() && field.count == |edges| - 1
      && cdf.Length == field.count
    }

    /** A source over a mesh with every bin zero. */
    constructor (edgesIn: seq<real>)
      requires Geometry(edgesIn)
      ensures Valid() && fresh(field) && fresh(cdf)
      ensures edges == edgesIn
      ensures forall i :: 0 <= i < field.count ==> field.data[i] == 0.0 && cdf[i] == 0.0
    {
      edges := edgesIn;
      field := new Field<real>.Filled(|edgesIn| - 1, 0.0);
      cdf := new real[|edgesIn| - 1](_ => 0.0);
    }

    /** A source with given bin values, one per zone. */
    constructor FromBins(edgesIn: seq<real>, bins: seq<real>)
      requires Geometry(edgesIn) && |bins| == |edgesIn| - 1
      ensures Valid() && fresh(field) && fresh(cdf)
      ensures edges == edgesIn && field.data == bins
    {
      edges := edgesIn;
      field := new Field<real>.Wrap(|edgesIn| - 1, bins);
      cdf := new real[|edgesIn| - 1](_ => 0.0);
    }

    /** Builds the distribution function from the bins; when every bin is
     *  zero the distribution is left as it was. */
    method MakeCdf()
      requires Valid()
      modifies cdf
      ensures Magnitude(field.data) == 0.0 ==> cdf[..] == old(cdf[..])
      ensures Magnitude(field.data) > 0.0 ==> cdf[..] == Cdf(field.data, Magnitude(field.data))
    {
      var sum := SumAbs(field.data);
      if sum != 0.0 {
        FillPdf(cdf, field.data, sum);
        PrefixInPlace(cdf);
      }
    }

    /** Draws a site: the first bin whose cumulative value reaches the draw
     *  p, a position a fraction u across that zone, and weight -1 when the
     *  bin value is not positive, else +1. The draw must reach some bin. */
    method Sample(p: real, u: real) returns (site: Site, bin: nat)
      requires Valid()
      requires exists i :: 0 <= i < cdf.Length && p <= Abs(cdf[i])
      ensures bin == FirstReaching(cdf[..], p) && bin < cdf.Length
      ensures site.x == (edges[bin + 1] - edges[bin]) * u + edges[bin]
      ensures 0.0 <= u < 1.0 ==> edges[bin] <= site.x < edges[bin + 1]
      ensures site.weight == (if field.data[bin] <= 0.0 then -1.0 else 1.0)
    {
      FirstReachingSpec(cdf[..], p);
      bin := 0;
      while bin < cdf.Length && !(p <= Abs(cdf[bin]))
        invariant 0 <= bin <= FirstReaching(cdf[..], p)
      {
        bin := bin + 1;
      }
      var lo, hi := edges[bin], edges[bin + 1];
      var x := (hi - lo) * u + lo;
      assert lo < hi;
      if 0.0 <= u < 1.0 {
        FractionInside(lo, hi, u);
      }
      var w := if field.data[bin] <= 0.0 then -1.0 else 1.0;
      site := Site(x, w);
    }

    /** Adds s to the bin of the zone holding x, and to no other bin. */
    method Score(x: real, s: real)
      requires Valid() && 0.0 <= x <= edges[|edges| - 1]
      modifies field
      ensures Valid()
      ensures field.data == old(field.data)[ZoneOf(edges, x) := old(field.data)[ZoneOf(edges, x)] + s]
    {
      var z := FindZone(edges, x);
      var e := field.Set(z, field.data[z] + s);
    }

    /** The sum of the absolute bin values. */
    method GetMagnitude() returns (m: real)
      requires Valid()
      ensures m == Magnitude(field.data)
    {
      m := SumAbs(field.data);
    }
  }
}
