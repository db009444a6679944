/** The bank fission source: a reusable store of particle sites with a
 *  logical size. Entries past the size are kept for reuse and overwritten
 *  by later pushes. The source can be built by drawing sites from a
 *  binned distribution, and discretised back into zone bins. */
module BankSources {
  import opened RealSums
  import opened HistSources
  import CartesianMesh

  /** A stored site: position and weight. */
  datatype Entry = Entry(x: real, y: real, z: real, weight: real)

  /** A pair of uniform draws: p chooses the bin, u the position in it. */
  datatype Draw = Draw(p: real, u: real)

  /** n copies of e. */
  function Copies(e: Entry, n: nat): (r: seq<Entry>)
    ensures |r| == n && forall i :: 0 <= i < n ==> r[i] == e
  {
    seq(n, _ => e)
  }

  /** How many integers i = 0, 1, 2, ... satisfy i < s: the number of
   *  copies a score of s pushes. */
  function Repeats(s: real): (n: nat)
    ensures n == 0 <==> s <= 0.0
    ensures n > 0 ==> ((n - 1) as real) < s <= n as real
  {
    if s <= 0.0 then 0
    else if s.Floor as real == s then s.Floor
    else s.Floor + 1
  }

  /** The weight of a sampled particle: minus one for a negative stored
   *  weight, one otherwise. */
  function UnitWeight(w: real): (r: real)
    ensures r == -1.0 <==> w < 0.0
    ensures r == 1.0 <==> w >= 0.0
  {
    if w < 0.0 then -1.0 else 1.0
  }

  // ---------------------------------------------------------------------
  // Discretisation

  /** Every stored position lies in the slab. */
  predicate InSlab(edges: seq<real>, es: seq<Entry>)
    requires |edges| >= 1
  {
    forall i :: 0 <= i < |es| ==> 0.0 <= es[i].x <= edges[|edges| - 1]
  }

  /** The weight of the entries of es lying in zone z. */
  function ZoneWeight(edges: seq<real>, es: seq<Entry>, z: nat): real
    requires Geometry(edges) && InSlab(edges, es)
    decreases |es|
  {
    if es == [] then 0.0
    else
      var last := es[|es| - 1];
      ZoneWeight(edges, es[..|es| - 1], z) + (if ZoneOf(edges, last.x) == z then last.weight else 0.0)
  }

  /** The histogram of es: one bin per zone holding the zone's weight. */
  function Histogram(edges: seq<real>, es: seq<Entry>): (h: seq<real>)
    requires Geometry(edges) && InSlab(edges, es)
    ensures |h| == |edges| - 1
    ensures forall z :: 0 <= z < |h| ==> h[z] == ZoneWeight(edges, es, z)
  {
    seq(|edges| - 1, z requires 0 <= z < |edges| - 1 => ZoneWeight(edges, es, z))
  }

  /** The weights of es. */
  function Weights(es: seq<Entry>): (w: seq<real>)
    ensures |w| == |es| && forall i :: 0 <= i < |es| ==> w[i] == es[i].weight
  {
    seq(|es|, i requires 0 <= i < |es| => es[i].weight)
  }

  /** Adding one entry to es raises exactly its zone's bin by its weight. */
  lemma HistogramSnoc(edges: seq<real>, es: seq<Entry>, e: Entry)
    requires Geometry(edges) && InSlab(edges, es + [e])
    ensures InSlab(edges, es) && 0.0 <= e.x <= edges[|edges| - 1]
    ensures var z := ZoneOf(edges, e.x);
      Histogram(edges, es + [e]) == Histogram(edges, es)[z := Histogram(edges, es)[z] + e.weight]
  {
    assert InSlab(edges, es) by {
      forall i | 0 <= i < |es|
        ensures 0.0 <= es[i].x <= edges[|edges| - 1]
      {
        assert es[i] == (es + [e])[i];
      }
    }
    assert (es + [e])[..|es|] == es;
    assert (es + [e])[|es|] == e;
  }

  /** No weight is lost or invented: the bins add up to the total weight. */
  lemma {:induction false} HistogramTotal(edges: seq<real>, es: seq<Entry>)
    requires Geometry(edges) && InSlab(edges, es)
    ensures Sum(Histogram(edges, es)) == Sum(Weights(es))
    decreases |es|
  {
    if es == [] {
      var h := Histogram(edges, es);
      SumConstant(h, 0.0);
    } else {
      var init, e := es[..|es| - 1], es[|es| - 1];
      assert es == init + [e];
      HistogramSnoc(edges, init, e);
      HistogramTotal(edges, init);
      SumUpdate(Histogram(edges, init), ZoneOf(edges, e.x), e.weight);
      assert Weights(es) == Weights(init) + [e.weight];
      SumSnoc(Weights(init), e.weight);
    }
  }

  // ---------------------------------------------------------------------
  // Building a bank from a binned distribution

  /** Every draw finds a bin: its p is reached by some entry of c. */
  predicate DrawsFindBins(c: seq<real>, draws: seq<Draw>)
  {
    forall k :: 0 <= k < |draws| ==> exists i :: 0 <= i < |c| && draws[k].p <= c[i]
  }

  /** The bin the scan of c stops at is a real bin when p is reached. */
  lemma ScanFindsBin(c: seq<real>, p: real)
    requires exists i :: 0 <= i < |c| && p <= c[i]
    ensures CartesianMesh.FirstAtLeast(c, p) < |c|
  {
    CartesianMesh.FirstAtLeastSpec(c, p);
    var i :| 0 <= i < |c| && p <= c[i];
    assert !(i < CartesianMesh.FirstAtLeast(c, p));
  }

  /** The site drawn by d: uniform across the first bin whose cumulative
   *  value reaches p, with the weight's sign read from that cumulative
   *  value. */
  function Drawn(edges: seq<real>, c: seq<real>, d: Draw): (e: Entry)
    requires Geometry(edges) && |c| == |edges| - 1
    requires exists i :: 0 <= i < |c| && d.p <= c[i]
  {
    ScanFindsBin(c, d.p);
    var b := CartesianMesh.FirstAtLeast(c, d.p);
    Entry((edges[b + 1] - edges[b]) * d.u + edges[b], 0.0, 0.0, UnitWeight(c[b]))
  }

  /** The drawn bin is the first whose cumulative value reaches p; a
   *  uniform u in [0, 1) puts the site inside that bin's zone. */
  lemma DrawnSpec(edges: seq<real>, c: seq<real>, d: Draw)
    requires Geometry(edges) && |c| == |edges| - 1
    requires exists i :: 0 <= i < |c| && d.p <= c[i]
    ensures var b := CartesianMesh.FirstAtLeast(c, d.p);
      var e := Drawn(edges, c, d);
      b < |c| && d.p <= c[b] && (forall i :: 0 <= i < b ==> c[i] < d.p) &&
      e.weight == UnitWeight(c[b]) &&
      (0.0 <= d.u < 1.0 ==> edges[b] <= e.x < edges[b + 1])
    ensures 0.0 <= d.u < 1.0 ==> 0.0 <= Drawn(edges, c, d).x <= edges[|edges| - 1]
  {
    ScanFindsBin(c, d.p);
    CartesianMesh.FirstAtLeastSpec(c, d.p);
    var b := CartesianMesh.FirstAtLeast(c, d.p);
    if 0.0 <= d.u < 1.0 {
      FractionInside(edges[b], edges[b + 1], d.u);
      EdgesWithin(edges, b);
      assert Drawn(edges, c, d).x == (edges[b + 1] - edges[b]) * d.u + edges[b];
    }
  }

  /** Each edge of a geometry lies between the first and the last. */
  lemma EdgesWithin(edges: seq<real>, b: nat)
    requires Geometry(edges) && b + 1 < |edges|
    ensures 0.0 <= edges[b] && edges[b + 1] <= edges[|edges| - 1]
  {
    assert edges[0] <= edges[b];
    if b + 1 < |edges| - 1 {
      assert edges[b + 1] < edges[|edges| - 1];
    }
  }

  /** With draws of non-negative p, the cumulative value at the chosen bin
   *  is at least p, so the weight's sign test never sees a negative value:
   *  every drawn weight is one. */
  lemma DrawnWeightsPositive(edges: seq<real>, c: seq<real>, d: Draw)
    requires Geometry(edges) && |c| == |edges| - 1
    requires exists i :: 0 <= i < |c| && d.p <= c[i]
    requires d.p >= 0.0
    ensures Drawn(edges, c, d).weight == 1.0
  {
    DrawnSpec(edges, c, d);
  }

  /** The total of the bins, accumulated in order. */
  method Total(f: seq<real>) returns (t: real)
    ensures t == Sum(f)
  {
    t := 0.0;
    var i := 0;
    while i < |f|
      invariant 0 <= i <= |f| && t == Sum(f[..i])
    {
      PrefixSumSteps(f, i);
      t := t + f[i];
      i := i + 1;
    }
    assert f[..|f|] == f;
  }

  /** Builds the distribution function: each bin divided by the total, then
   *  accumulated from the first bin. */
  method BuildCdf(f: seq<real>) returns (c: seq<real>)
    requires |f| > 0
    requires Sum(f) != 0.0
    ensures c == Shares(f)
  {
    var total := Total(f);
    var pdf := Scaled(f, total);
    ghost var spec := PrefixSums(pdf);
    c := [pdf[0]];
    PrefixSumSteps(pdf, 0);
    var i := 1;
    while i < |f|
      invariant 1 <= i <= |f| && |c| == i
      invariant forall k :: 0 <= k < i ==> c[k] == spec[k]
    {
      PrefixSumSteps(pdf, i);
      c := c + [c[i - 1] + pdf[i]];
      i := i + 1;
    }
  }

  /** The first bin whose cumulative value reaches p, by a linear scan. */
  method Scan(c: seq<real>, p: real) returns (b: nat)
    ensures b == CartesianMesh.FirstAtLeast(c, p)
  {
    b := 0;
    while b < |c| && c[b] < p
      invariant b <= |c| && forall i :: 0 <= i < b ==> c[i] < p
    {
      b := b + 1;
    }
    CartesianMesh.FirstAtLeastUnique(c, p, b);
  }

  /** Draws one site per draw, in order. */
  method DrawAll(edges: seq<real>, c: seq<real>, draws: seq<Draw>) returns (bank: seq<Entry>)
    requires Geometry(edges) && |c| == |edges| - 1
    requires DrawsFindBins(c, draws)
    ensures |bank| == |draws|
    ensures forall k :: 0 <= k < |draws| ==> bank[k] == Drawn(edges, c, draws[k])
  {
    bank := [];
    var k := 0;
    while k < |draws|
      invariant 0 <= k <= |draws| && |bank| == k
      invariant forall j :: 0 <= j < k ==> bank[j] == Drawn(edges, c, draws[j])
    {
      var d := draws[k];
      var b := Scan(c, d.p);
      ScanFindsBin(c, d.p);
      var lo, hi := edges[b], edges[b + 1];
      var x := (hi - lo) * d.u + lo;
      var w := if c[b] < 0.0 then -1.0 else 1.0;
      bank := bank + [Entry(x, 0.0, 0.0, w)];
      k := k + 1;
    }
  }

  /** Uniform draws keep every drawn site inside the slab. */
  lemma DrawnInSlab(edges: seq<real>, c: seq<real>, draws: seq<Draw>, bank: seq<Entry>)
    requires Geometry(edges) && |c| == |edges| - 1
    requires DrawsFindBins(c, draws)
    requires forall k :: 0 <= k < |draws| ==> 0.0 <= draws[k].u < 1.0
    requires |bank| == |draws| && forall k :: 0 <= k < |draws| ==> bank[k] == Drawn(edges, c, draws[k])
    ensures InSlab(edges, bank)
  {
    forall k | 0 <= k < |bank|
      ensures 0.0 <= bank[k].x <= edges[|edges| - 1]
    {
      DrawnSpec(edges, c, draws[k]);
    }
  }

  class BankSource {
    /** The stored sites, including reusable ones past the logical size. */
    var bank: seq<Entry>
    /** The number of sites that belong to the source. */
    var size: nat

    ghost predicate Valid()
      reads this
    {
      size <= |bank|
    }

    /** The sites that belong to the source. */
    ghost function Contents(): seq<Entry>
      requires Valid()
      reads this
    {
      bank[..size]
    }

    /** An empty source. */
    constructor Empty()
      ensures Valid() && bank == [] && size == 0
    {
      bank := [];
      size := 0;
    }

    /** A source of |draws| sites drawn from the bins f over the zones with
     *  edges edges. */
    constructor FromBins(edges: seq<real>, f: seq<real>, draws: seq<Draw>)
      requires Geometry(edges) && |f| == |edges| - 1
      requires Sum(f) != 0.0
      requires DrawsFindBins(Shares(f), draws)
      ensures Valid() && size == |draws| && |bank| == |draws|
      ensures forall k :: 0 <= k < |draws| ==> bank[k] == Drawn(edges, Shares(f), draws[k])
    {
      var c := BuildCdf(f);
      var b := DrawAll(edges, c, draws);
      bank := b;
      size := |draws|;
    }

    /** Adds a site after the current ones, reusing a stored slot when one
     *  is free. */
    method PushBack(e: Entry)
      requires Valid()
      modifies this
      ensures Valid()
      ensures size == old(size) + 1
      ensures old(size) >= old(|bank|) ==> bank == old(bank) + [e]
      ensures old(size) < old(|bank|) ==> bank == old(bank)[old(size) := e]
      ensures Contents() == old(Contents()) + [e]
    {
      if size >= |bank| {
        bank := bank + [e];
      } else {
        bank := bank[size := e];
      }
      size := size + 1;
    }

    /** Scoring s pushes one copy of e for each integer below s. */
    method Score(e: Entry, s: real)
      requires Valid()
      modifies this
      ensures Valid()
      ensures Contents() == old(Contents()) + Copies(e, Repeats(s))
    {
      ghost var c0 := Contents();
      var i: nat := 0;
      while (i as real) < s
        invariant Valid() && i <= Repeats(s)
        invariant Contents() == c0 + Copies(e, i)
        decreases Repeats(s) - i
      {
        PushBack(e);
        assert Copies(e, i + 1) == Copies(e, i) + [e];
        i := i + 1;
      }
      assert i == Repeats(s);
    }

    /** Forgets the sites; their slots stay for reuse. */
    method Reset()
      requires Valid()
      modifies this
      ensures Valid() && bank == old(bank) && Contents() == []
    {
      size := 0;
    }

    /** The magnitude is the number of sites. */
    function Magnitude(): (m: real)
      requires Valid()
      reads this
      ensures m == |Contents()| as real
    {
      size as real
    }

    /** Copies the stored site at index, a draw in [0, size - 1], with a unit
     *  weight of the stored sign. */
    method Sample(index: nat) returns (e: Entry)
      requires Valid() && size > 0 && index < size
      ensures var s := Contents()[index];
        e.x == s.x && e.y == s.y && e.z == s.z && e.weight == UnitWeight(s.weight)
    {
      var s := bank[index];
      e := Entry(s.x, s.y, s.z, if s.weight < 0.0 then -1.0 else 1.0);
    }

    /** The histogram of the sites over the zones with edges edges. */
    method Discretized(edges: seq<real>) returns (h: seq<real>)
      requires Valid() && Geometry(edges) && InSlab(edges, Contents())
      ensures h == Histogram(edges, Contents())
    {
      var es := bank[..size];
      h := seq(|edges| - 1, _ => 0.0);
      var i := 0;
      while i < size
        invariant 0 <= i <= size && InSlab(edges, es[..i])
        invariant h == Histogram(edges, es[..i])
      {
        assert es[..i + 1] == es[..i] + [es[i]];
        HistogramSnoc(edges, es[..i], es[i]);
        var z := FindZone(edges, es[i].x);
        h := h[z := h[z] + es[i].weight];
        i := i + 1;
      }
      assert es[..size] == es;
    }
  }
}
