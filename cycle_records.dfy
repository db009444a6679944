/** Per-cycle records kept by the Monte Carlo eigenvalue drivers (the power
 *  method and Arnoldi's method): running totals of the histories tracked,
 *  and lists split into an inactive part followed by an active part. */
module CycleRecords {
  import opened RealSums

  /** The last entry of a running total, or zero before the first cycle. */
  function Total(list: seq<real>): (t: real)
    ensures list != [] ==> t == list[|list| - 1]
    ensures list == [] ==> t == 0.0
  {
    if list == [] then 0.0 else list[|list| - 1]
  }

  /** A running total extended by one cycle that tracked x histories: the
   *  first entry is x, every later one is the previous entry plus x. */
  function Accumulated(list: seq<real>, x: real): (r: seq<real>)
    ensures |r| == |list| + 1 && r[..|list|] == list
  {
    if list == [] then [x] else list + [list[|list| - 1] + x]
  }

  /** Extending a running total keeps it the running sums of the per-cycle
   *  counts. */
  lemma AccumulatedSums(counts: seq<real>, x: real)
    ensures Accumulated(PrefixSums(counts), x) == PrefixSums(counts + [x])
  {
    var a, b := Accumulated(PrefixSums(counts), x), PrefixSums(counts + [x]);
    forall i | 0 <= i < |counts|
      ensures a[i] == b[i]
    {
      assert (counts + [x])[..i + 1] == counts[..i + 1];
    }
    var n := |counts|;
    assert (counts + [x])[..n + 1] == counts + [x];
    SumSnoc(counts, x);
    if n > 0 {
      PrefixSumsLast(counts);
    } else {
      assert counts == [];
    }
  }

  /** Every entry of s raised by c. */
  function Offset(s: seq<real>, c: real): (r: seq<real>)
    ensures |r| == |s|
    ensures forall i :: 0 <= i < |s| ==> r[i] == s[i] + c
  {
    seq(|s|, i requires 0 <= i < |s| => s[i] + c)
  }

  /** The histories tracked through each restart or iteration. When the
   *  inactive cycles are wanted and there were some, the inactive totals
   *  come first, then each active total raised by the inactive total;
   *  otherwise only the active totals, raised by the inactive total. */
  function Tracks(withInactive: bool, inactive: seq<real>, active: seq<real>): (r: seq<real>)
    ensures |r| == (if withInactive then |inactive| else 0) + |active|
  {
    if withInactive && inactive != [] then inactive + Offset(active, inactive[|inactive| - 1])
    else Offset(active, Total(inactive))
  }

  /** The list with the inactive cycles is the inactive totals followed by
   *  the list without them, and the list without them is the active totals
   *  raised by the inactive total. */
  lemma TracksSplit(inactive: seq<real>, active: seq<real>)
    ensures Tracks(true, inactive, active) == inactive + Tracks(false, inactive, active)
    ensures Tracks(false, inactive, active) == Offset(active, Total(inactive))
  {
    if inactive == [] {
      assert inactive + Offset(active, 0.0) == Offset(active, 0.0);
    }
  }

  /** When both lists are running totals, the combined list is the running
   *  total over all cycles, inactive and active alike. */
  lemma TracksAreRunningTotals(x: seq<real>, y: seq<real>)
    ensures Tracks(true, PrefixSums(x), PrefixSums(y)) == PrefixSums(x + y)
  {
    TracksSplit(PrefixSums(x), PrefixSums(y));
    var t := Tracks(true, PrefixSums(x), PrefixSums(y));
    var s := PrefixSums(x + y);
    assert Total(PrefixSums(x)) == Sum(x) by {
      if x == [] {
      } else {
        PrefixSumsLast(x);
      }
    }
    forall i | 0 <= i < |x|
      ensures t[i] == s[i]
    {
      PrefixSumsAppendLeft(x, y, i);
    }
    forall k | |x| <= k < |x| + |y|
      ensures t[k] == s[k]
    {
      PrefixSumsAppendRight(x, y, k - |x|);
    }
    assert t == s;
  }

  /** The running sums of x + y begin with those of x, */
  lemma PrefixSumsAppendLeft(x: seq<real>, y: seq<real>, i: nat)
    requires i < |x|
    ensures PrefixSums(x + y)[i] == PrefixSums(x)[i]
  {
    assert (x + y)[..i + 1] == x[..i + 1];
  }

  /** and go on with those of y raised by the sum of x. */
  lemma PrefixSumsAppendRight(x: seq<real>, y: seq<real>, j: nat)
    requires j < |y|
    ensures PrefixSums(x + y)[|x| + j] == PrefixSums(y)[j] + Sum(x)
  {
    var w, z := y[..j + 1], x + y;
    assert z[..|x| + j + 1] == x + w;
    SumAppend(x, w);
    assert PrefixSums(z)[|x| + j] == Sum(z[..|x| + j + 1]);
    assert PrefixSums(y)[j] == Sum(w);
  }

  /** The running totals by iteration: like Tracks when the inactive cycles
   *  are wanted, but the active totals alone, not raised, otherwise. */
  function TracksByIteration(withInactive: bool, inactive: seq<real>, active: seq<real>): (r: seq<real>)
    ensures |r| == (if withInactive then |inactive| else 0) + |active|
  {
    if withInactive && inactive != [] then inactive + Offset(active, inactive[|inactive| - 1])
    else active
  }

  /** With the inactive cycles the two rules agree; without them the list by
   *  iteration differs from the list by restart by the inactive total. */
  lemma TracksByIterationAgrees(inactive: seq<real>, active: seq<real>)
    ensures TracksByIteration(true, inactive, active) == Tracks(true, inactive, active)
    ensures TracksByIteration(false, inactive, active) == active
    ensures Tracks(false, inactive, active) == Offset(TracksByIteration(false, inactive, active), Total(inactive))
  {
    if inactive == [] {
      assert Offset(active, 0.0) == active;
    }
  }

  /** A list with an inactive part: the inactive entries then the active
   *  ones when the inactive part is wanted and not empty, else the active
   *  entries alone. */
  function WithInactive<T>(withInactive: bool, inactive: seq<T>, active: seq<T>): (r: seq<T>)
    ensures |r| <= |inactive| + |active|
  {
    if withInactive && inactive != [] then inactive + active else active
  }

  /** The test for an empty inactive part makes no difference: the result
   *  is the plain concatenation when the inactive part is wanted. */
  lemma WithInactiveConcatenates<T>(withInactive: bool, inactive: seq<T>, active: seq<T>)
    ensures withInactive ==> WithInactive(withInactive, inactive, active) == inactive + active
    ensures !withInactive ==> WithInactive(withInactive, inactive, active) == active
  {
    if inactive == [] {
      assert inactive + active == active;
    }
  }

  /** The last running sum is the total. */
  lemma TotalOfRunningSums(s: seq<real>)
    ensures Total(PrefixSums(s)) == Sum(s)
  {
    if s != [] {
      PrefixSumsLast(s);
    }
  }
}
