/** Sums of sequences of reals, shared by the mesh (node positions), the
 *  fission sources (distribution functions) and the statistics helpers.
 *  Floating-point sums are modelled as exact real sums. */
module RealSums {
  /** The sum of s, accumulated from the left. */
  function Sum(s: seq<real>): real
    decreases |s|
  {
    if s == [] then 0.0 else Sum(s[..|s| - 1]) + s[|s| - 1]
  }

  lemma {:induction false} SumPositive(s: seq<real>)
    requires forall i :: 0 <= i < |s| ==> s[i] > 0.0
    ensures s != [] ==> Sum(s) > 0.0
    ensures Sum(s) >= 0.0
    decreases |s|
  {
    if s != [] {
      SumPositive(s[..|s| - 1]);
    }
  }

  lemma {:induction false} SumConstant(s: seq<real>, c: real)
    requires forall i :: 0 <= i < |s| ==> s[i] == c
    ensures Sum(s) == |s| as real * c
    decreases |s|
  {
    if s != [] {
      SumConstant(s[..|s| - 1], c);
    }
  }

  /** The prefix sums start at zero, grow by one entry at a time and end
   *  at the whole sum. */
  lemma PrefixSumSteps(s: seq<real>, i: nat)
    requires i < |s|
    ensures Sum(s[..0]) == 0.0
    ensures Sum(s[..i + 1]) == Sum(s[..i]) + s[i]
    ensures Sum(s[..|s|]) == Sum(s)
  {
    assert s[..0] == [];
    assert s[..i + 1][..i] == s[..i];
    assert s[..|s|] == s;
  }

  /** Prefix sums of positive lengths strictly increase. */
  lemma {:induction false} PrefixSumsIncrease(lengths: seq<real>, i: nat, j: nat)
    requires forall k :: 0 <= k < |lengths| ==> lengths[k] > 0.0
    requires i < j <= |lengths|
    ensures Sum(lengths[..i]) < Sum(lengths[..j])
    decreases j - i
  {
    assert lengths[..j][..j - 1] == lengths[..j - 1];
    if i < j - 1 {
      PrefixSumsIncrease(lengths, i, j - 1);
    }
  }

  lemma SumSnoc(s: seq<real>, x: real)
    ensures Sum(s + [x]) == Sum(s) + x
  {
    assert (s + [x])[..|s|] == s;
  }

  /** The absolute value of a real. */
  function Abs(x: real): (a: real)
    ensures a >= 0.0 && (a == x || a == -x)
  {
    if x < 0.0 then -x else x
  }

  /** The entries of s divided by c. */
  function Scaled(s: seq<real>, c: real): (r: seq<real>)
    requires c != 0.0
    ensures |r| == |s|
  {
    seq(|s|, i requires 0 <= i < |s| => s[i] / c)
  }

  /** Dividing every entry by c divides the sum by c. */
  lemma {:induction false} SumScaled(s: seq<real>, c: real)
    requires c != 0.0
    ensures Sum(Scaled(s, c)) == Sum(s) / c
    decreases |s|
  {
    if s != [] {
      var n := |s| - 1;
      assert Scaled(s, c)[..n] == Scaled(s[..n], c);
      SumScaled(s[..n], c);
    }
  }

  /** A sum of non-negative entries is non-negative. */
  lemma {:induction false} SumNonNegative(s: seq<real>)
    requires forall i :: 0 <= i < |s| ==> s[i] >= 0.0
    ensures Sum(s) >= 0.0
    decreases |s|
  {
    if s != [] {
      SumNonNegative(s[..|s| - 1]);
    }
  }

  /** Prefix sums of non-negative entries never decrease. */
  lemma {:induction false} PrefixSumsMonotone(s: seq<real>, i: nat, j: nat)
    requires forall k :: 0 <= k < |s| ==> s[k] >= 0.0
    requires i <= j <= |s|
    ensures Sum(s[..i]) <= Sum(s[..j])
    decreases j - i
  {
    if i < j {
      assert s[..j][..j - 1] == s[..j - 1];
      PrefixSumsMonotone(s, i, j - 1);
    }
  }

  /** The running sums of s: entry i is the sum of the first i+1 entries. */
  function PrefixSums(s: seq<real>): (r: seq<real>)
    ensures |r| == |s|
  {
    seq(|s|, i requires 0 <= i < |s| => Sum(s[..i + 1]))
  }

  /** Running sums of non-negative entries are sorted and end at the sum. */
  lemma PrefixSumsSortedTotal(s: seq<real>)
    requires forall k :: 0 <= k < |s| ==> s[k] >= 0.0
    ensures forall i, j :: 0 <= i <= j < |s| ==> PrefixSums(s)[i] <= PrefixSums(s)[j]
    ensures forall i :: 0 <= i < |s| ==> PrefixSums(s)[i] >= 0.0
    ensures |s| > 0 ==> PrefixSums(s)[|s| - 1] == Sum(s)
  {
    forall i, j | 0 <= i <= j < |s|
      ensures PrefixSums(s)[i] <= PrefixSums(s)[j]
    {
      PrefixSumsMonotone(s, i + 1, j + 1);
    }
    forall i | 0 <= i < |s|
      ensures PrefixSums(s)[i] >= 0.0
    {
      PrefixSumsMonotone(s, 0, i + 1);
      assert s[..0] == [];
    }
    if |s| > 0 {
      assert s[..|s|] == s;
    }
  }

  /** A sum splits around one entry. */
  lemma SumSplitAt(s: seq<real>, z: nat)
    requires z < |s|
    ensures Sum(s) == Sum(s[..z]) + s[z] + Sum(s[z + 1..])
  {
    SumAppend(s[..z + 1], s[z + 1..]);
    assert s[..z + 1] + s[z + 1..] == s;
    PrefixSumSteps(s, z);
    assert s[..z + 1][..|s[..z + 1]|] == s[..z + 1];
  }

  /** The sum of a concatenation is the sum of the parts. */
  lemma {:induction false} SumAppend(a: seq<real>, b: seq<real>)
    ensures Sum(a + b) == Sum(a) + Sum(b)
    decreases |b|
  {
    if b == [] {
      assert a + b == a;
    } else {
      var n := |b| - 1;
      assert (a + b)[..|a + b| - 1] == a + b[..n];
      SumAppend(a, b[..n]);
    }
  }

  /** The last running sum is the whole sum, whatever the signs. */
  lemma PrefixSumsLast(s: seq<real>)
    requires |s| > 0
    ensures PrefixSums(s)[|s| - 1] == Sum(s)
  {
    assert s[..|s|] == s;
  }

  /** Raising one entry by w raises the sum by w. */
  lemma SumUpdate(s: seq<real>, z: nat, w: real)
    requires z < |s|
    ensures Sum(s[z := s[z] + w]) == Sum(s) + w
  {
    var t := s[z := s[z] + w];
    SumSplitAt(s, z);
    SumSplitAt(t, z);
    assert t[..z] == s[..z];
    assert t[z + 1..] == s[z + 1..];
  }

  lemma SelfQuotient(t: real)
    requires t != 0.0
    ensures t / t == 1.0
  {
  }

  /** The cumulative shares of f: running sums of the entries divided by
   *  their total (a distribution function when the entries are
   *  non-negative). */
  function Shares(f: seq<real>): (c: seq<real>)
    requires Sum(f) != 0.0
    ensures |c| == |f|
  {
    PrefixSums(Scaled(f, Sum(f)))
  }

  /** The cumulative shares end at one, whatever the signs. */
  lemma SharesEndAtOne(f: seq<real>)
    requires |f| > 0 && Sum(f) != 0.0
    ensures Shares(f)[|f| - 1] == 1.0
  {
    var t := Sum(f);
    var s := Scaled(f, t);
    SumScaled(f, t);
    PrefixSumsLast(s);
    SelfQuotient(t);
  }

  /** For non-negative entries the cumulative shares never decrease and
   *  stay within [0, 1]. */
  lemma SharesSorted(f: seq<real>)
    requires |f| > 0 && Sum(f) != 0.0
    requires forall i :: 0 <= i < |f| ==> f[i] >= 0.0
    ensures forall i, j :: 0 <= i <= j < |f| ==> 0.0 <= Shares(f)[i] <= Shares(f)[j] <= 1.0
  {
    var s := Scaled(f, Sum(f));
    SumNonNegative(f);
    forall i | 0 <= i < |s|
      ensures s[i] >= 0.0
    {
      assert s[i] == f[i] / Sum(f);
    }
    PrefixSumsSortedTotal(s);
    SharesEndAtOne(f);
  }

  /** Non-negative entries divided by a positive c stay non-negative. */
  lemma ScaledNonNegative(s: seq<real>, c: real)
    requires c > 0.0 && forall i :: 0 <= i < |s| ==> s[i] >= 0.0
    ensures forall i :: 0 <= i < |s| ==> Scaled(s, c)[i] >= 0.0
  {
    forall i | 0 <= i < |s|
      ensures Scaled(s, c)[i] >= 0.0
    {
      NonNegativeQuotient(s[i], c);
    }
  }

  lemma NonNegativeQuotient(a: real, c: real)
    requires a >= 0.0 && c > 0.0
    ensures a / c >= 0.0
  {
  }
}
