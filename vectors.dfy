/** Real vectors as sequences: entrywise sums, differences and multiples,
 *  inner products, linear combinations of columns and orthonormal sets of
 *  columns, as the Arnoldi process uses them. Floating-point arithmetic is
 *  modelled as exact real arithmetic. */
module RealVectors {
  import opened RealSums

  function Zeros(n: nat): (r: seq<real>)
    ensures |r| == n && forall i :: 0 <= i < n ==> r[i] == 0.0
  {
    seq(n, _ => 0.0)
  }

  function Plus(a: seq<real>, b: seq<real>): (r: seq<real>)
    requires |a| == |b|
    ensures |r| == |a| && forall i :: 0 <= i < |a| ==> r[i] == a[i] + b[i]
  {
    seq(|a|, i requires 0 <= i < |a| => a[i] + b[i])
  }

  function Minus(a: seq<real>, b: seq<real>): (r: seq<real>)
    requires |a| == |b|
    ensures |r| == |a| && forall i :: 0 <= i < |a| ==> r[i] == a[i] - b[i]
  {
    seq(|a|, i requires 0 <= i < |a| => a[i] - b[i])
  }

  /** Every entry of a multiplied by t. */
  function Times(a: seq<real>, t: real): (r: seq<real>)
    ensures |r| == |a| && forall i :: 0 <= i < |a| ==> r[i] == a[i] * t
  {
    seq(|a|, i requires 0 <= i < |a| => a[i] * t)
  }

  /** The entrywise products of a and b. */
  function Products(a: seq<real>, b: seq<real>): (r: seq<real>)
    requires |a| == |b|
    ensures |r| == |a| && forall i :: 0 <= i < |a| ==> r[i] == a[i] * b[i]
  {
    seq(|a|, i requires 0 <= i < |a| => a[i] * b[i])
  }

  /** The inner product of a and b. */
  function Dot(a: seq<real>, b: seq<real>): real
    requires |a| == |b|
  {
    Sum(Products(a, b))
  }

  lemma {:induction false} SumPlus(a: seq<real>, b: seq<real>)
    requires |a| == |b|
    ensures Sum(Plus(a, b)) == Sum(a) + Sum(b)
    decreases |a|
  {
    if a != [] {
      var n := |a| - 1;
      assert Plus(a, b)[..n] == Plus(a[..n], b[..n]);
      SumPlus(a[..n], b[..n]);
    }
  }

  lemma {:induction false} SumMinus(a: seq<real>, b: seq<real>)
    requires |a| == |b|
    ensures Sum(Minus(a, b)) == Sum(a) - Sum(b)
    decreases |a|
  {
    if a != [] {
      var n := |a| - 1;
      assert Minus(a, b)[..n] == Minus(a[..n], b[..n]);
      SumMinus(a[..n], b[..n]);
    }
  }

  lemma {:induction false} SumTimes(a: seq<real>, t: real)
    ensures Sum(Times(a, t)) == Sum(a) * t
    decreases |a|
  {
    if a != [] {
      var n := |a| - 1;
      forall i | 0 <= i < n
        ensures Times(a, t)[..n][i] == Times(a[..n], t)[i]
      {
        assert a[..n][i] == a[i];
      }
      assert Times(a, t)[..n] == Times(a[..n], t);
      SumTimes(a[..n], t);
      Distribute(Sum(a[..n]), a[n], t);
    }
  }

  lemma Distribute(x: real, y: real, t: real)
    ensures (x + y) * t == x * t + y * t
  {
  }

  /** The inner product does not depend on the order of its arguments. */
  lemma DotSymmetric(a: seq<real>, b: seq<real>)
    requires |a| == |b|
    ensures Dot(a, b) == Dot(b, a)
  {
    assert Products(a, b) == Products(b, a);
  }

  lemma DotPlus(a: seq<real>, x: seq<real>, y: seq<real>)
    requires |a| == |x| == |y|
    ensures Dot(a, Plus(x, y)) == Dot(a, x) + Dot(a, y)
  {
    forall i | 0 <= i < |a|
      ensures Products(a, Plus(x, y))[i] == Plus(Products(a, x), Products(a, y))[i]
    {
      Distribute(x[i], y[i], a[i]);
    }
    assert Products(a, Plus(x, y)) == Plus(Products(a, x), Products(a, y));
    SumPlus(Products(a, x), Products(a, y));
  }

  lemma DotMinus(a: seq<real>, x: seq<real>, y: seq<real>)
    requires |a| == |x| == |y|
    ensures Dot(a, Minus(x, y)) == Dot(a, x) - Dot(a, y)
  {
    forall i | 0 <= i < |a|
      ensures Products(a, Minus(x, y))[i] == Minus(Products(a, x), Products(a, y))[i]
    {
      Distribute(x[i], -y[i], a[i]);
    }
    assert Products(a, Minus(x, y)) == Minus(Products(a, x), Products(a, y));
    SumMinus(Products(a, x), Products(a, y));
  }

  lemma DotTimes(a: seq<real>, x: seq<real>, t: real)
    requires |a| == |x|
    ensures Dot(a, Times(x, t)) == Dot(a, x) * t
  {
    forall i | 0 <= i < |a|
      ensures Products(a, Times(x, t))[i] == Times(Products(a, x), t)[i]
    {
      Associate(a[i], x[i], t);
    }
    assert Products(a, Times(x, t)) == Times(Products(a, x), t);
    SumTimes(Products(a, x), t);
  }

  lemma Associate(a: real, x: real, t: real)
    ensures a * (x * t) == (a * x) * t
  {
  }

  lemma DotZeros(a: seq<real>)
    ensures Dot(a, Zeros(|a|)) == 0.0
  {
    SumConstant(Products(a, Zeros(|a|)), 0.0);
  }

  /** Dividing the second argument by c divides the inner product by c. */
  lemma DotScaled(a: seq<real>, x: seq<real>, c: real)
    requires |a| == |x| && c != 0.0
    ensures Dot(a, Scaled(x, c)) == Dot(a, x) / c
  {
    forall i | 0 <= i < |a|
      ensures Products(a, Scaled(x, c))[i] == Scaled(Products(a, x), c)[i]
    {
      TimesQuotient(a[i], x[i], c);
    }
    assert Products(a, Scaled(x, c)) == Scaled(Products(a, x), c);
    SumScaled(Products(a, x), c);
  }

  lemma TimesQuotient(a: real, x: real, c: real)
    requires c != 0.0
    ensures a * (x / c) == (a * x) / c
  {
  }

  /** Dividing a vector by its Euclidean norm c (positive, with c * c the
   *  inner product of the vector with itself) leaves a unit vector. */
  lemma UnitScaled(x: seq<real>, c: real)
    requires c > 0.0 && Dot(x, x) > 0.0 && c * c == Dot(x, x)
    ensures Dot(Scaled(x, c), Scaled(x, c)) == 1.0
  {
    var u := Scaled(x, c);
    var cc := c * c;
    forall i | 0 <= i < |x|
      ensures Products(u, u)[i] == Scaled(Products(x, x), cc)[i]
    {
      QuotientSquare(x[i], c, u[i], cc);
    }
    assert Products(u, u) == Scaled(Products(x, x), cc);
    SumScaled(Products(x, x), cc);
    SelfQuotient(cc);
  }

  /** Squaring commutes with division by c, for c * c positive. */
  lemma QuotientSquare(x: real, c: real, a: real, cc: real)
    requires c > 0.0 && a == x / c && cc == c * c && cc > 0.0
    ensures a * a == (x * x) / cc
  {
    assert a * c == x;
    ProductOfProducts(a, a, c, c);
    assert (a * a) * cc == x * x;
  }

  /** Rearranging a product of four factors. */
  lemma ProductOfProducts(a: real, b: real, c: real, d: real)
    ensures (a * b) * (c * d) == (a * c) * (b * d)
  {
  }

  // ---------------------------------------------------------------------
  // Columns

  /** Every column has len entries. */
  predicate Columns(cols: seq<seq<real>>, len: nat)
  {
    forall c :: 0 <= c < |cols| ==> |cols[c]| == len
  }

  /** The sum of the columns, column j multiplied by h[j]. */
  function Combination(cols: seq<seq<real>>, h: seq<real>, len: nat): (r: seq<real>)
    requires Columns(cols, len) && |h| == |cols|
    ensures |r| == len
    decreases |cols|
  {
    if cols == [] then Zeros(len)
    else
      var m := |cols| - 1;
      Plus(Combination(cols[..m], h[..m], len), Times(cols[m], h[m]))
  }

  /** A combination with all-zero coefficients is the zero vector. */
  lemma {:induction false} CombinationZeros(cols: seq<seq<real>>, len: nat)
    requires Columns(cols, len)
    ensures Combination(cols, Zeros(|cols|), len) == Zeros(len)
    decreases |cols|
  {
    if cols != [] {
      var m := |cols| - 1;
      assert Zeros(|cols|)[..m] == Zeros(m);
      CombinationZeros(cols[..m], len);
    }
  }

  /** Combination is linear in the coefficients. */
  lemma {:induction false} CombinationPlus(cols: seq<seq<real>>, a: seq<real>, b: seq<real>, len: nat)
    requires Columns(cols, len) && |a| == |cols| && |b| == |cols|
    ensures Combination(cols, Plus(a, b), len) == Plus(Combination(cols, a, len), Combination(cols, b, len))
    decreases |cols|
  {
    if cols != [] {
      var m := |cols| - 1;
      assert Plus(a, b)[..m] == Plus(a[..m], b[..m]);
      CombinationPlus(cols[..m], a[..m], b[..m], len);
      var ca, cb := Combination(cols[..m], a[..m], len), Combination(cols[..m], b[..m], len);
      var l := Combination(cols, Plus(a, b), len);
      var xa, xb := Combination(cols, a, len), Combination(cols, b, len);
      var r := Plus(xa, xb);
      assert l == Plus(Plus(ca, cb), Times(cols[m], a[m] + b[m]));
      assert xa == Plus(ca, Times(cols[m], a[m])) && xb == Plus(cb, Times(cols[m], b[m]));
      forall i | 0 <= i < len
        ensures l[i] == r[i]
      {
        Distribute2(cols[m][i], a[m], b[m]);
      }
    }
  }

  lemma Distribute2(x: real, s: real, t: real)
    ensures x * (s + t) == x * s + x * t
  {
  }

  /** The inner products of v with each column. */
  function Projections(cols: seq<seq<real>>, v: seq<real>): (h: seq<real>)
    requires Columns(cols, |v|)
    ensures |h| == |cols| && forall j :: 0 <= j < |cols| ==> h[j] == Dot(cols[j], v)
  {
    seq(|cols|, j requires 0 <= j < |cols| => Dot(cols[j], v))
  }

  /** Unit columns, each orthogonal to every other. */
  ghost predicate Orthonormal(cols: seq<seq<real>>, len: nat)
    requires Columns(cols, len)
  {
    forall c, d :: 0 <= c < |cols| && 0 <= d < |cols| ==>
      Dot(cols[c], cols[d]) == (if c == d then 1.0 else 0.0)
  }

  /** v is orthogonal to every column. */
  ghost predicate OrthogonalTo(v: seq<real>, cols: seq<seq<real>>)
    requires Columns(cols, |v|)
  {
    forall c :: 0 <= c < |cols| ==> Dot(cols[c], v) == 0.0
  }

  /** A vector orthogonal to every column is orthogonal to every
   *  combination of them. */
  lemma {:induction false} OrthogonalCombination(a: seq<real>, cols: seq<seq<real>>, h: seq<real>)
    requires Columns(cols, |a|) && |h| == |cols|
    requires forall j :: 0 <= j < |cols| ==> Dot(a, cols[j]) == 0.0
    ensures Dot(a, Combination(cols, h, |a|)) == 0.0
    decreases |cols|
  {
    if cols == [] {
      DotZeros(a);
    } else {
      var m := |cols| - 1;
      OrthogonalCombination(a, cols[..m], h[..m]);
      DotPlus(a, Combination(cols[..m], h[..m], |a|), Times(cols[m], h[m]));
      DotTimes(a, cols[m], h[m]);
    }
  }

  /** The inner product of an orthonormal column with a combination picks
   *  out that column's coefficient. */
  lemma {:induction false} ProjectCombination(cols: seq<seq<real>>, h: seq<real>, len: nat, c: nat)
    requires Columns(cols, len) && |h| == |cols| && Orthonormal(cols, len) && c < |cols|
    ensures Dot(cols[c], Combination(cols, h, len)) == h[c]
    decreases |cols|
  {
    var m := |cols| - 1;
    var a := cols[c];
    var rest := Combination(cols[..m], h[..m], len);
    DotPlus(a, rest, Times(cols[m], h[m]));
    DotTimes(a, cols[m], h[m]);
    if c < m {
      assert Orthonormal(cols[..m], len);
      ProjectCombination(cols[..m], h[..m], len, c);
      assert Dot(a, cols[m]) == 0.0;
    } else {
      forall j | 0 <= j < m
        ensures Dot(a, cols[..m][j]) == 0.0
      {
        assert Dot(cols[m], cols[j]) == 0.0;
      }
      OrthogonalCombination(a, cols[..m], h[..m]);
      assert Dot(a, cols[m]) == 1.0;
    }
  }

  /** Subtracting from v its projections on orthonormal columns leaves a
   *  vector orthogonal to all of them. */
  lemma Orthogonalized(cols: seq<seq<real>>, v: seq<real>)
    requires Columns(cols, |v|) && Orthonormal(cols, |v|)
    ensures OrthogonalTo(Minus(v, Combination(cols, Projections(cols, v), |v|)), cols)
  {
    var h := Projections(cols, v);
    var w := Combination(cols, h, |v|);
    forall c | 0 <= c < |cols|
      ensures Dot(cols[c], Minus(v, w)) == 0.0
    {
      DotMinus(cols[c], v, w);
      ProjectCombination(cols, h, |v|, c);
    }
  }

  /** A unit vector orthogonal to orthonormal columns extends them to an
   *  orthonormal set. */
  lemma OrthonormalSnoc(cols: seq<seq<real>>, u: seq<real>)
    requires Columns(cols, |u|) && Orthonormal(cols, |u|)
    requires OrthogonalTo(u, cols) && Dot(u, u) == 1.0
    ensures Columns(cols + [u], |u|) && Orthonormal(cols + [u], |u|)
  {
    var e := cols + [u];
    forall c, d | 0 <= c < |e| && 0 <= d < |e|
      ensures Dot(e[c], e[d]) == (if c == d then 1.0 else 0.0)
    {
      if c < |cols| && d == |cols| {
        assert Dot(e[c], e[d]) == Dot(cols[c], u);
      } else if c == |cols| && d < |cols| {
        DotSymmetric(u, cols[d]);
      }
    }
  }

  /** Dividing a vector orthogonal to the columns keeps it orthogonal. */
  lemma OrthogonalScaled(v: seq<real>, cols: seq<seq<real>>, c: real)
    requires Columns(cols, |v|) && OrthogonalTo(v, cols) && c != 0.0
    ensures OrthogonalTo(Scaled(v, c), cols)
  {
    forall j | 0 <= j < |cols|
      ensures Dot(cols[j], Scaled(v, c)) == 0.0
    {
      DotScaled(cols[j], v, c);
    }
  }
}
