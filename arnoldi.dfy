/** Arnoldi's method with explicit or implicit restarts: the Arnoldi
 *  factorisation is built one column at a time (normalise, store, apply
 *  the operator, orthogonalise against the stored columns), the Ritz
 *  values of the Hessenberg matrix are sorted by real and then imaginary
 *  part, and each restart either sums the wanted Ritz vectors into a new
 *  starting vector or applies the shifted QR algorithm. The operator, the
 *  Euclidean norm, the complex modulus, the dense eigensolver and the
 *  shifted QR algorithm are numerical kernels given to the model. */
module ArnoldiMethod {
  import opened RealSums
  import opened RealVectors
  import U = Utilities

  // ---------------------------------------------------------------------
  // Ordering and sorting eigenpairs

  /** An eigenvalue with its position in the list the eigensolver returned. */
  datatype EigenPair = EigenPair(value: U.Complex, index: nat)

  /** x comes before y: by real part, and by imaginary part when the real
   *  parts are equal. */
  predicate PairCompare(x: EigenPair, y: EigenPair)
  {
    if x.value.re == y.value.re then x.value.im < y.value.im else x.value.re < y.value.re
  }

  /** The comparison is a strict weak order whose ties are exactly the
   *  pairs with equal eigenvalues. */
  lemma PairCompareOrder(x: EigenPair, y: EigenPair, z: EigenPair)
    ensures !PairCompare(x, x)
    ensures PairCompare(x, y) ==> !PairCompare(y, x)
    ensures PairCompare(x, y) && PairCompare(y, z) ==> PairCompare(x, z)
    ensures !PairCompare(x, y) && !PairCompare(y, x) <==> x.value == y.value
  {
  }

  /** The order a stable sort leaves: by the comparison, ties kept in their
   *  original order. */
  predicate Before(x: EigenPair, y: EigenPair)
  {
    PairCompare(x, y) || (x.value == y.value && x.index < y.index)
  }

  ghost predicate StablySorted(ps: seq<EigenPair>)
  {
    forall a, b :: 0 <= a < b < |ps| ==> Before(ps[a], ps[b])
  }

  /** The eigenvalues paired with their positions. */
  function Indexed(values: seq<U.Complex>): (ps: seq<EigenPair>)
    ensures |ps| == |values|
    ensures forall i :: 0 <= i < |values| ==> ps[i] == EigenPair(values[i], i)
  {
    seq(|values|, i requires 0 <= i < |values| => EigenPair(values[i], i))
  }

  /** Where x goes in s: before the first entry it compares less than, or
   *  at the end. */
  function Position(s: seq<EigenPair>, x: EigenPair): (p: nat)
    ensures p <= |s|
    ensures forall q :: 0 <= q < p ==> !PairCompare(x, s[q])
    ensures p < |s| ==> PairCompare(x, s[p])
  {
    if s == [] then 0
    else if PairCompare(x, s[0]) then 0
    else 1 + Position(s[1..], x)
  }

  /** x inserted into s after every entry it does not compare less than. */
  function Insert(s: seq<EigenPair>, x: EigenPair): (r: seq<EigenPair>)
    ensures |r| == |s| + 1
  {
    var p := Position(s, x);
    s[..p] + [x] + s[p..]
  }

  /** The stable insertion sort of ps. */
  function StableSorted(ps: seq<EigenPair>): (r: seq<EigenPair>)
    ensures |r| == |ps|
    decreases |ps|
  {
    if ps == [] then []
    else Insert(StableSorted(ps[..|ps| - 1]), ps[|ps| - 1])
  }

  /** Insert keeps the entries before the insertion point, puts x there
   *  and shifts the rest up by one. */
  lemma InsertEntries(s: seq<EigenPair>, x: EigenPair)
    ensures var p, r := Position(s, x), Insert(s, x);
      r[p] == x &&
      (forall i :: 0 <= i < p ==> r[i] == s[i]) &&
      (forall i :: p < i < |r| ==> r[i] == s[i - 1])
    ensures multiset(Insert(s, x)) == multiset(s) + multiset{x}
  {
    var p := Position(s, x);
    var a, b := s[..p], s[p..];
    var r := a + [x] + b;
    assert r == Insert(s, x);
    forall i | p < i < |r|
      ensures r[i] == s[i - 1]
    {
      assert r[i] == b[i - p - 1];
    }
    assert s == a + b;
  }

  /** Inserting an entry that comes after all of a sorted list's entries in
   *  the original order keeps the list sorted and adds just that entry. */
  lemma InsertSorted(s: seq<EigenPair>, x: EigenPair)
    requires StablySorted(s)
    requires forall e :: e in s ==> e.index < x.index
    ensures StablySorted(Insert(s, x))
    ensures multiset(Insert(s, x)) == multiset(s) + multiset{x}
  {
    var p := Position(s, x);
    var r := Insert(s, x);
    InsertEntries(s, x);
    forall a, b | 0 <= a < b < |r|
      ensures Before(r[a], r[b])
    {
      if b == p {
        assert s[a] in s;
        PairCompareOrder(x, s[a], x);
      } else if a == p && b - 1 > p {
        assert Before(s[p], s[b - 1]);
        PairCompareOrder(x, s[p], s[b - 1]);
      }
    }
  }

  /** The insertion sort of pairs numbered in order is a stably sorted
   *  permutation of them. */
  lemma {:induction false} StableSortedCorrect(ps: seq<EigenPair>)
    requires forall i :: 0 <= i < |ps| ==> ps[i].index == i
    ensures StablySorted(StableSorted(ps))
    ensures multiset(StableSorted(ps)) == multiset(ps)
    decreases |ps|
  {
    if ps != [] {
      var n := |ps| - 1;
      var init := ps[..n];
      StableSortedCorrect(init);
      var s := StableSorted(init);
      forall e | e in s
        ensures e.index < ps[n].index
      {
        assert e in multiset(s);
        assert e in init;
      }
      InsertSorted(s, ps[n]);
      assert ps == init + [ps[n]];
    }
  }

  /** The first entry of a stably sorted list comes before every other. */
  lemma SortedHead(a: seq<EigenPair>, e: EigenPair)
    requires StablySorted(a) && e in a && e != a[0]
    ensures Before(a[0], e)
  {
  }

  /** The rest of a stably sorted list is stably sorted. */
  lemma SortedTail(a: seq<EigenPair>)
    requires StablySorted(a) && a != []
    ensures StablySorted(a[1..])
  {
    forall x, y | 0 <= x < y < |a| - 1
      ensures Before(a[1..][x], a[1..][y])
    {
      assert a[1..][x] == a[x + 1] && a[1..][y] == a[y + 1];
    }
  }

  /** A stably sorted list is fixed by its entries: two of them with the
   *  same entries are equal, so any stable sort agrees with
   *  StableSorted. */
  lemma {:induction false} StablySortedUnique(a: seq<EigenPair>, b: seq<EigenPair>)
    requires StablySorted(a) && StablySorted(b) && multiset(a) == multiset(b)
    ensures a == b
    decreases |a|
  {
    assert |a| == |multiset(a)| == |b|;
    if a != [] {
      assert a[0] in multiset(b) && b[0] in multiset(a);
      if a[0] != b[0] {
        SortedHead(a, b[0]);
        SortedHead(b, a[0]);
        PairCompareOrder(a[0], b[0], a[0]);
        assert false;
      }
      assert a == [a[0]] + a[1..] && b == [b[0]] + b[1..];
      assert multiset(a[1..]) == multiset(a) - multiset{a[0]} == multiset(b[1..]);
      SortedTail(a);
      SortedTail(b);
      StablySortedUnique(a[1..], b[1..]);
    }
  }

  /** The stable sort of the pairs: each pair is inserted into the sorted
   *  list before the first entry it compares less than. */
  method StableSort(ps: seq<EigenPair>) returns (sorted: seq<EigenPair>)
    ensures sorted == StableSorted(ps)
  {
    sorted := [];
    var i := 0;
    while i < |ps|
      invariant 0 <= i <= |ps| && sorted == StableSorted(ps[..i])
    {
      var x := ps[i];
      var p := 0;
      while p < |sorted| && !PairCompare(x, sorted[p])
        invariant 0 <= p <= |sorted|
        invariant forall q :: 0 <= q < p ==> !PairCompare(x, sorted[q])
      {
        p := p + 1;
      }
      assert p == Position(sorted, x);
      assert ps[..i + 1][..i] == ps[..i];
      sorted := sorted[..p] + [x] + sorted[p..];
      i := i + 1;
    }
    assert ps[..i] == ps;
  }

  /** The eigenvalues sorted by real and then imaginary part, ties in their
   *  original order, each eigenvector (a column of vectors) moved with its
   *  eigenvalue. */
  method SortEigenPairs(values: seq<U.Complex>, vectors: seq<seq<U.Complex>>)
    returns (eigenvalues: seq<U.Complex>, eigenvectors: seq<seq<U.Complex>>)
    requires |vectors| == |values|
    ensures |eigenvalues| == |values| && |eigenvectors| == |values|
    ensures var order := StableSorted(Indexed(values));
      forall i :: 0 <= i < |values| ==>
        order[i].index < |values| &&
        eigenvalues[i] == values[order[i].index] && eigenvectors[i] == vectors[order[i].index]
  {
    var pairs: seq<EigenPair> := [];
    var index := 0;
    while index < |values|
      invariant 0 <= index <= |values| && pairs == Indexed(values[..index])
    {
      pairs := pairs + [EigenPair(values[index], index)];
      index := index + 1;
    }
    assert values[..index] == values;
    pairs := StableSort(pairs);
    StableSortedCorrect(Indexed(values));
    forall i | 0 <= i < |pairs|
      ensures pairs[i].index < |values|
    {
      assert pairs[i] in multiset(pairs);
      assert pairs[i] in Indexed(values);
    }
    eigenvalues, eigenvectors := Reorder(pairs, values, vectors);
  }

  /** The eigenvalues and eigenvectors in the order the pairs give. */
  method Reorder(order: seq<EigenPair>, values: seq<U.Complex>, vectors: seq<seq<U.Complex>>)
    returns (eigenvalues: seq<U.Complex>, eigenvectors: seq<seq<U.Complex>>)
    requires |vectors| == |values|
    requires forall i :: 0 <= i < |order| ==> order[i].index < |values|
    ensures |eigenvalues| == |order| && |eigenvectors| == |order|
    ensures forall i :: 0 <= i < |order| ==>
      eigenvalues[i] == values[order[i].index] && eigenvectors[i] == vectors[order[i].index]
  {
    eigenvalues, eigenvectors := [], [];
    var i := 0;
    while i < |order|
      invariant 0 <= i <= |order| && |eigenvalues| == i && |eigenvectors| == i
      invariant forall c :: 0 <= c < i ==>
        eigenvalues[c] == values[order[c].index] && eigenvectors[c] == vectors[order[c].index]
    {
      var index := order[i].index;
      eigenvalues := eigenvalues + [values[index]];
      eigenvectors := eigenvectors + [vectors[index]];
      i := i + 1;
    }
  }

  /** No eigenvalue compares less than one before it. */
  ghost predicate InOrder(values: seq<U.Complex>)
  {
    forall a, b :: 0 <= a < b < |values| ==>
      !PairCompare(EigenPair(values[b], 0), EigenPair(values[a], 0))
  }

  /** The sorted eigenvalues are in order: no eigenvalue compares less than
   *  one before it, and equal eigenvalues keep their original order. */
  lemma SortedEigenvalues(values: seq<U.Complex>, eigenvalues: seq<U.Complex>)
    requires |eigenvalues| == |values|
    requires forall i :: 0 <= i < |values| ==>
      var order := StableSorted(Indexed(values));
      order[i].index < |values| && eigenvalues[i] == values[order[i].index]
    ensures InOrder(eigenvalues)
  {
    var order := StableSorted(Indexed(values));
    StableSortedCorrect(Indexed(values));
    forall i | 0 <= i < |values|
      ensures order[i].value == values[order[i].index]
    {
      assert order[i] in multiset(order);
      assert order[i] in Indexed(values);
    }
    forall a, b | 0 <= a < b < |values|
      ensures !PairCompare(EigenPair(eigenvalues[b], 0), EigenPair(eigenvalues[a], 0))
    {
      assert Before(order[a], order[b]);
    }
  }

  // ---------------------------------------------------------------------
  // Matrices

  /** Every row of m has as many entries as m has rows. */
  predicate Square(m: seq<seq<real>>)
  {
    forall i :: 0 <= i < |m| ==> |m[i]| == |m|
  }

  /** An upper Hessenberg matrix: zero below the first subdiagonal. */
  ghost predicate Hessenberg(m: seq<seq<real>>)
    requires Square(m)
  {
    forall i, j :: 0 <= i < |m| && 0 <= j && j + 1 < i ==> m[i][j] == 0.0
  }

  /** The s-by-s zero matrix. */
  function ZeroMatrix(s: nat): (m: seq<seq<real>>)
    ensures |m| == s && Square(m) && Hessenberg(m)
  {
    seq(s, i => Zeros(s))
  }

  /** m with the first |h| entries of column c replaced by h. */
  function SetColumn(m: seq<seq<real>>, c: nat, h: seq<real>): (r: seq<seq<real>>)
    requires |h| <= |m| && forall i :: 0 <= i < |h| ==> c < |m[i]|
    ensures |r| == |m| && forall i :: 0 <= i < |m| ==> |r[i]| == |m[i]|
    ensures forall i, j :: 0 <= i < |m| && 0 <= j < |m[i]| ==>
      r[i][j] == if i < |h| && j == c then h[i] else m[i][j]
  {
    seq(|m|, i requires 0 <= i < |m| => if i < |h| then m[i][c := h[i]] else m[i])
  }

  /** The leading s-by-s block of a square matrix. */
  function Block(m: seq<seq<real>>, s: nat): (b: seq<seq<real>>)
    requires Square(m) && s <= |m|
    ensures |b| == s && Square(b)
    ensures forall i, j :: 0 <= i < s && 0 <= j < s ==> b[i][j] == m[i][j]
  {
    seq(s, i requires 0 <= i < s => m[i][..s])
  }

  /** The entries of m on and above its first subdiagonal, with zeros
   *  below: the loop that clears the rounding error the shifted QR
   *  algorithm leaves there. */
  method ClearBelowSubdiagonal(m: seq<seq<real>>) returns (r: seq<seq<real>>)
    ensures |r| == |m| && forall i :: 0 <= i < |m| ==> |r[i]| == |m[i]|
    ensures forall i, j :: 0 <= i < |m| && 0 <= j < |m[i]| ==>
      r[i][j] == if j + 1 < i then 0.0 else m[i][j]
  {
    r := m;
    var i := 0;
    while i < |m|
      invariant 0 <= i <= |m| && |r| == |m|
      invariant forall a :: 0 <= a < |m| ==> |r[a]| == |m[a]|
      invariant forall a, b :: 0 <= a < |m| && 0 <= b < |m[a]| ==>
        r[a][b] == if a < i && b + 1 < a then 0.0 else m[a][b]
    {
      var j := 0;
      while j < i - 1
        invariant 0 <= j <= i && (j <= i - 1 || i == 0) && |r| == |m|
        invariant forall a :: 0 <= a < |m| ==> |r[a]| == |m[a]|
        invariant forall a, b :: 0 <= a < |m| && 0 <= b < |m[a]| ==>
          r[a][b] == if (a < i && b + 1 < a) || (a == i && b < j) then 0.0 else m[a][b]
      {
        if j < |r[i]| {
          r := r[i := r[i][j := 0.0]];
        }
        j := j + 1;
      }
      i := i + 1;
    }
  }

  /** Clearing below the subdiagonal of a square matrix leaves an upper
   *  Hessenberg matrix that agrees with it on and above the subdiagonal. */
  lemma ClearedIsHessenberg(m: seq<seq<real>>, r: seq<seq<real>>)
    requires Square(m) && |r| == |m| && forall i :: 0 <= i < |m| ==> |r[i]| == |m[i]|
    requires forall i, j :: 0 <= i < |m| && 0 <= j < |m[i]| ==>
      r[i][j] == if j + 1 < i then 0.0 else m[i][j]
    ensures Square(r) && Hessenberg(r)
    ensures forall i, j :: 0 <= i < |m| && 0 <= j < |m| && i <= j + 1 ==> r[i][j] == m[i][j]
  {
  }

  /** v minus its projections onto the columns: the Gram-Schmidt step. */
  function Deflated(cols: seq<seq<real>>, v: seq<real>): (r: seq<real>)
    requires Columns(cols, |v|)
    ensures |r| == |v|
  {
    Minus(v, Combination(cols, Projections(cols, v), |v|))
  }

  /** The first m columns are orthonormal and w is orthogonal to them. */
  ghost predicate OrthoPrefix(cols: seq<seq<real>>, m: nat, w: seq<real>)
  {
    m <= |cols| && Columns(cols[..m], |w|) && Orthonormal(cols[..m], |w|) && OrthogonalTo(w, cols[..m])
  }

  /** The Ritz vectors: the columns times each eigenvector of the
   *  Hessenberg matrix, in complex arithmetic. */
  function RitzVectors(cols: seq<seq<real>>, e: seq<seq<U.Complex>>, len: nat): (r: seq<seq<U.Complex>>)
    requires Columns(cols, len) && forall j :: 0 <= j < |e| ==> |e[j]| == |cols|
    ensures |r| == |e| && forall j :: 0 <= j < |e| ==> |r[j]| == len
  {
    seq(|e|, j requires 0 <= j < |e| =>
      U.Joined(Combination(cols, U.RealParts(e[j]), len), Combination(cols, U.ImagParts(e[j]), len)))
  }

  lemma OrthoPrefixOf(cols: seq<seq<real>>, m: nat, w: seq<real>)
    requires m <= |cols| && Columns(cols[..m], |w|)
    requires Orthonormal(cols[..m], |w|) && OrthogonalTo(w, cols[..m])
    ensures OrthoPrefix(cols, m, w)
  {
  }

  lemma SamePrefix(cols: seq<seq<real>>, m: nat, m': nat, w: seq<real>)
    requires m == m' && OrthoPrefix(cols, m, w)
    ensures OrthoPrefix(cols, m', w)
  {
  }

  /** Storing v scaled to unit length in column k, after k orthonormal
   *  columns v is orthogonal to, leaves k + 1 orthonormal columns. */
  lemma NewColumnOrtho(cols: seq<seq<real>>, k: nat, v: seq<real>, c: real)
    requires OrthoPrefix(cols, k, v) && k < |cols| && c != 0.0
    requires Dot(Scaled(v, c), Scaled(v, c)) == 1.0
    ensures Columns(cols[k := Scaled(v, c)][..k + 1], |v|)
    ensures Orthonormal(cols[k := Scaled(v, c)][..k + 1], |v|)
  {
    var q := Scaled(v, c);
    assert cols[k := q][..k + 1] == cols[..k] + [q];
    OrthogonalScaled(v, cols[..k], c);
    OrthonormalSnoc(cols[..k], q);
  }

  /** Storing v scaled to unit length in column k, after k orthonormal
   *  columns v is orthogonal to, and deflating a vector by the first
   *  k + 1 columns keeps the prefix orthonormal with the result
   *  orthogonal to it. */
  lemma IterationOrtho(cols: seq<seq<real>>, k: nat, v: seq<real>, c: real,
                       cols': seq<seq<real>>, u: seq<real>, w: seq<real>, len: nat)
    requires OrthoPrefix(cols, k, v) && k < |cols| && |v| == len && |w| == len
    requires c > 0.0 && Dot(v, v) > 0.0 && c * c == Dot(v, v)
    requires cols' == cols[k := Scaled(v, c)] && Columns(cols'[..k + 1], len)
    requires |u| == len && w == Deflated(cols'[..k + 1], u)
    ensures OrthoPrefix(cols', k + 1, w)
  {
    UnitScaled(v, c);
    NewColumnOrtho(cols, k, v, c);
    Orthogonalized(cols'[..k + 1], u);
  }

  /** The real parts of the last n columns of r, added up. */
  function WantedSum(r: seq<seq<U.Complex>>, n: nat, len: nat): (v: seq<real>)
    requires n <= |r| && forall j :: 0 <= j < |r| ==> |r[j]| == len
    ensures |v| == len
  {
    if n == 0 then Zeros(len) else Plus(WantedSum(r, n - 1, len), U.RealParts(r[|r| - n]))
  }

  /** The real parts of the last n eigenvectors, added up. */
  function WantedCoefficients(e: seq<seq<U.Complex>>, n: nat, size: nat): (h: seq<real>)
    requires n <= |e| && forall j :: 0 <= j < |e| ==> |e[j]| == size
    ensures |h| == size
  {
    if n == 0 then Zeros(size) else Plus(WantedCoefficients(e, n - 1, size), U.RealParts(e[|e| - n]))
  }

  /** The real part of a Ritz vector is the combination of the columns by
   *  the real parts of the eigenvector. */
  lemma RitzRealPart(cols: seq<seq<real>>, e: seq<seq<U.Complex>>, len: nat, j: nat)
    requires Columns(cols, len) && forall c :: 0 <= c < |e| ==> |e[c]| == |cols|
    requires j < |e|
    ensures U.RealParts(RitzVectors(cols, e, len)[j]) == Combination(cols, U.RealParts(e[j]), len)
  {
    U.SplitJoin(e[j], Combination(cols, U.RealParts(e[j]), len), Combination(cols, U.ImagParts(e[j]), len));
  }

  /** The explicit restart vector lies in the span of the Arnoldi vectors:
   *  it is the combination of them whose coefficients are the real parts
   *  of the wanted eigenvectors of the Hessenberg matrix, added up. */
  lemma {:induction false} WantedSumInSpan(cols: seq<seq<real>>, e: seq<seq<U.Complex>>, n: nat, len: nat)
    requires Columns(cols, len) && forall j :: 0 <= j < |e| ==> |e[j]| == |cols|
    requires n <= |e|
    ensures WantedSum(RitzVectors(cols, e, len), n, len) == Combination(cols, WantedCoefficients(e, n, |cols|), len)
  {
    if n == 0 {
      CombinationZeros(cols, len);
    } else {
      WantedSumInSpan(cols, e, n - 1, len);
      WantedSumStep(cols, e, n, len);
    }
  }

  /** One more wanted vector on both sides of WantedSumInSpan. */
  lemma WantedSumStep(cols: seq<seq<real>>, e: seq<seq<U.Complex>>, n: nat, len: nat)
    requires Columns(cols, len) && forall j :: 0 <= j < |e| ==> |e[j]| == |cols|
    requires 0 < n <= |e|
    requires WantedSum(RitzVectors(cols, e, len), n - 1, len)
          == Combination(cols, WantedCoefficients(e, n - 1, |cols|), len)
    ensures WantedSum(RitzVectors(cols, e, len), n, len)
         == Combination(cols, WantedCoefficients(e, n, |cols|), len)
  {
    var j := |e| - n;
    var r := RitzVectors(cols, e, len);
    var a, b := WantedCoefficients(e, n - 1, |cols|), U.RealParts(e[j]);
    assert WantedSum(r, n, len) == Plus(WantedSum(r, n - 1, len), U.RealParts(r[j]));
    assert WantedCoefficients(e, n, |cols|) == Plus(a, b);
    RitzRealPart(cols, e, len, j);
    CombinationPlus(cols, a, b, len);
  }

  /** Column j of a square matrix given by rows. */
  function MatrixColumn(q: seq<seq<real>>, j: nat): (c: seq<real>)
    requires Square(q) && j < |q|
    ensures |c| == |q| && forall i :: 0 <= i < |q| ==> c[i] == q[i][j]
  {
    seq(|q|, i requires 0 <= i < |q| => q[i][j])
  }

  /** The first n columns replaced by the columns times the first n
   *  columns of q; the others kept. */
  function Rotated(cols: seq<seq<real>>, q: seq<seq<real>>, n: nat, len: nat): (r: seq<seq<real>>)
    requires Columns(cols, len) && Square(q) && |q| == |cols| && n <= |cols|
    ensures |r| == |cols| && Columns(r, len)
    ensures r[n..] == cols[n..]
  {
    seq(|cols|, j requires 0 <= j < |cols| =>
      if j < n then Combination(cols, MatrixColumn(q, j), len) else cols[j])
  }

  // ---------------------------------------------------------------------
  // The restarted Arnoldi class

  datatype RestartMethod = Explicit | Implicit

  /** The numerical kernels: the operator applied to an Arnoldi vector, the
   *  Euclidean norm, the complex modulus, the dense eigensolver (eigenvalues
   *  and normalised eigenvectors as columns) and the shifted QR algorithm
   *  (the transformed matrix and the accumulated orthogonal factor). */
  datatype Kernels = Kernels(
    op: seq<real> -> seq<real>,
    norm: seq<real> -> real,
    modulus: U.Complex -> real,
    eigen: seq<seq<real>> -> (seq<U.Complex>, seq<seq<U.Complex>>),
    qr: (seq<seq<real>>, seq<U.Complex>) -> (seq<seq<real>>, seq<seq<real>>))

  predicate EigenShape(m: seq<seq<real>>, e: (seq<U.Complex>, seq<seq<U.Complex>>))
  {
    |e.0| == |m| && |e.1| == |m| && forall c :: 0 <= c < |m| ==> |e.1[c]| == |m|
  }

  /** What the factorisation relies on: the operator keeps the length and
   *  the norm is the square root of the inner product, zero only for the
   *  zero vector. */
  ghost predicate VectorKernels(kn: Kernels)
  {
    (forall x :: |kn.op(x)| == |x|) && (forall x :: NormOf(kn, x))
  }

  /** The norm of x is the square root of its inner product with itself,
   *  zero only for the zero vector. */
  ghost predicate NormOf(kn: Kernels, x: seq<real>)
  {
    (kn.norm(x) > 0.0 && Dot(x, x) > 0.0 && kn.norm(x) * kn.norm(x) == Dot(x, x)) ||
    (kn.norm(x) == 0.0 && Dot(x, x) == 0.0)
  }

  /** What the restarts rely on: the modulus is non-negative, and the
   *  eigensolver and the QR algorithm return results of the right shape. */
  ghost predicate MatrixKernels(kn: Kernels)
  {
    (forall z :: kn.modulus(z) >= 0.0) &&
    (forall m :: EigenShape(m, kn.eigen(m))) &&
    (forall m, s :: Square(m) ==> |kn.qr(m, s).0| == |m| && Square(kn.qr(m, s).0) &&
                                  |kn.qr(m, s).1| == |m| && Square(kn.qr(m, s).1))
  }

  /** The eigenpairs of the leading (k + 1)-by-(k + 1) block of H, sorted,
   *  the Ritz vectors of the first k + 1 columns of V and the residual
   *  estimate: the modulus of the last entry of the last eigenvector times
   *  the norm of the vector left over by the factorisation. */
  method EigenPairs(H: seq<seq<real>>, V: seq<seq<real>>, k: nat, len: nat, w: seq<real>, kn: Kernels)
    returns (eigenvalues: seq<U.Complex>, eigenvectors: seq<seq<U.Complex>>,
             ritzvectors: seq<seq<U.Complex>>, residual: real)
    requires MatrixKernels(kn) && Square(H) && k < |H| && k < |V| && Columns(V, len)
    ensures |eigenvalues| == k + 1 && InOrder(eigenvalues)
    ensures |eigenvectors| == k + 1 && forall j :: 0 <= j < k + 1 ==> |eigenvectors[j]| == k + 1
    ensures ritzvectors == RitzVectors(V[..k + 1], eigenvectors, len)
    ensures residual == kn.modulus(eigenvectors[k][k]) * kn.norm(w)
  {
    var pairs := kn.eigen(Block(H, k + 1));
    eigenvalues, eigenvectors := SortEigenPairs(pairs.0, pairs.1);
    SortedEigenvalues(pairs.0, eigenvalues);
    ritzvectors := RitzVectors(V[..k + 1], eigenvectors, len);
    residual := kn.modulus(eigenvectors[k][k]) * kn.norm(w);
  }

  /** A fresh start of the factorisation with iters columns: H and V
   *  cleared, the start vector normalised into the first column, the
   *  operator applied to it, the result orthogonalised against it and the
   *  projection stored in the corner of H. A zero start vector is a
   *  breakdown (ok false). */
  method FreshStart(v: seq<real>, iters: nat, kn: Kernels)
    returns (H: seq<seq<real>>, V: seq<seq<real>>, w: seq<real>, ok: bool)
    requires VectorKernels(kn) && iters >= 1
    ensures Square(H) && Hessenberg(H) && |H| == iters && |V| == iters && Columns(V, |v|) && |w| == |v|
    ensures ok <==> Dot(v, v) > 0.0
    ensures ok <==> kn.norm(v) > 0.0
    ensures ok ==> V[0] == Scaled(v, kn.norm(v)) && OrthoPrefix(V, 1, w)
    ensures forall j :: 0 < j < iters ==> V[j] == Zeros(|v|)
    ensures forall i, j :: 0 <= i < iters && 0 <= j < iters && 0 < i + j ==> H[i][j] == 0.0
    ensures ok ==> H[0][0] == Dot(V[0], kn.op(V[0])) && w == Minus(kn.op(V[0]), Times(V[0], H[0][0]))
    ensures !ok ==> H == ZeroMatrix(iters) && V == seq(iters, _ => Zeros(|v|)) && w == v
  {
    H, V, w := ZeroMatrix(iters), seq(iters, _ => Zeros(|v|)), v;
    var c := kn.norm(v);
    assert NormOf(kn, v);
    ok := c != 0.0;
    if !ok {
      return;
    }
    var q := Scaled(v, c);
    UnitScaled(v, c);
    V := V[0 := q];
    w := kn.op(q);
    var alpha := Dot(q, w);
    DotMinus(q, w, Times(q, alpha));
    DotTimes(q, q, alpha);
    w := Minus(w, Times(q, alpha));
    H := H[0 := H[0][0 := alpha]];
    assert V[..1] == [q];
  }

  /** The real parts of the last n columns of r added to a zero vector,
   *  one column at a time from the last. */
  method AddWanted(r: seq<seq<U.Complex>>, n: nat, len: nat) returns (w: seq<real>)
    requires n <= |r| && forall j :: 0 <= j < |r| ==> |r[j]| == len
    ensures w == WantedSum(r, n, len)
  {
    w := Zeros(len);
    var m := |r|;
    var i := 0;
    while i < n
      invariant 0 <= i <= n && w == WantedSum(r, i, len)
    {
      w := Plus(w, U.RealParts(r[m - 1 - i]));
      i := i + 1;
    }
  }

  class Arnoldi {
    var I: nat          // iterations per restart
    var n: nat          // wanted eigenvalues
    var k: nat          // current iteration
    var R: nat          // restarts done
    var length: nat     // length of the Arnoldi vectors
    var H: seq<seq<real>>   // Hessenberg matrix, by rows
    var V: seq<seq<real>>   // Arnoldi vectors, by columns
    var eigenvalues: seq<U.Complex>
    var eigenvectors: seq<seq<U.Complex>>   // by columns
    var ritzvectors: seq<seq<U.Complex>>    // by columns
    var residual: real
    var restartMethod: RestartMethod

    ghost predicate Valid()
      reads this`H, this`V, this`k, this`length
    {
      Square(H) && Hessenberg(H) && |V| == |H| && Columns(V, length) && (k > 0 ==> k < |H|)
    }

    /** The fields the factorisation does not touch. */
    ghost function Settings(): (nat, nat, nat, RestartMethod)
      reads this`I, this`n, this`R, this`restartMethod
    {
      (I, n, R, restartMethod)
    }

    ghost function Results(): (seq<U.Complex>, seq<seq<U.Complex>>, seq<seq<U.Complex>>, real)
      reads this`eigenvalues, this`eigenvectors, this`ritzvectors, this`residual
    {
      (eigenvalues, eigenvectors, ritzvectors, residual)
    }

    constructor()
      ensures Valid() && k == 0 && H == [] && V == []
      ensures I == 0 && n == 0 && R == 0 && residual == 0.0
    {
      I, n, k, R, length := 0, 0, 0, 0, 0;
      H, V := [], [];
      eigenvalues, eigenvectors, ritzvectors := [], [], [];
      residual := 0.0;
      restartMethod := Explicit;
    }

    /** Store the norm of v below the diagonal in column k - 1 and return v
     *  divided by it, a unit vector; a zero v is a breakdown (ok false). */
    method Normalize(v: seq<real>, kn: Kernels) returns (q: seq<real>, ok: bool)
      requires Valid() && VectorKernels(kn) && 0 < k && |v| == length
      modifies this`H
      ensures Valid() && V == old(V) && k == old(k) && length == old(length)
      ensures H == old(H)[k := old(H)[k][k - 1 := kn.norm(v)]]
      ensures ok <==> Dot(v, v) > 0.0
      ensures ok <==> kn.norm(v) > 0.0
      ensures ok ==> q == Scaled(v, kn.norm(v)) && |q| == length && Dot(q, q) == 1.0
    {
      var c := kn.norm(v);
      assert NormOf(kn, v);
      H := H[k := H[k][k - 1 := c]];
      ok := c != 0.0;
      q := v;
      if ok {
        q := Scaled(v, c);
        UnitScaled(v, c);
      }
    }

    /** Project v onto the first k + 1 Arnoldi vectors, store the
     *  projections in column k of H and return v minus them. */
    method Orthogonalize(v: seq<real>) returns (w: seq<real>)
      requires Valid() && k < |H| && |v| == length
      modifies this`H
      ensures Valid() && V == old(V) && k == old(k) && length == old(length)
      ensures H == SetColumn(old(H), k, Projections(V[..k + 1], v))
      ensures w == Deflated(V[..k + 1], v)
      ensures Orthonormal(V[..k + 1], length) ==> OrthogonalTo(w, V[..k + 1])
    {
      var h := Projections(V[..k + 1], v);
      H := SetColumn(H, k, h);
      w := Minus(v, Combination(V[..k + 1], h, length));
      if Orthonormal(V[..k + 1], length) {
        Orthogonalized(V[..k + 1], v);
      }
    }

    /** One Arnoldi step: normalise v into column k of V, apply the
     *  operator to it and orthogonalise the result. */
    method Iteration(v: seq<real>, kn: Kernels) returns (w: seq<real>, ok: bool)
      requires Valid() && VectorKernels(kn) && 0 < k && |v| == length
      modifies this`H, this`V
      ensures Valid() && k == old(k) && length == old(length) && |H| == |old(H)| && |w| == length
      ensures ok <==> Dot(v, v) > 0.0
      ensures ok <==> kn.norm(v) > 0.0
      ensures !ok ==> V == old(V)
      ensures ok ==> V == old(V)[k := Scaled(v, kn.norm(v))] && w == Deflated(V[..k + 1], kn.op(V[k]))
      ensures ok ==> H == SetColumn(old(H)[k := old(H)[k][k - 1 := kn.norm(v)]], k, Projections(V[..k + 1], kn.op(V[k])))
    {
      var q;
      q, ok := Normalize(v, kn);
      w := v;
      if ok {
        w := FillColumn(q, kn);
      }
    }

    /** Put the unit vector q into column k of V, apply the operator to it
     *  and orthogonalise the result. */
    method FillColumn(q: seq<real>, kn: Kernels) returns (w: seq<real>)
      requires Valid() && VectorKernels(kn) && 0 < k && |q| == length
      modifies this`H, this`V
      ensures Valid() && k == old(k) && length == old(length) && |H| == |old(H)| && |w| == length
      ensures V == old(V)[k := q] && w == Deflated(V[..k + 1], kn.op(V[k]))
      ensures H == SetColumn(old(H), k, Projections(V[..k + 1], kn.op(V[k])))
    {
      V := V[k := q];
      assert V[k] == q;
      w := Orthogonalize(kn.op(q));
    }
  
    /** One pass of the factorisation loop: an Iteration at column k, then
     *  stop when k is iters - 1 or move on to the next column. */
    method Step(v: seq<real>, iters: nat, kn: Kernels) returns (w: seq<real>, ok: bool, stopped: bool)
      requires Valid() && VectorKernels(kn) && 0 < k < iters && |H| == iters && |v| == length
      modifies this`H, this`V, this`k
      ensures Valid() && |H| == iters && |w| == length
      ensures V[..old(k)] == old(V)[..old(k)]
      ensures ok && stopped ==> k == old(k) == iters - 1
      ensures ok && !stopped ==> k == old(k) + 1 < iters
      ensures ok && OrthoPrefix(old(V), old(k), v) ==> OrthoPrefix(V, old(k) + 1, w)
    {
      w, ok := Iteration(v, kn);
      assert V[..old(k)] == old(V)[..old(k)];
      if ok && OrthoPrefix(old(V), old(k), v) {
        assert NormOf(kn, v);
        IterationOrtho(old(V), k, v, kn.norm(v), V, kn.op(V[k]), w, length);
      }
      stopped := k == iters - 1;
      if !stopped {
        k := k + 1;
      }
    }

    /** Iterations from column k until k reaches iters - 1: the columns
     *  before k are kept, and the columns stay orthonormal with the
     *  returned vector orthogonal to them when that held at the start. */
    method Extend(v: seq<real>, iters: nat, kn: Kernels) returns (w: seq<real>, ok: bool)
      requires Valid() && VectorKernels(kn) && 0 < k && |H| == iters && |v| == length
      modifies this`H, this`V, this`k
      ensures Valid() && Settings() == old(Settings()) && Results() == old(Results())
      ensures |H| == iters && |w| == length && length == old(length)
      ensures V[..old(k)] == old(V)[..old(k)]
      ensures ok ==> k == iters - 1
      ensures ok && OrthoPrefix(old(V), old(k), v) ==> OrthoPrefix(V, k + 1, w)
    {
      ghost var tracked := OrthoPrefix(V, k, v);
      var stopped := false;
      w, ok := v, true;
      while !stopped
        invariant Valid() && |H| == iters && |w| == length && old(k) <= k < iters
        invariant V[..old(k)] == old(V)[..old(k)]
        invariant stopped ==> ok && k == iters - 1 && (tracked ==> OrthoPrefix(V, k + 1, w))
        invariant !stopped ==> tracked ==> OrthoPrefix(V, k, w)
        decreases iters - k, !stopped
      {
        ghost var (k0, V0) := (k, V);
        w, ok, stopped := Step(w, iters, kn);
        if !ok {
          return;
        }
        if tracked && !stopped {
          SamePrefix(V, k0 + 1, k, w);
        }
        assert V[..old(k)] == V0[..old(k)];
      }
    }

    /** The Arnoldi factorisation with iters columns. With k zero it starts
     *  afresh: H and V are cleared, the start vector is normalised into the
     *  first column and orthogonalised against it after the operator is
     *  applied. Then Iteration adds columns until k reaches iters - 1.
     *  The columns are orthonormal and the returned vector orthogonal to
     *  them when that held for the columns kept from before. */
    method Factorize(v: seq<real>, iters: nat, kn: Kernels) returns (w: seq<real>, ok: bool)
      requires Valid() && VectorKernels(kn) && iters >= 2
      requires k > 0 ==> |H| == iters && |v| == length
      modifies this`H, this`V, this`k, this`length
      ensures Valid() && Settings() == old(Settings()) && Results() == old(Results())
      ensures |H| == iters && |w| == length
      ensures old(k) == 0 ==> length == |v|
      ensures old(k) > 0 ==> length == old(length) && V[..old(k)] == old(V)[..old(k)]
      ensures ok ==> k == iters - 1
      ensures ok && (old(k) == 0 || OrthoPrefix(old(V), old(k), v)) ==> OrthoPrefix(V, k + 1, w)
    {
      w, ok := v, true;
      if k == 0 {
        length := |v|;
        H, V, w, ok := FreshStart(v, iters, kn);
        if !ok {
          return;
        }
        k := 1;
      }
      w, ok := Extend(w, iters, kn);
    }

    /** The explicit restart: the new start vector is the sum of the real
     *  parts of the n Ritz vectors of the largest eigenvalues, and the
     *  factorisation starts afresh. */
    method ERestart(v: seq<real>) returns (w: seq<real>)
      requires Valid() && n <= |ritzvectors| && |v| == length && k + 1 == |V|
      requires forall j :: 0 <= j < |eigenvectors| ==> |eigenvectors[j]| == |V|
      requires ritzvectors == RitzVectors(V, eigenvectors, length)
      modifies this
      ensures Valid() && k == 0 && H == old(H) && V == old(V) && length == old(length)
      ensures Settings() == old(Settings()) && Results() == old(Results())
      ensures |w| == |v| && w == WantedSum(ritzvectors, n, |v|)
      ensures w == Combination(V, WantedCoefficients(eigenvectors, n, |V|), length)
    {
      w := AddWanted(ritzvectors, n, |v|);
      k := 0;
      WantedSumInSpan(V, eigenvectors, n, length);
    }

    /** The implicit restart: the shifted QR algorithm with the I - n
     *  smallest eigenvalues as shifts gives the new H (cleared below the
     *  subdiagonal) and Q; the first n Arnoldi vectors become V times the
     *  first n columns of Q, k becomes n - 1 and v is scaled by the entry of
     *  Q in its last row and column n - 1. */
    method IRestart(v: seq<real>, kn: Kernels) returns (w: seq<real>)
      requires Valid() && MatrixKernels(kn) && 0 < n < I && |H| == I && |v| == length
      requires I - n <= |eigenvalues|
      modifies this
      ensures Valid() && length == old(length) && |H| == I && k == n - 1 && |w| == |v|
      ensures Settings() == old(Settings()) && Results() == old(Results())
      ensures var (hm, q) := kn.qr(old(H), old(eigenvalues)[..I - n]);
        (forall i, j :: 0 <= i < I && 0 <= j < I ==> H[i][j] == if j + 1 < i then 0.0 else hm[i][j]) &&
        V == Rotated(old(V), q, n, length) &&
        w == Times(v, q[I - 1][n - 1])
    {
      var hq := kn.qr(H, eigenvalues[..I - n]);
      var hm, q := hq.0, hq.1;
      H := ClearBelowSubdiagonal(hm);
      ClearedIsHessenberg(hm, H);
      k := n - 1;
      V := Rotated(V, q, n, length);
      w := Times(v, q[I - 1][n - 1]);
    }

    /** The eigenpairs of H sorted, the Ritz vectors and the residual
     *  estimate, once the factorisation has I columns. */
    method CalcEigenPairs(w: seq<real>, kn: Kernels)
      requires Valid() && MatrixKernels(kn) && k + 1 == |H|
      modifies this`eigenvalues, this`eigenvectors, this`ritzvectors, this`residual
      ensures |eigenvalues| == |H| && InOrder(eigenvalues)
      ensures |eigenvectors| == |H| && forall j :: 0 <= j < |H| ==> |eigenvectors[j]| == |H|
      ensures ritzvectors == RitzVectors(V, eigenvectors, length)
      ensures residual == kn.modulus(eigenvectors[k][k]) * kn.norm(w)
    {
      assert V[..k + 1] == V;
      eigenvalues, eigenvectors, ritzvectors, residual := EigenPairs(H, V, k, length, w, kn);
    }

    /** One restart: the factorisation with I columns, the eigenpairs of H,
     *  then the implicit or explicit restart. */
    method Restart(v: seq<real>, kn: Kernels) returns (w: seq<real>, ok: bool)
      requires Valid() && VectorKernels(kn) && MatrixKernels(kn) && n < I && 2 <= I
      requires restartMethod == Implicit ==> 0 < n
      requires k > 0 ==> |H| == I && |v| == length
      modifies this
      ensures Valid() && Settings() == old(Settings())
      ensures |H| == I && |w| == length
      ensures ok ==> |eigenvalues| == I && InOrder(eigenvalues)
      ensures ok ==> k == if restartMethod == Implicit then n - 1 else 0
    {
      w, ok := Factorize(v, I, kn);
      if !ok {
        return;
      }
      CalcEigenPairs(w, kn);
      if restartMethod == Implicit {
        w := IRestart(w, kn);
      } else {
        w := ERestart(w);
      }
    }

    /** Restarted Arnoldi's method: nothing happens unless there are more
     *  iterations than wanted eigenvalues; otherwise the restart is done
     *  restarts times, and at least once. */
    method RAM(q: seq<real>, wanted: nat, iters: nat, restarts: nat, m: RestartMethod, kn: Kernels)
      returns (ok: bool)
      requires Valid() && VectorKernels(kn) && MatrixKernels(kn)
      requires iters <= wanted || 0 < wanted || (m == Explicit && 2 <= iters)
      modifies this
      ensures iters <= wanted ==> ok && unchanged(this)
      ensures wanted < iters ==> Valid() && I == iters && n == wanted && restartMethod == m
      ensures wanted < iters && ok ==>
        R == (if restarts == 0 then 1 else restarts) && |eigenvalues| == iters && InOrder(eigenvalues)
    {
      ok := true;
      if iters <= wanted {
        return;
      }
      I, n, restartMethod := iters, wanted, m;
      var v := q;
      k, R := 0, 0;
      ghost var total := if restarts == 0 then 1 else restarts;
      var stopped := false;
      while !stopped
        invariant Valid() && I == iters && n == wanted && restartMethod == m
        invariant k > 0 ==> |H| == I && |v| == length
        invariant R <= total && (stopped <==> R == total)
        invariant R > 0 ==> |eigenvalues| == I && InOrder(eigenvalues)
        decreases total - R
      {
        v, ok := Restart(v, kn);
        if !ok {
          return;
        }
        R := R + 1;
        if R >= restarts {
          stopped := true;
        }
      }
    }
  }
}
