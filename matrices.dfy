/** The test matrices the eigensolvers are checked against, each filled
 *  in place by nested loops: a diagonal matrix 1, 2, 3, ..., a full
 *  matrix numbered row by row, the "standard" matrix (the diagonal one
 *  with one entry below the diagonal), an upper Hessenberg matrix numbered
 *  row by row, and two fixed small matrices from the literature. */
module TestMatrices {

  // ---------------------------------------------------------------------
  // The entries, as functions of the position

  /** Entry (i, j) of the diagonal matrix. */
  function DiagonalEntry(i: nat, j: nat): real
  {
    if i == j then (i + 1) as real else 0.0
  }

  /** Entry (i, j) of the full matrix with cols columns: the entries count
   *  1, 2, 3, ... along each row and then down the rows. */
  function FullEntry(i: nat, j: nat, cols: nat): real
  {
    (i * cols + j + 1) as real
  }

  /** Entry (i, j) of the standard matrix. */
  function StandardEntry(i: nat, j: nat): real
  {
    if i == 2 && j == 1 then 1.0 else DiagonalEntry(i, j)
  }

  /** The first column of row i on or above the subdiagonal. */
  function RowStart(i: nat): nat
  {
    if i == 0 then 0 else i - 1
  }

  /** The number of entries of row i on or above the subdiagonal. */
  function KeptInRow(i: nat, cols: nat): nat
  {
    if RowStart(i) < cols then cols - RowStart(i) else 0
  }

  /** The number of entries on or above the subdiagonal in the rows before
   *  row i. */
  function KeptBefore(i: nat, cols: nat): nat
  {
    if i == 0 then 0 else KeptBefore(i - 1, cols) + KeptInRow(i - 1, cols)
  }

  /** The number of entries on or above the subdiagonal in row i before
   *  column j. */
  function KeptInRowBefore(i: nat, j: nat): nat
  {
    if j > RowStart(i) then j - RowStart(i) else 0
  }

  /** Entry (i, j) of the upper Hessenberg matrix with cols columns: zero
   *  below the subdiagonal, and the other entries counting 1, 2, 3, ...
   *  row by row. */
  function HessenbergEntry(i: nat, j: nat, cols: nat): real
  {
    if j + 1 >= i then (KeptBefore(i, cols) + KeptInRowBefore(i, j) + 1) as real else 0.0
  }

  // ---------------------------------------------------------------------
  // What the numbering means

  /** (i, j) comes before (i', j') when reading row by row. */
  predicate RowMajorBefore(i: nat, j: nat, i': nat, j': nat)
  {
    i < i' || (i == i' && j < j')
  }

  /** The full matrix holds 1 to rows * cols, increasing row by row: an
   *  earlier position holds a smaller number, so no number repeats. */
  lemma FullNumbering(rows: nat, cols: nat, i: nat, j: nat, i': nat, j': nat)
    requires i < rows && j < cols && i' < rows && j' < cols
    ensures 1.0 <= FullEntry(i, j, cols) <= (rows * cols) as real
    ensures RowMajorBefore(i, j, i', j') ==> FullEntry(i, j, cols) < FullEntry(i', j', cols)
  {
    RowBound(i, j, rows, cols);
    if i < i' {
      RowBound(i, j, i', cols);
    }
  }

  /** Position (i, j) of a matrix with cols columns comes before every
   *  entry of row r > i in row-major order. */
  lemma RowBound(i: nat, j: nat, r: nat, cols: nat)
    requires i < r && j < cols
    ensures i * cols + j + 1 <= r * cols
  {
    var d := r - i;
    assert r * cols == i * cols + d * cols;
    assert d * cols >= cols by {
      assert d >= 1;
    }
  }

  /** Consecutive entries of the full matrix, along a row and across the end
   *  of a row, differ by one. */
  lemma FullConsecutive(i: nat, j: nat, cols: nat)
    requires 0 < cols
    ensures FullEntry(i, j + 1, cols) == FullEntry(i, j, cols) + 1.0
    ensures FullEntry(i + 1, 0, cols) == FullEntry(i, cols - 1, cols) + 1.0
  {
    assert (i + 1) * cols == i * cols + cols;
  }

  /** The standard matrix is lower triangular with 1, 2, 3, ... on the
   *  diagonal and a single 1 below it, at (2, 1): it differs from the
   *  diagonal matrix in that entry only. */
  lemma StandardShape(i: nat, j: nat)
    ensures j > i ==> StandardEntry(i, j) == 0.0
    ensures i == j ==> StandardEntry(i, j) == (i + 1) as real
    ensures j < i ==> (StandardEntry(i, j) != 0.0 <==> i == 2 && j == 1)
    ensures StandardEntry(i, j) != DiagonalEntry(i, j) <==> i == 2 && j == 1
  {
  }

  /** Each row before row i holds its kept entries, so the count before a
   *  later row is at least the count before row i and its own entries. */
  lemma {:induction false} KeptBeforeGrows(i: nat, r: nat, cols: nat)
    requires i < r
    ensures KeptBefore(r, cols) >= KeptBefore(i, cols) + KeptInRow(i, cols)
    decreases r
  {
    if r > i + 1 {
      KeptBeforeGrows(i, r - 1, cols);
    }
  }

  /** The upper Hessenberg matrix is zero below the subdiagonal and numbers
   *  its other entries 1, 2, 3, ... row by row: the entry at (0, 0) is 1,
   *  and an earlier position on or above the subdiagonal holds a smaller
   *  number than a later one. */
  lemma HessenbergNumbering(cols: nat, i: nat, j: nat, i': nat, j': nat)
    requires j < cols && j' < cols
    ensures j + 1 < i ==> HessenbergEntry(i, j, cols) == 0.0
    ensures j + 1 >= i ==> HessenbergEntry(i, j, cols) >= 1.0
    ensures HessenbergEntry(0, 0, cols) == 1.0
    ensures j + 1 >= i && j' + 1 >= i' && RowMajorBefore(i, j, i', j') ==>
      HessenbergEntry(i, j, cols) < HessenbergEntry(i', j', cols)
  {
    if j + 1 >= i && j' + 1 >= i' && i < i' {
      KeptBeforeGrows(i, i', cols);
      assert KeptInRowBefore(i, j) < KeptInRow(i, cols);
    }
  }

  /** Consecutive entries on or above the subdiagonal differ by one, along a
   *  row and from the last entry of a row to the first of the next. */
  lemma HessenbergConsecutive(cols: nat, i: nat, j: nat)
    requires 0 < cols
    ensures j + 1 >= i && j + 1 < cols ==>
      HessenbergEntry(i, j + 1, cols) == HessenbergEntry(i, j, cols) + 1.0
    ensures i < cols ==>
      HessenbergEntry(i + 1, i, cols) == HessenbergEntry(i, cols - 1, cols) + 1.0
  {
  }

  // ---------------------------------------------------------------------
  // Filling the matrices in place

  /** Every entry of A multiplied by zero. */
  method ZeroAll(A: array2<real>)
    modifies A
    ensures forall i, j :: 0 <= i < A.Length0 && 0 <= j < A.Length1 ==> A[i, j] == 0.0
  {
    var i := 0;
    while i < A.Length0
      invariant 0 <= i <= A.Length0
      invariant forall r, c :: 0 <= r < i && 0 <= c < A.Length1 ==> A[r, c] == 0.0
    {
      var j := 0;
      while j < A.Length1
        invariant 0 <= j <= A.Length1
        invariant forall r, c :: 0 <= r < i && 0 <= c < A.Length1 ==> A[r, c] == 0.0
        invariant forall c :: 0 <= c < j ==> A[i, c] == 0.0
      {
        A[i, j] := A[i, j] * 0.0;
        j := j + 1;
      }
      i := i + 1;
    }
  }

  /** The diagonal matrix: A cleared, then 1, 2, 3, ... down the diagonal
   *  as far as both dimensions reach. */
  method Diagonal(A: array2<real>)
    modifies A
    ensures forall i, j :: 0 <= i < A.Length0 && 0 <= j < A.Length1 ==> A[i, j] == DiagonalEntry(i, j)
  {
    ZeroAll(A);
    var v := 0.0;
    var i := 0;
    while i < A.Length0 && i < A.Length1
      invariant 0 <= i <= A.Length0 && i <= A.Length1 && v == i as real
      invariant forall r, c :: 0 <= r < A.Length0 && 0 <= c < A.Length1 ==>
        A[r, c] == if r == c && r < i then DiagonalEntry(r, c) else 0.0
    {
      v := v + 1.0;
      A[i, i] := v;
      i := i + 1;
    }
  }

  /** Row i of the full matrix, from the running count v. */
  method FullRow(A: array2<real>, i: nat, v0: real) returns (v: real)
    requires i < A.Length0 && v0 == (i * A.Length1) as real
    modifies A
    ensures v == ((i + 1) * A.Length1) as real
    ensures forall r, c :: 0 <= r < A.Length0 && 0 <= c < A.Length1 ==>
      A[r, c] == if r == i then FullEntry(r, c, A.Length1) else old(A[r, c])
  {
    v := v0;
    var j := 0;
    while j < A.Length1
      invariant 0 <= j <= A.Length1 && v == (i * A.Length1 + j) as real
      invariant forall r, c :: 0 <= r < A.Length0 && 0 <= c < A.Length1 ==>
        A[r, c] == if r == i && c < j then FullEntry(r, c, A.Length1) else old(A[r, c])
    {
      v := v + 1.0;
      A[i, j] := v;
      j := j + 1;
    }
    assert (i + 1) * A.Length1 == i * A.Length1 + A.Length1;
  }

  /** The full matrix: 1, 2, 3, ... along each row and then down the rows. */
  method Full(A: array2<real>)
    modifies A
    ensures forall i, j :: 0 <= i < A.Length0 && 0 <= j < A.Length1 ==> A[i, j] == FullEntry(i, j, A.Length1)
  {
    var v := 0.0;
    var i := 0;
    while i < A.Length0
      invariant 0 <= i <= A.Length0 && v == (i * A.Length1) as real
      invariant forall r, c :: 0 <= r < i && 0 <= c < A.Length1 ==> A[r, c] == FullEntry(r, c, A.Length1)
    {
      v := FullRow(A, i, v);
      i := i + 1;
    }
  }

  /** The standard test matrix: the diagonal matrix with entry (2, 1) set to
   *  one; A needs at least three rows and two columns. */
  method Standard(A: array2<real>)
    requires A.Length0 > 2 && A.Length1 > 1
    modifies A
    ensures forall i, j :: 0 <= i < A.Length0 && 0 <= j < A.Length1 ==> A[i, j] == StandardEntry(i, j)
  {
    Diagonal(A);
    A[2, 1] := 1.0;
  }

  /** Row i of the upper Hessenberg matrix, from the running count k. */
  method HessenbergRow(A: array2<real>, i: nat, k0: real) returns (k: real)
    requires i < A.Length0 && k0 == KeptBefore(i, A.Length1) as real
    modifies A
    ensures k == KeptBefore(i + 1, A.Length1) as real
    ensures forall r, c :: 0 <= r < A.Length0 && 0 <= c < A.Length1 ==>
      A[r, c] == if r == i then HessenbergEntry(r, c, A.Length1) else old(A[r, c])
  {
    k := k0;
    var j := 0;
    while j < A.Length1
      invariant 0 <= j <= A.Length1 && k == (KeptBefore(i, A.Length1) + KeptInRowBefore(i, j)) as real
      invariant forall r, c :: 0 <= r < A.Length0 && 0 <= c < A.Length1 ==>
        A[r, c] == if r == i && c < j then HessenbergEntry(r, c, A.Length1) else old(A[r, c])
    {
      if j + 1 >= i {
        k := k + 1.0;
        A[i, j] := k;
      } else {
        A[i, j] := 0.0;
      }
      j := j + 1;
    }
  }

  /** The upper Hessenberg matrix: A cleared, then the entries on or above
   *  the subdiagonal numbered 1, 2, 3, ... row by row and the others zero. */
  method UHessenberg(A: array2<real>)
    modifies A
    ensures forall i, j :: 0 <= i < A.Length0 && 0 <= j < A.Length1 ==> A[i, j] == HessenbergEntry(i, j, A.Length1)
  {
    ZeroAll(A);
    var k := 0.0;
    var i := 0;
    while i < A.Length0
      invariant 0 <= i <= A.Length0 && k == KeptBefore(i, A.Length1) as real
      invariant forall r, c :: 0 <= r < i && 0 <= c < A.Length1 ==> A[r, c] == HessenbergEntry(r, c, A.Length1)
    {
      k := HessenbergRow(A, i, k);
      i := i + 1;
    }
  }

  /** The 2-by-2 symmetric matrix [8 2; 2 5]. The source resizes its
   *  argument; here a new matrix is returned. */
  method Watkins() returns (A: array2<real>)
    ensures fresh(A) && A.Length0 == 2 && A.Length1 == 2
    ensures A[0, 0] == 8.0 && A[1, 0] == 2.0 && A[0, 1] == 2.0 && A[1, 1] == 5.0
  {
    A := new real[2, 2];
    A[0, 0] := 8.0;
    A[1, 0] := 2.0;
    A[0, 1] := 2.0;
    A[1, 1] := 5.0;
  }

  /** The characteristic polynomial det(A - xI) of the 2-by-2 matrix
   *  [a c; b d]. */
  function CharPoly2(a: real, b: real, c: real, d: real, x: real): real
  {
    (a - x) * (d - x) - b * c
  }

  /** The Watkins matrix is symmetric, with trace 13 and determinant 36, and
   *  its eigenvalues are exactly 4 and 9. */
  lemma WatkinsEigenvalues(a: real, b: real, c: real, d: real, x: real)
    requires a == 8.0 && b == 2.0 && c == 2.0 && d == 5.0
    ensures b == c && a + d == 13.0 && a * d - b * c == 36.0
    ensures CharPoly2(a, b, c, d, x) == 0.0 <==> x == 4.0 || x == 9.0
  {
    assert CharPoly2(a, b, c, d, x) == (x - 4.0) * (x - 9.0);
    if (x - 4.0) * (x - 9.0) == 0.0 && x != 4.0 {
      var p, q := x - 4.0, x - 9.0;
      assert q == (p * q) / p;
    }
  }

  /** The 3-by-3 matrix of Moler's example. The source resizes its
   *  argument; here a new matrix is returned. */
  method Moler() returns (A: array2<real>)
    ensures fresh(A) && A.Length0 == 3 && A.Length1 == 3
    ensures A[0, 0] == -149.0 && A[0, 1] == -50.0 && A[0, 2] == -154.0
    ensures A[1, 0] == 537.0 && A[1, 1] == 180.0 && A[1, 2] == 546.0
    ensures A[2, 0] == -27.0 && A[2, 1] == -9.0 && A[2, 2] == -25.0
  {
    A := new real[3, 3];
    A[0, 0], A[0, 1], A[0, 2] := -149.0, -50.0, -154.0;
    A[1, 0], A[1, 1], A[1, 2] := 537.0, 180.0, 546.0;
    A[2, 0], A[2, 1], A[2, 2] := -27.0, -9.0, -25.0;
  }
}
