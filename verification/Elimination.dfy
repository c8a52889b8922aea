/** Gaussian elimination with partial pivoting on an augmented system, and back
    substitution: the second half of the calibration solver
    (configs/calibration/tree_ns3_sweep.py). */
module Elimination {
  import opened Wrappers
  import opened LinearAlgebra

  // The pivot magnitude below which the solver gives up.
  const TINY: real := 0.000000000001

  // Columns before `col` are zero below the diagonal and non-zero on it.
  ghost predicate Echelon(u: Matrix, col: nat)
    requires Rectangular(u, |u|, |u|) && col <= |u|
  {
    && (forall i, j :: 0 <= j < col && j < i < |u| ==> u[i][j] == 0.0)
    && (forall j :: 0 <= j < col ==> u[j][j] != 0.0)
  }

  ghost predicate SameSolutions(m: Matrix, b: Vector, u: Matrix, c: Vector)
  {
    forall x: Vector :: |x| == |m| ==> (Solves(m, b, x) <==> Solves(u, c, x))
  }

  // On vectors annihilated by the rows before `col`, u and m take the same values
  // up to the order of the rows.
  ghost predicate RowsKept(m: Matrix, u: Matrix, col: nat)
    requires Rectangular(m, |m|, |m|) && Rectangular(u, |m|, |m|) && col <= |m|
  {
    forall v: Vector, i ::
      |v| == |m| && 0 <= i < |m| && (forall j :: 0 <= j < col ==> Dot(u[j], v) == 0.0)
      ==> TakesValue(u, v, Dot(m[i], v))
  }

  ghost predicate TakesValue(u: Matrix, v: Vector, a: real)
    requires Rectangular(u, |u|, |v|)
  {
    exists r :: 0 <= r < |u| && Dot(u[r], v) == a
  }

  // v is a non-zero vector (one entry is 1) that m maps below the pivot tolerance.
  ghost predicate NearNull(m: Matrix, v: Vector) {
    && Rectangular(m, |m|, |v|)
    && 1.0 in v
    && forall i :: 0 <= i < |m| ==> Abs(Dot(m[i], v)) < TINY
  }

  ghost predicate NearlySingular(m: Matrix) {
    exists v :: |v| == |m| && NearNull(m, v)
  }

  // Everything the elimination keeps between two columns.
  ghost predicate Reduced(m: Matrix, b: Vector, u: Matrix, c: Vector, col: nat)
  {
    && |b| == |c| == |m| && col <= |m|
    && Rectangular(m, |m|, |m|) && Rectangular(u, |m|, |m|)
    && Echelon(u, col)
    && SameSolutions(m, b, u, c)
    && RowsKept(m, u, col)
  }

  function Swap<T>(s: seq<T>, i: nat, j: nat): seq<T>
    requires i < |s| && j < |s|
  {
    s[i := s[j]][j := s[i]]
  }

  // Where row i goes when rows p and q are exchanged.
  function SwappedIndex(i: nat, p: nat, q: nat): nat {
    if i == p then q else if i == q then p else i
  }

  lemma SwapAt<T>(s: seq<T>, p: nat, q: nat, i: nat)
    requires p < |s| && q < |s| && i < |s|
    ensures Swap(s, p, q)[SwappedIndex(i, p, q)] == s[i]
    ensures Swap(s, p, q)[i] == s[SwappedIndex(i, p, q)]
  {
  }

  lemma SwapSolves(u: Matrix, c: Vector, p: nat, q: nat, x: Vector)
    requires |u| == |c| && p < |u| && q < |u| && Solves(u, c, x)
    ensures Solves(Swap(u, p, q), Swap(c, p, q), x)
  {
    var u', c' := Swap(u, p, q), Swap(c, p, q);
    forall i | 0 <= i < |u'| ensures |u'[i]| == |x| && Dot(u'[i], x) == c'[i] {
      SwapAt(u, p, q, i);
      SwapAt(c, p, q, i);
    }
  }

  lemma SwapTwice<T>(s: seq<T>, p: nat, q: nat)
    requires p < |s| && q < |s|
    ensures Swap(Swap(s, p, q), p, q) == s
  {
  }

  lemma SwapKeepsSolutions(m: Matrix, b: Vector, u: Matrix, c: Vector, p: nat, q: nat)
    requires |u| == |c| && p < |u| && q < |u| && SameSolutions(m, b, u, c)
    ensures SameSolutions(m, b, Swap(u, p, q), Swap(c, p, q))
  {
    var u', c' := Swap(u, p, q), Swap(c, p, q);
    forall x: Vector | |x| == |m| ensures Solves(m, b, x) <==> Solves(u', c', x) {
      if Solves(u, c, x) {
        SwapSolves(u, c, p, q, x);
      }
      if Solves(u', c', x) {
        SwapSolves(u', c', p, q, x);
        SwapTwice(u, p, q);
        SwapTwice(c, p, q);
      }
    }
  }

  lemma SwapTakesValue(u: Matrix, v: Vector, a: real, p: nat, q: nat)
    requires Rectangular(u, |u|, |v|) && p < |u| && q < |u|
    requires TakesValue(u, v, a)
    ensures TakesValue(Swap(u, p, q), v, a)
  {
    var r :| 0 <= r < |u| && Dot(u[r], v) == a;
    SwapAt(u, p, q, r);
    var k := SwappedIndex(r, p, q);
    assert Dot(Swap(u, p, q)[k], v) == a;
  }

  lemma SwapKeepsRows(m: Matrix, u: Matrix, col: nat, piv: nat)
    requires Rectangular(m, |m|, |m|) && Rectangular(u, |m|, |m|) && col <= piv < |m|
    requires RowsKept(m, u, col)
    ensures RowsKept(m, Swap(u, col, piv), col)
  {
    var u' := Swap(u, col, piv);
    forall v: Vector, i | |v| == |m| && 0 <= i < |m| && (forall j :: 0 <= j < col ==> Dot(u'[j], v) == 0.0)
      ensures TakesValue(u', v, Dot(m[i], v))
    {
      forall j | 0 <= j < col ensures Dot(u[j], v) == 0.0 {
        assert u'[j] == u[j];
      }
      SwapTakesValue(u, v, Dot(m[i], v), col, piv);
    }
  }

  lemma SwapKeepsEchelon(u: Matrix, col: nat, piv: nat)
    requires Rectangular(u, |u|, |u|) && col <= piv < |u| && Echelon(u, col)
    ensures Rectangular(Swap(u, col, piv), |u|, |u|) && Echelon(Swap(u, col, piv), col)
  {
    var u' := Swap(u, col, piv);
    forall i, j | 0 <= j < col && j < i < |u| ensures u'[i][j] == 0.0 {
      SwapAt(u, col, piv, i);
    }
  }

  // Exchanging two rows at or below `col` keeps the reduction.
  lemma SwapKeeps(m: Matrix, b: Vector, u: Matrix, c: Vector, col: nat, piv: nat)
    requires Reduced(m, b, u, c, col) && col <= piv < |m|
    ensures Reduced(m, b, Swap(u, col, piv), Swap(c, col, piv), col)
  {
    SwapKeepsEchelon(u, col, piv);
    SwapKeepsSolutions(m, b, u, c, col, piv);
    SwapKeepsRows(m, u, col, piv);
  }

  // Row r minus f times row `col`.
  function RowOp(u: Matrix, col: nat, r: nat, f: real): Matrix
    requires col < |u| && r < |u| && |u[col]| == |u[r]|
  {
    u[r := AddScaled(u[r], -f, u[col])]
  }

  lemma RowOpSolves(u: Matrix, c: Vector, col: nat, r: nat, f: real, x: Vector)
    requires Rectangular(u, |u|, |x|) && |c| == |u| && col < r < |u|
    ensures Solves(u, c, x) <==> Solves(RowOp(u, col, r, f), c[r := c[r] - f * c[col]], x)
  {
    var u', c' := RowOp(u, col, r, f), c[r := c[r] - f * c[col]];
    DotAddScaled(u[r], -f, u[col], x);
    assert u'[col] == u[col] && c'[col] == c[col];
    if Solves(u, c, x) {
      forall i | 0 <= i < |u| ensures |u'[i]| == |x| && Dot(u'[i], x) == c'[i] {
        assert Dot(u[i], x) == c[i];
      }
    }
    if Solves(u', c', x) {
      assert Dot(u'[r], x) == c'[r] && Dot(u'[col], x) == c'[col];
      forall i | 0 <= i < |u| ensures |u[i]| == |x| && Dot(u[i], x) == c[i] {
        assert i != r ==> u'[i] == u[i] && c'[i] == c[i] && Dot(u'[i], x) == c'[i];
      }
    }
  }

  // A row operation keeps the solutions.
  lemma RowOpKeepsSolutions(m: Matrix, b: Vector, u: Matrix, c: Vector, col: nat, r: nat, f: real)
    requires Rectangular(u, |m|, |m|) && |c| == |m| && col < r < |m|
    requires SameSolutions(m, b, u, c)
    ensures SameSolutions(m, b, RowOp(u, col, r, f), c[r := c[r] - f * c[col]])
  {
    forall x: Vector | |x| == |m|
      ensures Solves(m, b, x) <==> Solves(RowOp(u, col, r, f), c[r := c[r] - f * c[col]], x)
    {
      RowOpSolves(u, c, col, r, f, x);
    }
  }

  lemma RowOpTakesValue(u: Matrix, v: Vector, a: real, col: nat, r: nat, f: real)
    requires Rectangular(u, |u|, |v|) && col < r < |u|
    requires Dot(u[col], v) == 0.0 && TakesValue(u, v, a)
    ensures TakesValue(RowOp(u, col, r, f), v, a)
  {
    DotAddScaled(u[r], -f, u[col], v);
    var k :| 0 <= k < |u| && Dot(u[k], v) == a;
    assert Dot(RowOp(u, col, r, f)[k], v) == a;
  }

  lemma RowOpKeepsRows(m: Matrix, u: Matrix, col: nat, r: nat, f: real)
    requires Rectangular(m, |m|, |m|) && Rectangular(u, |m|, |m|) && col < r < |m|
    requires RowsKept(m, u, col + 1)
    ensures RowsKept(m, RowOp(u, col, r, f), col + 1)
  {
    var u' := RowOp(u, col, r, f);
    forall v: Vector, i | |v| == |m| && 0 <= i < |m| && (forall j :: 0 <= j < col + 1 ==> Dot(u'[j], v) == 0.0)
      ensures TakesValue(u', v, Dot(m[i], v))
    {
      forall j | 0 <= j < col + 1 ensures Dot(u[j], v) == 0.0 {
        assert u'[j] == u[j];
      }
      RowOpTakesValue(u, v, Dot(m[i], v), col, r, f);
    }
  }

  // ---- what the elimination computes, column by column

  /** The first row of largest magnitude in column `col` among rows col to n - 1. */
  ghost function PivotRow(u: Matrix, col: nat, n: nat): (piv: nat)
    requires Rectangular(u, |u|, |u|) && col < n <= |u|
    ensures col <= piv < n
    ensures forall r :: col <= r < n ==> Abs(u[r][col]) <= Abs(u[piv][col])
  {
    if n == col + 1 then col
    else
      var piv := PivotRow(u, col, n - 1);
      if Abs(u[n - 1][col]) > Abs(u[piv][col]) then n - 1 else piv
  }

  /** Every candidate pivot of the column is below the tolerance. */
  ghost predicate NoPivot(u: Matrix, col: nat)
    requires Rectangular(u, |u|, |u|) && col < |u|
  {
    forall r :: col <= r < |u| ==> Abs(u[r][col]) < TINY
  }

  // The factor by which row r is reduced.
  ghost function Factor(u: Matrix, col: nat, r: nat): real
    requires Rectangular(u, |u|, |u|) && col < |u| && r < |u| && u[col][col] != 0.0
  {
    u[r][col] / u[col][col]
  }

  // Rows after col and before n, each less its multiple of the pivot row.
  ghost function Cleared(u: Matrix, col: nat, n: nat): (t: Matrix)
    requires Rectangular(u, |u|, |u|) && col < n <= |u| && u[col][col] != 0.0
    ensures Rectangular(t, |u|, |u|)
  {
    seq(|u|, i requires 0 <= i < |u| =>
      if col < i < n then AddScaled(u[i], -Factor(u, col, i), u[col]) else u[i])
  }

  // A column is eliminated: the pivot row goes up, the rows below are cleared.
  ghost function Eliminated(u: Matrix, col: nat): (t: Matrix)
    requires Rectangular(u, |u|, |u|) && col < |u| && !NoPivot(u, col)
    ensures Rectangular(t, |u|, |u|)
  {
    var swapped := Swap(u, col, PivotRow(u, col, |u|));
    Cleared(swapped, col, |u|)
  }

  /** The matrix when column k is reached, if it is reached at all. */
  ghost function Stage(m: Matrix, k: nat): (t: Option<Matrix>)
    requires Rectangular(m, |m|, |m|) && k <= |m|
    ensures t.Some? ==> Rectangular(t.value, |m|, |m|)
  {
    if k == 0 then Some(m)
    else
      var before := Stage(m, k - 1);
      if before.None? || NoPivot(before.value, k - 1) then None
      else Some(Eliminated(before.value, k - 1))
  }

  /** Elimination stops at column k: it is reached, and no candidate pivot is large enough. */
  ghost predicate StopsAt(m: Matrix, k: nat)
    requires Rectangular(m, |m|, |m|) && k < |m|
  {
    Stage(m, k).Some? && NoPivot(Stage(m, k).value, k)
  }

  ghost predicate Refused(m: Matrix)
    requires Rectangular(m, |m|, |m|)
  {
    exists k :: 0 <= k < |m| && StopsAt(m, k)
  }

  // The row of largest magnitude in column `col`, at or below the diagonal; the first on a tie.
  method FindPivot(u: Matrix, col: nat) returns (piv: nat)
    requires Rectangular(u, |u|, |u|) && col < |u|
    ensures col <= piv < |u| && piv == PivotRow(u, col, |u|)
    ensures forall r :: col <= r < |u| ==> Abs(u[r][col]) <= Abs(u[piv][col])
    ensures forall r :: col <= r < piv ==> Abs(u[r][col]) < Abs(u[piv][col])
  {
    piv := col;
    for r := col + 1 to |u|
      invariant col <= piv < r && piv == PivotRow(u, col, r)
      invariant forall k :: col <= k < r ==> Abs(u[k][col]) <= Abs(u[piv][col])
      invariant forall k :: col <= k < piv ==> Abs(u[k][col]) < Abs(u[piv][col])
    {
      if Abs(u[r][col]) > Abs(u[piv][col]) {
        piv := r;
      }
    }
  }

  // One row operation, entry by entry from column `col` on.
  method SubtractRow(u: Matrix, col: nat, r: nat, f: real) returns (row: Vector)
    requires Rectangular(u, |u|, |u|) && col < r < |u|
    requires forall j :: 0 <= j < col ==> u[r][j] == 0.0 && u[col][j] == 0.0
    ensures row == AddScaled(u[r], -f, u[col])
  {
    row := u[r];
    for c := col to |u|
      invariant |row| == |u|
      invariant forall j :: col <= j < c ==> row[j] == u[r][j] + (-f) * u[col][j]
      invariant forall j :: (0 <= j < col || c <= j < |u|) ==> row[j] == u[r][j]
    {
      row := row[c := row[c] - f * u[col][c]];
    }
    var t := AddScaled(u[r], -f, u[col]);
    forall j | 0 <= j < |u| ensures row[j] == t[j] {
      if j < col {
        assert (-f) * u[col][j] == 0.0;
      }
    }
  }

  // The reduction while column `col` is being cleared: rows before r are done.
  ghost predicate Clearing(m: Matrix, b: Vector, u: Matrix, c: Vector, col: nat, r: nat)
  {
    && |b| == |c| == |m| && col < r <= |m|
    && Rectangular(m, |m|, |m|) && Rectangular(u, |m|, |m|)
    && Echelon(u, col) && u[col][col] != 0.0
    && (forall i :: col < i < r ==> u[i][col] == 0.0)
    && SameSolutions(m, b, u, c)
    && RowsKept(m, u, col + 1)
  }

  lemma RowOpKeepsEchelon(u: Matrix, col: nat, r: nat, f: real)
    requires Rectangular(u, |u|, |u|) && col < r < |u| && Echelon(u, col) && u[col][col] != 0.0
    requires f == u[r][col] / u[col][col]
    requires forall i :: col < i < r ==> u[i][col] == 0.0
    ensures var u' := RowOp(u, col, r, f);
      && Rectangular(u', |u|, |u|) && Echelon(u', col) && u'[col][col] != 0.0
      && forall i :: col < i < r + 1 ==> u'[i][col] == 0.0
  {
    var u' := RowOp(u, col, r, f);
    assert f * u[col][col] == u[r][col];
    assert u'[r][col] == u[r][col] + (-f) * u[col][col];
    forall j | 0 <= j < col ensures u'[r][j] == 0.0 {
      assert u'[r][j] == u[r][j] + (-f) * u[col][j];
    }
  }

  lemma ClearingStep(m: Matrix, b: Vector, u: Matrix, c: Vector, col: nat, r: nat, f: real)
    requires Clearing(m, b, u, c, col, r) && r < |m|
    requires f == u[r][col] / u[col][col]
    ensures Clearing(m, b, RowOp(u, col, r, f), c[r := c[r] - f * c[col]], col, r + 1)
  {
    RowOpKeepsEchelon(u, col, r, f);
    RowOpKeepsSolutions(m, b, u, c, col, r, f);
    RowOpKeepsRows(m, u, col, r, f);
  }

  lemma ClearingStarts(m: Matrix, b: Vector, u: Matrix, c: Vector, col: nat)
    requires Reduced(m, b, u, c, col) && col < |m| && u[col][col] != 0.0
    ensures Clearing(m, b, u, c, col, col + 1)
  {
    forall v: Vector, i | |v| == |m| && 0 <= i < |m| && (forall j :: 0 <= j < col + 1 ==> Dot(u[j], v) == 0.0)
      ensures TakesValue(u, v, Dot(m[i], v))
    {
    }
  }

  lemma ClearedColumnEchelon(u: Matrix, col: nat)
    requires Rectangular(u, |u|, |u|) && col < |u| && Echelon(u, col) && u[col][col] != 0.0
    requires forall i :: col < i < |u| ==> u[i][col] == 0.0
    ensures Echelon(u, col + 1)
  {
  }

  lemma ClearingEnds(m: Matrix, b: Vector, u: Matrix, c: Vector, col: nat)
    requires Clearing(m, b, u, c, col, |m|)
    ensures Reduced(m, b, u, c, col + 1)
  {
    ClearedColumnEchelon(u, col);
  }

  // Clears column `col` below a non-zero pivot.
  method ClearColumn(ghost m: Matrix, ghost b: Vector, u0: Matrix, c0: Vector, col: nat)
    returns (u: Matrix, c: Vector)
    requires Reduced(m, b, u0, c0, col) && col < |m|
    requires u0[col][col] != 0.0
    ensures Reduced(m, b, u, c, col + 1)
    ensures u == Cleared(u0, col, |u0|)
  {
    u, c := u0, c0;
    ClearingStarts(m, b, u, c, col);
    ClearedNone(u0, col);
    for r := col + 1 to |u0|
      invariant Clearing(m, b, u, c, col, r)
      invariant u == Cleared(u0, col, r)
    {
      var f := u[r][col] / u[col][col];
      ClearingStep(m, b, u, c, col, r, f);
      var row := SubtractRow(u, col, r, f);
      ClearedNext(u0, u, col, r, f, row);
      u, c := u[r := row], c[r := c[r] - f * c[col]];
    }
    ClearingEnds(m, b, u, c, col);
  }

  lemma ClearedNext(u0: Matrix, u: Matrix, col: nat, r: nat, f: real, row: Vector)
    requires Rectangular(u0, |u0|, |u0|) && col < r < |u0| && u0[col][col] != 0.0
    requires u == Cleared(u0, col, r) && u[col][col] != 0.0 && f == u[r][col] / u[col][col]
    requires row == AddScaled(u[r], -f, u[col])
    ensures u[r := row] == Cleared(u0, col, r + 1)
  {
    assert u[r] == u0[r] && u[col] == u0[col];
    assert f == Factor(u0, col, r);
  }

  lemma ClearedNone(u: Matrix, col: nat)
    requires Rectangular(u, |u|, |u|) && col < |u| && u[col][col] != 0.0
    ensures Cleared(u, col, col + 1) == u
  {
  }

  // Column k is reached with the matrix u, and no column before it stopped the elimination.
  ghost predicate Reached(m: Matrix, k: nat, u: Matrix) {
    && k <= |m| && Rectangular(m, |m|, |m|) && Rectangular(u, |m|, |m|)
    && Stage(m, k) == Some(u) && forall j :: 0 <= j < k ==> !StopsAt(m, j)
  }

  lemma ReachedFirst(m: Matrix)
    requires Rectangular(m, |m|, |m|)
    ensures Reached(m, 0, m)
  {
  }

  lemma ReachedNext(m: Matrix, k: nat, u: Matrix)
    requires Reached(m, k, u) && k < |m|
    ensures if NoPivot(u, k) then Refused(m) else Reached(m, k + 1, Eliminated(u, k))
  {
    assert StopsAt(m, k) <==> NoPivot(u, k);
  }

  lemma ReachedLast(m: Matrix, u: Matrix)
    requires Reached(m, |m|, u)
    ensures !Refused(m)
  {
  }

  // A leading triangle has a vector that ends in a 1 at `col` and is annihilated by its rows.
  lemma TriangleNullVector(u: Matrix, col: nat) returns (v: Vector)
    requires Rectangular(u, |u|, |u|) && col < |u| && Echelon(u, col)
    ensures |v| == |u| && v[col] == 1.0
    ensures forall j :: col < j < |u| ==> v[j] == 0.0
    ensures forall k :: 0 <= k < col ==> Dot(u[k], v) == 0.0
  {
    v := Zeros(|u|)[col := 1.0];
    var i := col;
    while i > 0
      invariant 0 <= i <= col && |v| == |u| && v[col] == 1.0
      invariant forall j :: col < j < |u| ==> v[j] == 0.0
      invariant forall k :: i <= k < col ==> DotFrom(u[k], v, k) == 0.0
    {
      var p := i - 1;
      var v' := v[p := -DotFrom(u[p], v, i) / u[p][p]];
      forall k | i <= k < col ensures DotFrom(u[k], v', k) == 0.0 {
        DotFromAgrees(u[k], v, v', k);
      }
      DotFromAgrees(u[p], v, v', i);
      assert u[p][p] * v'[p] == -DotFrom(u[p], v, i);
      assert DotFrom(u[p], v', p) == u[p][p] * v'[p] + DotFrom(u[p], v', i);
      v, i := v', p;
    }
    forall k | 0 <= k < col ensures Dot(u[k], v) == 0.0 {
      DotSkipZeros(u[k], v, 0, k);
    }
  }

  // A column with no usable pivot exhibits a vector that the ORIGINAL matrix nearly annihilates.
  lemma NoPivotNearlySingular(m: Matrix, b: Vector, u: Matrix, c: Vector, col: nat)
    requires Reduced(m, b, u, c, col) && col < |m|
    requires forall r :: col <= r < |m| ==> Abs(u[r][col]) < TINY
    ensures NearlySingular(m)
  {
    var v := TriangleNullVector(u, col);
    forall r | 0 <= r < |m| ensures Abs(Dot(u[r], v)) < TINY {
      if r >= col {
        DotSkipZeros(u[r], v, 0, col);
        DotFromSymmetric(u[r], v, col + 1);
        DotFromZeros(v, u[r], col + 1);
      }
    }
    forall i | 0 <= i < |m| ensures Abs(Dot(m[i], v)) < TINY {
      assert TakesValue(u, v, Dot(m[i], v));
    }
    assert 1.0 in v;
    assert NearNull(m, v);
  }

  // Unknowns i.. are settled: x satisfies their rows and agrees with every solution.
  ghost predicate Settled(u: Matrix, c: Vector, x: Vector, i: nat)
    requires Rectangular(u, |u|, |u|) && |c| == |u| == |x| && i <= |u|
  {
    && (forall k :: i <= k < |u| ==> DotFrom(u[k], x, k) == c[k])
    && (forall z: Vector, j :: |z| == |u| && Solves(u, c, z) && i <= j < |u| ==> z[j] == x[j])
  }

  lemma QuotientTimes(a: real, b: real, q: real)
    requires a != 0.0 && q == b / a
    ensures a * q == b
  {
  }

  // Row p, once the later unknowns are settled: the value that satisfies it.
  lemma SettleRow(row: Vector, cp: real, x: Vector, x': Vector, p: nat)
    requires |row| == |x| == |x'| && p < |row|
    requires forall j :: p < j < |row| ==> x'[j] == x[j]
    requires row[p] * x'[p] == cp - DotFrom(row, x, p + 1)
    ensures DotFrom(row, x', p) == cp
  {
    DotFromAgrees(row, x, x', p + 1);
  }

  // Row p of a triangular system fixes unknown p once the later unknowns are known.
  lemma RowFixesUnknown(row: Vector, z: Vector, x: Vector, p: nat)
    requires |row| == |z| == |x| && p < |row| && row[p] != 0.0
    requires forall j :: p < j < |row| ==> z[j] == x[j]
    requires DotFrom(row, z, p) == DotFrom(row, x, p)
    ensures z[p] == x[p]
  {
    DotFromAgrees(row, z, x, p + 1);
    SameQuotient(row[p], z[p], x[p], DotFrom(row, x, p + 1));
  }

  lemma SameQuotient(a: real, s: real, t: real, d: real)
    requires a != 0.0 && a * s + d == a * t + d
    ensures s == t
  {
    assert a * (s - t) == 0.0;
  }

  lemma SettledStep(u: Matrix, c: Vector, x: Vector, p: nat, xp: real)
    requires Rectangular(u, |u|, |u|) && |c| == |u| == |x| && p < |u|
    requires Echelon(u, |u|) && Settled(u, c, x, p + 1)
    requires DotFrom(u[p], x[p := xp], p) == c[p]
    ensures Settled(u, c, x[p := xp], p)
  {
    var x' := x[p := xp];
    forall k | p <= k < |u| ensures DotFrom(u[k], x', k) == c[k] {
      if k > p {
        DotFromAgrees(u[k], x, x', k);
      }
    }
    forall z: Vector, j | |z| == |u| && Solves(u, c, z) && p <= j < |u| ensures z[j] == x'[j] {
      if j == p {
        assert Dot(u[p], z) == c[p];
        DotSkipZeros(u[p], z, 0, p);
        RowFixesUnknown(u[p], z, x', p);
      }
    }
  }

  // Back substitution: the one solution of a triangular system.
  method BackSubstitute(u: Matrix, c: Vector) returns (x: Vector)
    requires Rectangular(u, |u|, |u|) && |c| == |u| && Echelon(u, |u|)
    ensures |x| == |u| && Solves(u, c, x)
    ensures forall z :: |z| == |u| && Solves(u, c, z) ==> z == x
  {
    x := Zeros(|u|);
    var i := |u|;
    while i > 0
      invariant 0 <= i <= |u| && |x| == |u|
      invariant Settled(u, c, x, i)
    {
      i := i - 1;
      var s := TailSum(u[i], x, i + 1);
      var xi := (c[i] - s) / u[i][i];
      ghost var x' := x[i := xi];
      QuotientTimes(u[i][i], c[i] - s, x'[i]);
      SettleRow(u[i], c[i], x, x', i);
      SettledStep(u, c, x, i, xi);
      x := x[i := xi];
    }
    forall k | 0 <= k < |u| ensures Dot(u[k], x) == c[k] {
      DotSkipZeros(u[k], x, 0, k);
    }
  }

  // sum(u[j] * x[j] for j in range(i, n)), accumulated in that order.
  method TailSum(u: Vector, x: Vector, i: nat) returns (s: real)
    requires |u| == |x| && i <= |u|
    ensures s == DotFrom(u, x, i)
  {
    s := 0.0;
    for j := i to |u|
      invariant s + DotFrom(u, x, j) == DotFrom(u, x, i)
    {
      s := s + u[j] * x[j];
    }
  }
}
