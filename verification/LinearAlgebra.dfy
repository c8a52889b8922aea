/** Exact-real vectors and square linear systems, as used by the calibration
    fits.  A matrix is a sequence of rows. */
module LinearAlgebra {

  type Vector = seq<real>
  type Matrix = seq<seq<real>>

  ghost predicate Rectangular(m: Matrix, rows: nat, cols: nat) {
    |m| == rows && forall i :: 0 <= i < rows ==> |m[i]| == cols
  }

  // Sum of u[j] * x[j] for j >= lo.
  function DotFrom(u: Vector, x: Vector, lo: nat): real
    requires |u| == |x| && lo <= |u|
    decreases |u| - lo
  {
    if lo == |u| then 0.0 else u[lo] * x[lo] + DotFrom(u, x, lo + 1)
  }

  function Dot(u: Vector, x: Vector): real
    requires |u| == |x|
  {
    DotFrom(u, x, 0)
  }

  // x solves the square (or rectangular) system m * x == b.
  ghost predicate Solves(m: Matrix, b: Vector, x: Vector) {
    |m| == |b| && forall i :: 0 <= i < |m| ==> |m[i]| == |x| && Dot(m[i], x) == b[i]
  }

  function Abs(a: real): real { if a < 0.0 then -a else a }

  // u + f * v
  function AddScaled(u: Vector, f: real, v: Vector): Vector
    requires |u| == |v|
  {
    seq(|u|, i requires 0 <= i < |u| => u[i] + f * v[i])
  }

  function Minus(u: Vector, v: Vector): Vector
    requires |u| == |v|
  {
    AddScaled(u, -1.0, v)
  }

  function Zeros(n: nat): Vector { seq(n, i => 0.0) }

  lemma {:induction false} DotFromAddScaled(u: Vector, f: real, v: Vector, x: Vector, lo: nat)
    requires |u| == |v| == |x| && lo <= |u|
    ensures DotFrom(AddScaled(u, f, v), x, lo) == DotFrom(u, x, lo) + f * DotFrom(v, x, lo)
    decreases |u| - lo
  {
    if lo < |u| {
      DotFromAddScaled(u, f, v, x, lo + 1);
      var a, b, c, d := u[lo], v[lo], x[lo], DotFrom(v, x, lo + 1);
      assert (a + f * b) * c == a * c + f * (b * c);
      assert f * (b * c + d) == f * (b * c) + f * d;
    }
  }

  // Linearity of the dot product in its first argument.
  lemma DotAddScaled(u: Vector, f: real, v: Vector, x: Vector)
    requires |u| == |v| == |x|
    ensures Dot(AddScaled(u, f, v), x) == Dot(u, x) + f * Dot(v, x)
  {
    DotFromAddScaled(u, f, v, x, 0);
  }

  lemma {:induction false} DotFromSymmetric(u: Vector, x: Vector, lo: nat)
    requires |u| == |x| && lo <= |u|
    ensures DotFrom(u, x, lo) == DotFrom(x, u, lo)
    decreases |u| - lo
  {
    if lo < |u| {
      DotFromSymmetric(u, x, lo + 1);
    }
  }

  // Linearity of the dot product in its second argument.
  lemma DotMinus(u: Vector, x: Vector, z: Vector)
    requires |u| == |x| == |z|
    ensures Dot(u, Minus(z, x)) == Dot(u, z) - Dot(u, x)
  {
    DotFromSymmetric(u, Minus(z, x), 0);
    DotFromSymmetric(u, z, 0);
    DotFromSymmetric(u, x, 0);
    DotAddScaled(z, -1.0, x, u);
  }

  lemma {:induction false} DotFromZeros(u: Vector, x: Vector, lo: nat)
    requires |u| == |x| && lo <= |u|
    requires forall j :: lo <= j < |u| ==> u[j] == 0.0
    ensures DotFrom(u, x, lo) == 0.0
    decreases |u| - lo
  {
    if lo < |u| {
      DotFromZeros(u, x, lo + 1);
    }
  }

  // Leading zero coefficients contribute nothing.
  lemma {:induction false} DotSkipZeros(u: Vector, x: Vector, lo: nat, hi: nat)
    requires |u| == |x| && lo <= hi <= |u|
    requires forall j :: lo <= j < hi ==> u[j] == 0.0
    ensures DotFrom(u, x, lo) == DotFrom(u, x, hi)
    decreases hi - lo
  {
    if lo < hi {
      DotSkipZeros(u, x, lo + 1, hi);
    }
  }

  lemma {:induction false} DotFromAgrees(u: Vector, x: Vector, z: Vector, lo: nat)
    requires |u| == |x| == |z| && lo <= |u|
    requires forall j :: lo <= j < |u| ==> x[j] == z[j]
    ensures DotFrom(u, x, lo) == DotFrom(u, z, lo)
    decreases |u| - lo
  {
    if lo < |u| {
      DotFromAgrees(u, x, z, lo + 1);
    }
  }
}
