/** The weighted least-squares solver of configs/calibration/tree_ns3_sweep.py over
    exact reals: normal equations, Gaussian elimination, back substitution. */
module LeastSquares {
  import opened Wrappers
  import opened LinearAlgebra
  import opened Elimination

  /** The observations the solver actually reads: `zip` stops at the shortest of the
      three lists, and only the first len(A[0]) entries of a row are used. */
  datatype Samples = Samples(rows: Matrix, y: Vector, w: Vector, n: nat) {
    ghost predicate Valid() {
      |y| == |w| == |rows| && Rectangular(rows, |rows|, n)
    }
  }

  function SampleCount(a: Matrix, y: Vector, w: Vector): nat {
    var m := if |a| < |y| then |a| else |y|;
    if m < |w| then m else |w|
  }

  ghost predicate WellShaped(a: Matrix, y: Vector, w: Vector) {
    |a| > 0 && forall r :: 0 <= r < SampleCount(a, y, w) ==> |a[r]| >= |a[0]|
  }

  ghost function Zip(a: Matrix, y: Vector, w: Vector): (s: Samples)
    requires WellShaped(a, y, w)
    ensures s.Valid()
  {
    var m := SampleCount(a, y, w);
    Samples(seq(m, r requires 0 <= r < m => a[r][..|a[0]|]), y[..m], w[..m], |a[0]|)
  }

  function Times(a: real, b: real): real { a * b }

  function Square(w: real, e: real): real { w * (e * e) }

  // Row i of the normal matrix over the first k samples: the sum of w[r] * row[r][i] * row[r].
  ghost function NormalRow(s: Samples, k: nat, i: nat): (row: Vector)
    requires s.Valid() && k <= |s.rows| && i < s.n
    ensures |row| == s.n
  {
    if k == 0 then Zeros(s.n)
    else AddScaled(NormalRow(s, k - 1, i), Times(s.w[k - 1], s.rows[k - 1][i]), s.rows[k - 1])
  }

  ghost function NormalMatrix(s: Samples, k: nat): Matrix
    requires s.Valid() && k <= |s.rows|
  {
    seq(s.n, i requires 0 <= i < s.n => NormalRow(s, k, i))
  }

  // Entry i of the right-hand side: the sum of w[r] * row[r][i] * y[r].
  ghost function NormalEntry(s: Samples, k: nat, i: nat): real
    requires s.Valid() && k <= |s.rows| && i < s.n
  {
    if k == 0 then 0.0
    else NormalEntry(s, k - 1, i) + s.w[k - 1] * s.rows[k - 1][i] * s.y[k - 1]
  }

  ghost function NormalRhs(s: Samples, k: nat): Vector
    requires s.Valid() && k <= |s.rows|
  {
    seq(s.n, i requires 0 <= i < s.n => NormalEntry(s, k, i))
  }

  ghost function Residual(s: Samples, r: nat, x: Vector): real
    requires s.Valid() && r < |s.rows| && |x| == s.n
  {
    Dot(s.rows[r], x) - s.y[r]
  }

  /** The weighted sum of squared residuals of coefficients x over the first k samples. */
  ghost function SquaredError(s: Samples, k: nat, x: Vector): real
    requires s.Valid() && k <= |s.rows| && |x| == s.n
  {
    if k == 0 then 0.0
    else SquaredError(s, k - 1, x) + Square(s.w[k - 1], Residual(s, k - 1, x))
  }

  ghost function TotalError(s: Samples, x: Vector): real
    requires s.Valid() && |x| == s.n
  {
    SquaredError(s, |s.rows|, x)
  }

  /** The normal equations of the samples. */
  ghost predicate SolvesNormal(s: Samples, x: Vector)
    requires s.Valid()
  {
    |x| == s.n && Solves(NormalMatrix(s, |s.rows|), NormalRhs(s, |s.rows|), x)
  }

  // ---- the normal equations say that the weighted residuals are orthogonal to every column

  // Sum over the first k samples of w[r] * residual(x)[r] * row[r].
  ghost function Gradient(s: Samples, k: nat, x: Vector): (g: Vector)
    requires s.Valid() && k <= |s.rows| && |x| == s.n
    ensures |g| == s.n
  {
    if k == 0 then Zeros(s.n)
    else AddScaled(Gradient(s, k - 1, x), Times(s.w[k - 1], Residual(s, k - 1, x)), s.rows[k - 1])
  }

  lemma GradientProduct(w: real, ai: real, d: real, y: real)
    ensures (w * (d - y)) * ai == (w * ai) * d - w * ai * y
  {
  }

  lemma {:induction false} GradientEntry(s: Samples, k: nat, x: Vector, i: nat)
    requires s.Valid() && k <= |s.rows| && |x| == s.n && i < s.n
    ensures Gradient(s, k, x)[i] == Dot(NormalRow(s, k, i), x) - NormalEntry(s, k, i)
  {
    if k == 0 {
      DotFromZeros(Zeros(s.n), x, 0);
    } else {
      GradientEntry(s, k - 1, x, i);
      var w, row, y := s.w[k - 1], s.rows[k - 1], s.y[k - 1];
      DotAddScaled(NormalRow(s, k - 1, i), Times(w, row[i]), row, x);
      GradientProduct(w, row[i], Dot(row, x), y);
    }
  }

  ghost predicate AllZero(v: Vector) {
    forall i :: 0 <= i < |v| ==> v[i] == 0.0
  }

  lemma GradientVanishes(s: Samples, x: Vector)
    requires s.Valid() && |x| == s.n
    ensures SolvesNormal(s, x) <==> AllZero(Gradient(s, |s.rows|, x))
  {
    var k := |s.rows|;
    forall i | 0 <= i < s.n
      ensures Gradient(s, k, x)[i] == 0.0 <==> Dot(NormalMatrix(s, k)[i], x) == NormalRhs(s, k)[i]
    {
      GradientEntry(s, k, x, i);
    }
    var m, b := NormalMatrix(s, k), NormalRhs(s, k);
    if SolvesNormal(s, x) {
      forall i | 0 <= i < s.n ensures Gradient(s, k, x)[i] == 0.0 {
        assert |m[i]| == |x| && Dot(m[i], x) == b[i];
      }
    }
    if AllZero(Gradient(s, k, x)) {
      forall i | 0 <= i < |m| ensures |m[i]| == |x| && Dot(m[i], x) == b[i] {
        assert Gradient(s, k, x)[i] == 0.0;
      }
    }
  }

  // ---- expansion of the error around a point

  // Sum of w[r] * (row[r] . d)^2 over the first k samples.
  ghost function Spread(s: Samples, k: nat, d: Vector): real
    requires s.Valid() && k <= |s.rows| && |d| == s.n
  {
    if k == 0 then 0.0
    else Spread(s, k - 1, d) + Square(s.w[k - 1], Dot(s.rows[k - 1], d))
  }

  lemma SquareOfSum(w: real, e: real, t: real)
    ensures Square(w, e + t) == Square(w, e) + 2.0 * Times(Times(w, e), t) + Square(w, t)
  {
    assert (e + t) * (e + t) == e * e + 2.0 * (e * t) + t * t;
    assert w * (e * t) == (w * e) * t;
  }

  lemma GradientStep(s: Samples, k: nat, x: Vector, d: Vector)
    requires s.Valid() && 0 < k <= |s.rows| && |x| == |d| == s.n
    ensures Dot(Gradient(s, k, x), d)
         == Dot(Gradient(s, k - 1, x), d) + Times(Times(s.w[k - 1], Residual(s, k - 1, x)), Dot(s.rows[k - 1], d))
  {
    DotAddScaled(Gradient(s, k - 1, x), Times(s.w[k - 1], Residual(s, k - 1, x)), s.rows[k - 1], d);
  }

  lemma ResidualStep(s: Samples, r: nat, x: Vector, z: Vector)
    requires s.Valid() && r < |s.rows| && |x| == |z| == s.n
    ensures Residual(s, r, z) == Residual(s, r, x) + Dot(s.rows[r], Minus(z, x))
  {
    DotMinus(s.rows[r], x, z);
  }

  // How far the error at z is from the error at x, to second order.
  ghost function Expansion(s: Samples, k: nat, x: Vector, d: Vector): real
    requires s.Valid() && k <= |s.rows| && |x| == |d| == s.n
  {
    2.0 * Dot(Gradient(s, k, x), d) + Spread(s, k, d)
  }

  lemma ExpansionStep(s: Samples, k: nat, x: Vector, d: Vector)
    requires s.Valid() && 0 < k <= |s.rows| && |x| == |d| == s.n
    ensures Expansion(s, k, x, d) == Expansion(s, k - 1, x, d)
         + Square(s.w[k - 1], Residual(s, k - 1, x) + Dot(s.rows[k - 1], d))
         - Square(s.w[k - 1], Residual(s, k - 1, x))
  {
    SquareOfSum(s.w[k - 1], Residual(s, k - 1, x), Dot(s.rows[k - 1], d));
    GradientStep(s, k, x, d);
  }

  lemma {:induction false} ErrorExpansion(s: Samples, k: nat, x: Vector, z: Vector, d: Vector)
    requires s.Valid() && k <= |s.rows| && |x| == |z| == s.n && d == Minus(z, x)
    ensures SquaredError(s, k, z) == SquaredError(s, k, x) + Expansion(s, k, x, d)
  {
    if k == 0 {
      DotFromZeros(Zeros(s.n), d, 0);
    } else {
      ErrorExpansion(s, k - 1, x, z, d);
      ExpansionBetween(s, k, x, z, d);
    }
  }

  lemma ExpansionBetween(s: Samples, k: nat, x: Vector, z: Vector, d: Vector)
    requires s.Valid() && 0 < k <= |s.rows| && |x| == |z| == s.n && d == Minus(z, x)
    ensures Expansion(s, k, x, d) == Expansion(s, k - 1, x, d)
         + Square(s.w[k - 1], Residual(s, k - 1, z)) - Square(s.w[k - 1], Residual(s, k - 1, x))
  {
    ResidualStep(s, k - 1, x, z);
    ExpansionStep(s, k, x, d);
  }

  ghost predicate NonNegativeWeights(s: Samples) {
    forall r :: 0 <= r < |s.w| ==> s.w[r] >= 0.0
  }

  lemma {:induction false} SpreadNonNegative(s: Samples, k: nat, d: Vector)
    requires s.Valid() && k <= |s.rows| && |d| == s.n && NonNegativeWeights(s)
    ensures Spread(s, k, d) >= 0.0
    ensures Spread(s, k, d) == 0.0 ==>
              forall r :: 0 <= r < k ==> s.w[r] * Dot(s.rows[r], d) == 0.0
  {
    if k > 0 {
      SpreadNonNegative(s, k - 1, d);
      WeightedSquare(s.w[k - 1], Dot(s.rows[k - 1], d));
    }
  }

  lemma WeightedSquare(w: real, t: real)
    requires w >= 0.0
    ensures w * (t * t) >= 0.0
    ensures w * (t * t) == 0.0 ==> w * t == 0.0
  {
    assert t * t >= 0.0;
    if w * t != 0.0 {
      assert t * t > 0.0 && w > 0.0;
      assert w * (t * t) > 0.0;
    }
  }

  // If no sample with weight sees the direction d, the gradient is the same at z and x.
  lemma {:induction false} UnseenDirection(s: Samples, k: nat, x: Vector, z: Vector)
    requires s.Valid() && k <= |s.rows| && |x| == |z| == s.n
    requires forall r :: 0 <= r < k ==> s.w[r] * Dot(s.rows[r], Minus(z, x)) == 0.0
    ensures Gradient(s, k, z) == Gradient(s, k, x)
  {
    if k > 0 {
      UnseenDirection(s, k - 1, x, z);
      var r := k - 1;
      DotMinus(s.rows[r], x, z);
      var e, t := Residual(s, r, x), Dot(s.rows[r], Minus(z, x));
      assert Residual(s, r, z) == e + t;
      assert Times(s.w[r], Residual(s, r, z)) == Times(s.w[r], Residual(s, r, x)) by {
        assert s.w[r] * (e + t) == s.w[r] * e + s.w[r] * t;
      }
    }
  }

  // Around a solution of the normal equations the error grows by the spread of the displacement.
  lemma ErrorAroundSolution(s: Samples, x: Vector, z: Vector)
    requires s.Valid() && |z| == s.n && SolvesNormal(s, x)
    ensures TotalError(s, z) == TotalError(s, x) + Spread(s, |s.rows|, Minus(z, x))
  {
    GradientVanishes(s, x);
    ErrorExpansion(s, |s.rows|, x, z, Minus(z, x));
    ZeroExpansion(s, |s.rows|, x, Minus(z, x));
  }

  lemma ZeroExpansion(s: Samples, k: nat, x: Vector, d: Vector)
    requires s.Valid() && k <= |s.rows| && |x| == |d| == s.n && AllZero(Gradient(s, k, x))
    ensures Expansion(s, k, x, d) == Spread(s, k, d)
  {
    DotFromZeros(Gradient(s, k, x), d, 0);
  }

  /** A solution of the normal equations minimises the weighted squared error, and any other
      coefficients with an error as small solve the normal equations too. */
  lemma NormalEquationsMinimise(s: Samples, x: Vector, z: Vector)
    requires s.Valid() && NonNegativeWeights(s) && |z| == s.n && SolvesNormal(s, x)
    ensures TotalError(s, x) <= TotalError(s, z)
    ensures TotalError(s, z) <= TotalError(s, x) ==> SolvesNormal(s, z)
  {
    ErrorAroundSolution(s, x, z);
    SpreadNonNegative(s, |s.rows|, Minus(z, x));
    if TotalError(s, z) <= TotalError(s, x) {
      UnseenDirection(s, |s.rows|, x, z);
      GradientVanishes(s, x);
      GradientVanishes(s, z);
    }
  }

  // ---- the converse: away from a solution, a step against the gradient makes the error smaller

  function Scaled(n: nat, t: real, g: Vector): Vector
    requires |g| == n
  {
    AddScaled(Zeros(n), t, g)
  }

  lemma DotScaled(n: nat, u: Vector, t: real, g: Vector)
    requires |u| == |g| == n
    ensures Dot(u, Scaled(n, t, g)) == Times(t, Dot(u, g))
    ensures Dot(Scaled(n, t, g), u) == Times(t, Dot(g, u))
  {
    DotAddScaled(Zeros(n), t, g, u);
    DotFromZeros(Zeros(n), u, 0);
    DotFromSymmetric(u, Scaled(n, t, g), 0);
    DotFromSymmetric(u, g, 0);
  }

  lemma ScaledSquare(w: real, t: real, e: real)
    ensures Square(w, Times(t, e)) == Times(Times(t, t), Square(w, e))
  {
    assert (t * e) * (t * e) == (t * t) * (e * e);
    assert w * ((t * t) * (e * e)) == (t * t) * (w * (e * e));
  }

  lemma {:induction false} SpreadScaled(s: Samples, k: nat, t: real, g: Vector)
    requires s.Valid() && k <= |s.rows| && |g| == s.n
    ensures Spread(s, k, Scaled(s.n, t, g)) == Times(Times(t, t), Spread(s, k, g))
  {
    if k > 0 {
      SpreadScaled(s, k - 1, t, g);
      DotScaled(s.n, s.rows[k - 1], t, g);
      ScaledSquare(s.w[k - 1], t, Dot(s.rows[k - 1], g));
      Distribute(Times(t, t), Spread(s, k - 1, g), Square(s.w[k - 1], Dot(s.rows[k - 1], g)));
    } else {
      assert Times(Times(t, t), 0.0) == 0.0;
    }
  }

  lemma Distribute(a: real, b: real, c: real)
    ensures Times(a, b + c) == Times(a, b) + Times(a, c)
  {
  }

  lemma {:induction false} SelfDot(g: Vector, lo: nat)
    requires lo <= |g|
    ensures DotFrom(g, g, lo) >= 0.0
    ensures forall i :: lo <= i < |g| && g[i] != 0.0 ==> DotFrom(g, g, lo) > 0.0
    decreases |g| - lo
  {
    if lo < |g| {
      SelfDot(g, lo + 1);
      var own, rest := Times(g[lo], g[lo]), DotFrom(g, g, lo + 1);
      OwnSquare(g[lo]);
      assert DotFrom(g, g, lo) == own + rest;
      forall i | lo <= i < |g| && g[i] != 0.0 ensures own + rest > 0.0 {
        assert i == lo ==> own > 0.0;
        assert i > lo ==> rest > 0.0;
      }
    }
  }

  lemma PositiveProduct(a: real, b: real)
    requires a > 0.0 && b > 0.0
    ensures Times(a, b) > 0.0
  {
  }

  lemma OwnSquare(a: real)
    ensures Times(a, a) >= 0.0 && (a != 0.0 ==> Times(a, a) > 0.0)
  {
    if a > 0.0 {
      PositiveProduct(a, a);
    } else if a < 0.0 {
      PositiveProduct(-a, -a);
      assert Times(-a, -a) == Times(a, a);
    }
  }

  // A step length for which the second-order change is negative.
  lemma StepLength(gg: real, spread: real) returns (t: real)
    requires gg > 0.0
    ensures Times(Times(t, t), spread) < 2.0 * Times(t, gg)
  {
    if spread <= gg {
      t := 1.0;
    } else {
      t := gg / spread;
      assert t * spread == gg;
      assert Times(Times(t, t), spread) == t * gg;
      assert t > 0.0;
      assert t * gg > 0.0;
    }
  }

  lemma Opposite(t: real, a: real, b: real)
    ensures Times(-t, a) == -Times(t, a)
    ensures Times(Times(-t, -t), b) == Times(Times(t, t), b)
  {
    assert Times(-t, -t) == Times(t, t);
  }

  lemma StepBack(z: Vector, t: real, g: Vector)
    requires |z| == |g|
    ensures |AddScaled(z, -t, g)| == |z| && Minus(AddScaled(z, -t, g), z) == Scaled(|z|, -t, g)
  {
    var q, d := AddScaled(z, -t, g), Scaled(|z|, -t, g);
    forall i | 0 <= i < |z| ensures Minus(q, z)[i] == d[i] {
      assert q[i] == z[i] + (-t) * g[i];
      assert d[i] == 0.0 + (-t) * g[i];
    }
  }

  lemma SmallerError(s: Samples, z: Vector) returns (q: Vector)
    requires s.Valid() && |z| == s.n && !AllZero(Gradient(s, |s.rows|, z))
    ensures |q| == s.n && TotalError(s, q) < TotalError(s, z)
  {
    var k := |s.rows|;
    var g := Gradient(s, k, z);
    SelfDot(g, 0);
    var gg, spread := Dot(g, g), Spread(s, k, g);
    var t := StepLength(gg, spread);
    q := AddScaled(z, -t, g);
    var d := Scaled(s.n, -t, g);
    StepBack(z, t, g);
    ErrorExpansion(s, k, z, q, d);
    DotScaled(s.n, g, -t, g);
    SpreadScaled(s, k, -t, g);
    Opposite(t, gg, spread);
  }

  ghost predicate Minimises(s: Samples, z: Vector)
    requires s.Valid()
  {
    |z| == s.n && forall q: Vector :: |q| == s.n ==> TotalError(s, z) <= TotalError(s, q)
  }

  /** Whatever minimises the weighted squared error solves the normal equations, whatever the sign
      of the weights; with non-negative weights the minimisers are exactly the solutions. */
  lemma MinimisersSolveNormal(s: Samples, z: Vector)
    requires s.Valid() && |z| == s.n
    ensures Minimises(s, z) ==> SolvesNormal(s, z)
    ensures NonNegativeWeights(s) ==> (Minimises(s, z) <==> SolvesNormal(s, z))
  {
    GradientVanishes(s, z);
    if !SolvesNormal(s, z) {
      var q := SmallerError(s, z);
      assert TotalError(s, q) < TotalError(s, z);
    } else if NonNegativeWeights(s) {
      forall q: Vector | |q| == s.n ensures TotalError(s, z) <= TotalError(s, q) {
        NormalEquationsMinimise(s, z, q);
      }
    }
  }

  // ---- the solver

  // Accumulation of the normal equations, sample by sample and entry by entry.
  method BuildNormal(a: Matrix, y: Vector, w: Vector) returns (u: Matrix, b: Vector)
    requires WellShaped(a, y, w)
    ensures var s := Zip(a, y, w);
      u == NormalMatrix(s, |s.rows|) && b == NormalRhs(s, |s.rows|)
  {
    var n := |a[0]|;
    ghost var s := Zip(a, y, w);
    b := Zeros(n);
    u := seq(n, i => Zeros(n));
    var r := 0;
    while r < SampleCount(a, y, w)
      invariant r <= SampleCount(a, y, w)
      invariant u == NormalMatrix(s, r) && b == NormalRhs(s, r)
    {
      var row := a[r][..n];
      assert row == s.rows[r] && y[r] == s.y[r] && w[r] == s.w[r];
      for i := 0 to n
        invariant |b| == n && Rectangular(u, n, n)
        invariant forall k :: 0 <= k < i ==> u[k] == NormalRow(s, r + 1, k) && b[k] == NormalEntry(s, r + 1, k)
        invariant forall k :: i <= k < n ==> u[k] == NormalRow(s, r, k) && b[k] == NormalEntry(s, r, k)
      {
        b := b[i := b[i] + w[r] * row[i] * y[r]];
        var line := AccumulateRow(u[i], w[r], row, i);
        assert b[i] == NormalEntry(s, r + 1, i);
        u := u[i := line];
      }
      assert u == NormalMatrix(s, r + 1) && b == NormalRhs(s, r + 1);
      r := r + 1;
    }
  }

  method AccumulateRow(line0: Vector, ww: real, row: Vector, i: nat) returns (line: Vector)
    requires |line0| == |row| && i < |row|
    ensures line == AddScaled(line0, Times(ww, row[i]), row)
  {
    line := line0;
    for j := 0 to |row|
      invariant |line| == |row|
      invariant forall k :: 0 <= k < j ==> line[k] == line0[k] + (ww * row[i]) * row[k]
      invariant forall k :: j <= k < |row| ==> line[k] == line0[k]
    {
      line := line[j := line[j] + ww * row[i] * row[j]];
    }
    var t := AddScaled(line0, Times(ww, row[i]), row);
    assert forall k :: 0 <= k < |row| ==> line[k] == t[k];
  }

  lemma ReductionStarts(m: Matrix, b: Vector)
    requires |b| == |m| && Rectangular(m, |m|, |m|)
    ensures Reduced(m, b, m, b, 0)
  {
    forall v: Vector, i | |v| == |m| && 0 <= i < |m| ensures TakesValue(m, v, Dot(m[i], v)) {
    }
  }

  // One column of forward elimination: pivot, exchange, clear.
  method EliminateColumn(ghost m: Matrix, ghost b: Vector, u0: Matrix, c0: Vector, col: nat)
    returns (ok: bool, u: Matrix, c: Vector)
    requires Reduced(m, b, u0, c0, col) && col < |m|
    ensures ok <==> !NoPivot(u0, col)
    ensures ok ==> Reduced(m, b, u, c, col + 1) && u == Eliminated(u0, col)
    ensures !ok ==> NearlySingular(m)
  {
    u, c := u0, c0;
    var piv := FindPivot(u, col);
    ok := Abs(u[piv][col]) >= TINY;
    if !ok {
      NoPivotNearlySingular(m, b, u, c, col);
      return;
    }
    SwapKeeps(m, b, u, c, col, piv);
    u, c := Swap(u, col, piv), Swap(c, col, piv);
    u, c := ClearColumn(m, b, u, c, col);
  }

  // Forward elimination; it stops at the first column without a usable pivot.
  method Triangularise(m: Matrix, b: Vector) returns (ok: bool, u: Matrix, c: Vector)
    requires |b| == |m| && Rectangular(m, |m|, |m|)
    ensures ok <==> !Refused(m)
    ensures ok ==> Reduced(m, b, u, c, |m|)
    ensures !ok ==> NearlySingular(m)
  {
    ok, u, c := true, m, b;
    ReductionStarts(m, b);
    ReachedFirst(m);
    for col := 0 to |m|
      invariant ok && Reduced(m, b, u, c, col)
      invariant Reached(m, col, u)
    {
      ReachedNext(m, col, u);
      ok, u, c := EliminateColumn(m, b, u, c, col);
      if !ok {
        return;
      }
    }
    ReachedLast(m, u);
  }

  /** A square system solved by elimination.  A returned vector is the only exact solution;
      none is returned exactly when elimination reaches a column whose candidate pivots are all
      below the tolerance, and then some non-zero vector is mapped below the tolerance. */
  method SolveSquare(m: Matrix, b: Vector) returns (r: Option<Vector>)
    requires |b| == |m| && Rectangular(m, |m|, |m|)
    ensures r.Some? ==> |r.value| == |m| && Solves(m, b, r.value)
    ensures r.Some? ==> forall z :: |z| == |m| && Solves(m, b, z) ==> z == r.value
    ensures r.None? <==> Refused(m)
    ensures r.None? ==> NearlySingular(m)
  {
    var ok, u, c := Triangularise(m, b);
    if !ok {
      return None;
    }
    var x := BackSubstitute(u, c);
    return Some(x);
  }

  /** solve_linear: a returned vector is the unique solution of the weighted normal
      equations and, with non-negative weights, the strict minimiser of the weighted
      squared error; none is returned exactly when elimination of the normal matrix meets a
      column without a usable pivot, and then that matrix is nearly singular. */
  method SolveLinear(a: Matrix, y: Vector, w: Vector) returns (r: Option<Vector>)
    requires WellShaped(a, y, w)
    ensures var s := Zip(a, y, w);
      && (r.Some? ==> SolvesNormal(s, r.value))
      && (r.Some? ==> forall z :: SolvesNormal(s, z) ==> z == r.value)
      && (r.Some? && NonNegativeWeights(s) ==>
            forall z: Vector :: |z| == s.n && z != r.value ==> TotalError(s, r.value) < TotalError(s, z))
      && (r.None? <==> Refused(NormalMatrix(s, |s.rows|)))
      && (r.None? ==> NearlySingular(NormalMatrix(s, |s.rows|)))
  {
    var u, b := BuildNormal(a, y, w);
    r := SolveSquare(u, b);
    ghost var s := Zip(a, y, w);
    if r.Some? && NonNegativeWeights(s) {
      forall z: Vector | |z| == s.n && z != r.value
        ensures TotalError(s, r.value) < TotalError(s, z)
      {
        NormalEquationsMinimise(s, r.value, z);
      }
    }
  }

  /** The tolerance is absolute, so a regular system can be refused: one sample with the single
      regressor 1e-7 has exactly one best coefficient, yet elimination of its normal matrix
      [[1e-14]] stops at the first column. */
  lemma RefusesSmallRegularSystem(q: Vector)
    ensures var s := Zip([[0.0000001]], [1.0], [1.0]);
      && |s.rows| == 1
      && Refused(NormalMatrix(s, 1))
      && (SolvesNormal(s, q) <==> q == [10000000.0])
  {
    var s := Zip([[0.0000001]], [1.0], [1.0]);
    assert [0.0000001][..1] == [0.0000001];
    assert s.rows == [[0.0000001]];
    assert s.y == [1.0] && s.w == [1.0];
    assert NormalRow(s, 0, 0) == [0.0];
    assert NormalRow(s, 1, 0) == [0.00000000000001];
    assert NormalMatrix(s, 1) == [[0.00000000000001]];
    assert NormalEntry(s, 1, 0) == 0.0000001;
    assert NormalRhs(s, 1) == [0.0000001];
    TinyRefused([[0.00000000000001]]);
    if |q| == 1 {
      assert q == [q[0]];
      assert Dot(NormalMatrix(s, 1)[0], q) == 0.00000000000001 * q[0];
    }
  }

  lemma TinyRefused(m: Matrix)
    requires |m| == 1 && |m[0]| == 1 && Abs(m[0][0]) < TINY
    ensures Refused(m)
  {
    assert Stage(m, 0) == Some(m);
    assert StopsAt(m, 0);
  }

  /** In one unknown the tolerance is seen exactly: refused below 1e-12 in magnitude, solved from there
      on. */
  lemma OneUnknown(p: real)
    ensures Refused([[p]]) <==> -0.000000000001 < p < 0.000000000001
  {
    var m := [[p]];
    assert Stage(m, 0) == Some(m);
    assert StopsAt(m, 0) <==> NoPivot(m, 0);
    assert NoPivot(m, 0) <==> Abs(m[0][0]) < TINY;
  }

  /** The solver itself, on that input: no vector, although the least-squares problem has exactly
      one solution. */
  method SmallRegularSystem() returns (r: Option<Vector>)
    ensures r.None?
    ensures exists q: Vector :: SolvesNormal(Zip([[0.0000001]], [1.0], [1.0]), q)
  {
    RefusesSmallRegularSystem([10000000.0]);
    r := SolveLinear([[0.0000001]], [1.0], [1.0]);
  }
}
