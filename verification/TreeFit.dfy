/** fit_original_model: the joint, relative-error-weighted fit of the two tree-allreduce
    constants (t_min_switch, tree_bw) in configs/calibration/tree_ns3_sweep.py. */
module TreeFit {
  import opened Wrappers
  import opened LinearAlgebra
  import opened LeastSquares
  import opened Elimination

  /** One measured point: number of GPUs, bytes, simulated microseconds. */
  datatype Point = Point(gpus: int, bytes: int, t: real)

  datatype Fit = Fitted(mape: real, tFixed: real, treeBw: real) | Singular | Raised

  function Alpha(n: int): real {
    if n <= 2 then 1.0 else if n <= 4 then 2.0 else 3.0
  }

  function Pow2(k: nat): nat { if k == 0 then 1 else 2 * Pow2(k - 1) }

  // floor(log2 n)
  function FloorLog2(n: int): (k: nat)
    requires n >= 1
    ensures Pow2(k) <= n < Pow2(k + 1)
  {
    if n == 1 then 0 else 1 + FloorLog2(n / 2)
  }

  function Steps(n: int): int
    requires n >= 1
  {
    var k := FloorLog2(n);
    2 * (if k > 1 then k else 1)
  }

  // Startup microseconds of the wire protocol chosen for a size.
  function Startup(bytes: int): real {
    if bytes < 8192 then 15.0 else if bytes < 2097152 then 25.0 else 46.0
  }

  // Bytes on the busiest trunk.
  function Load(n: int, bytes: int): real { Alpha(n) * bytes as real }

  function Over(v: real, b: real): real
    requires b != 0.0
  {
    v / b
  }

  function Predict(n: int, bytes: int, tFixed: real, treeBw: real): real
    requires n >= 1 && treeBw != 0.0
  {
    Startup(bytes) + Times(Steps(n) as real, tFixed) + Over(Load(n, bytes), treeBw)
  }

  // The points on which the arithmetic of the fit is defined.
  predicate Usable(points: seq<Point>) {
    points != [] && forall p :: p in points ==> p.gpus >= 1 && p.t != 0.0
  }

  function Design(p: Point): Vector
    requires p.gpus >= 1
  {
    [Steps(p.gpus) as real, Load(p.gpus, p.bytes)]
  }

  function PairDot(row: Vector, a: real, b: real): real
    requires |row| == 2
  {
    Times(row[0], a) + Times(row[1], b)
  }

  // The model with free coefficients: t_min_switch and 1 / tree_bw.
  function ModelTime(p: Point, tFixed: real, inverseBw: real): real
    requires p.gpus >= 1
  {
    Startup(p.bytes) + PairDot(Design(p), tFixed, inverseBw)
  }

  function RelativeSquare(time: real, t: real): real
    requires t != 0.0
  {
    ((time - t) / t) * ((time - t) / t)
  }

  function RelativeAbs(time: real, t: real): real
    requires t != 0.0
  {
    Abs(time - t) / t
  }

  /** Sum of squared relative errors of the first k points. */
  ghost function RelativeError(points: seq<Point>, k: nat, tFixed: real, inverseBw: real): real
    requires Usable(points) && k <= |points|
  {
    if k == 0 then 0.0 else
      var p := points[k - 1];
      RelativeError(points, k - 1, tFixed, inverseBw) + RelativeSquare(ModelTime(p, tFixed, inverseBw), p.t)
  }

  /** Sum of the relative errors whose mean the fit reports. */
  ghost function AbsoluteErrors(points: seq<Point>, k: nat, tFixed: real, treeBw: real): real
    requires Usable(points) && k <= |points| && treeBw != 0.0
  {
    if k == 0 then 0.0 else
      var p := points[k - 1];
      AbsoluteErrors(points, k - 1, tFixed, treeBw) + RelativeAbs(Predict(p.gpus, p.bytes, tFixed, treeBw), p.t)
  }

  function Percent(sum: real, n: nat): real
    requires n > 0
  {
    100.0 * sum / n as real
  }

  /** (tFixed, inverseBw) has a strictly smaller relative squared error than every other pair. */
  ghost predicate StrictlyBest(points: seq<Point>, tFixed: real, inverseBw: real)
    requires Usable(points)
  {
    forall t, b :: (t, b) != (tFixed, inverseBw) ==>
      RelativeError(points, |points|, tFixed, inverseBw) < RelativeError(points, |points|, t, b)
  }

  function DesignMatrix(points: seq<Point>): Matrix
    requires Usable(points)
  {
    seq(|points|, r requires 0 <= r < |points| => Design(points[r]))
  }

  function Targets(points: seq<Point>): Vector
    requires Usable(points)
  {
    seq(|points|, r requires 0 <= r < |points| => points[r].t - Startup(points[r].bytes))
  }

  function InverseSquare(t: real): real
    requires t != 0.0
  {
    1.0 / (t * t)
  }

  function Weights(points: seq<Point>): Vector
    requires Usable(points)
  {
    seq(|points|, r requires 0 <= r < |points| => InverseSquare(points[r].t))
  }

  ghost function FitSamples(points: seq<Point>): (s: Samples)
    requires Usable(points)
    ensures s.Valid() && s.n == 2
    ensures s == Samples(DesignMatrix(points), Targets(points), Weights(points), 2)
  {
    var a, y, w := DesignMatrix(points), Targets(points), Weights(points);
    var s := Zip(a, y, w);
    assert forall r :: 0 <= r < |a| ==> a[r][..2] == a[r];
    assert s.rows == a && s.y == y && s.w == w;
    s
  }

  lemma WeightedIsRelative(time: real, t: real)
    requires t != 0.0
    ensures Square(InverseSquare(t), time - t) == RelativeSquare(time, t)
  {
    var e := time - t;
    assert e / t == e * (1.0 / t);
    assert (1.0 / t) * (1.0 / t) == 1.0 / (t * t);
  }

  lemma DotOfPair(row: Vector, a: real, b: real)
    requires |row| == 2
    ensures Dot(row, [a, b]) == PairDot(row, a, b)
  {
    var x := [a, b];
    assert DotFrom(row, x, 1) == row[1] * x[1] + DotFrom(row, x, 2);
  }

  lemma PointResidual(points: seq<Point>, r: nat, tFixed: real, inverseBw: real)
    requires Usable(points) && r < |points|
    ensures Residual(FitSamples(points), r, [tFixed, inverseBw])
         == ModelTime(points[r], tFixed, inverseBw) - points[r].t
  {
    DotOfPair(Design(points[r]), tFixed, inverseBw);
    assert DesignMatrix(points)[r] == Design(points[r]);
  }

  lemma PointIsRelative(points: seq<Point>, r: nat, tFixed: real, inverseBw: real)
    requires Usable(points) && r < |points|
    ensures var s := FitSamples(points);
      Square(s.w[r], Residual(s, r, [tFixed, inverseBw])) == RelativeSquare(ModelTime(points[r], tFixed, inverseBw), points[r].t)
  {
    PointResidual(points, r, tFixed, inverseBw);
    WeightedIsRelative(ModelTime(points[r], tFixed, inverseBw), points[r].t);
    assert Weights(points)[r] == InverseSquare(points[r].t);
  }

  // The weighted squared error that the solver minimises is the relative squared error of the model.
  lemma {:induction false} ErrorIsRelative(points: seq<Point>, k: nat, tFixed: real, inverseBw: real)
    requires Usable(points) && k <= |points|
    ensures SquaredError(FitSamples(points), k, [tFixed, inverseBw])
         == RelativeError(points, k, tFixed, inverseBw)
  {
    if k > 0 {
      ErrorIsRelative(points, k - 1, tFixed, inverseBw);
      PointIsRelative(points, k - 1, tFixed, inverseBw);
    }
  }

  lemma WeightsNonNegative(points: seq<Point>)
    requires Usable(points)
    ensures NonNegativeWeights(FitSamples(points))
  {
    forall r | 0 <= r < |points| ensures Weights(points)[r] >= 0.0 {
      var t := points[r].t;
      assert points[r] in points;
      assert t * t > 0.0;
    }
  }

  // Predicting with the bandwidth agrees with the model at its reciprocal.
  lemma SameTime(p: Point, tFixed: real, inverseBw: real, treeBw: real)
    requires p.gpus >= 1 && inverseBw != 0.0 && treeBw == 1.0 / inverseBw
    ensures treeBw != 0.0 && Predict(p.gpus, p.bytes, tFixed, treeBw) == ModelTime(p, tFixed, inverseBw)
  {
    Reciprocal(inverseBw, Load(p.gpus, p.bytes));
  }

  lemma Reciprocal(b: real, v: real)
    requires b != 0.0
    ensures 1.0 / b != 0.0 && 1.0 / (1.0 / b) == b && Over(v, 1.0 / b) == Times(v, b)
  {
  }

  /** The error loop of the fit: the mean relative error, in percent, of `Predict`. */
  method MeanError(points: seq<Point>, tFixed: real, inverseBw: real, ghost treeBw: real) returns (m: real)
    requires Usable(points) && inverseBw != 0.0 && treeBw == 1.0 / inverseBw && treeBw != 0.0
    ensures m == Percent(AbsoluteErrors(points, |points|, tFixed, treeBw), |points|)
  {
    var sum := 0.0;
    for r := 0 to |points|
      invariant sum == AbsoluteErrors(points, r, tFixed, treeBw)
    {
      var p := points[r];
      SameTime(p, tFixed, inverseBw, treeBw);
      sum := sum + RelativeAbs(ModelTime(p, tFixed, inverseBw), p.t);
    }
    m := Percent(sum, |points|);
  }

  /** The fitted pair is the only minimiser of the relative squared error over ALL pairs of
      coefficients, the reported error is the mean over `Predict`, the fit raises only on an
      unusable input or when the best inverse bandwidth is exactly zero, and it gives up exactly
      when elimination of the normal matrix meets a column without a usable pivot. */
  method FitOriginalModel(points: seq<Point>) returns (fit: Fit)
    ensures !Usable(points) ==> fit.Raised?
    ensures Usable(points) && fit.Raised? ==> exists t :: StrictlyBest(points, t, 0.0)
    ensures fit.Singular? <==> Usable(points) && Refused(NormalMatrix(FitSamples(points), |points|))
    ensures fit.Singular? ==> NearlySingular(NormalMatrix(FitSamples(points), |points|))
    ensures fit.Fitted? ==>
      && Usable(points) && fit.treeBw != 0.0
      && StrictlyBest(points, fit.tFixed, 1.0 / fit.treeBw)
      && fit.mape == Percent(AbsoluteErrors(points, |points|, fit.tFixed, fit.treeBw), |points|)
  {
    if !Usable(points) {
      return Raised;
    }
    var coef := BestCoefficients(points);
    if coef.None? {
      return Singular;
    }
    var (tFixed, inverseBw) := coef.value;
    if inverseBw == 0.0 {
      return Raised;
    }
    Reciprocal(inverseBw, 1.0);
    var treeBw := 1.0 / inverseBw;
    var m := MeanError(points, tFixed, inverseBw, treeBw);
    fit := Fitted(m, tFixed, treeBw);
  }

  // The call of the solver: a returned pair is the strict optimum.
  method BestCoefficients(points: seq<Point>) returns (r: Option<(real, real)>)
    requires Usable(points)
    ensures r.Some? ==> StrictlyBest(points, r.value.0, r.value.1)
    ensures r.None? <==> Refused(NormalMatrix(FitSamples(points), |points|))
    ensures r.None? ==> NearlySingular(NormalMatrix(FitSamples(points), |points|))
  {
    ghost var s := FitSamples(points);
    var coef := SolveLinear(DesignMatrix(points), Targets(points), Weights(points));
    if coef.None? {
      return None;
    }
    var tFixed, inverseBw := coef.value[0], coef.value[1];
    assert coef.value == [tFixed, inverseBw];
    WeightsNonNegative(points);
    forall t, b | (t, b) != (tFixed, inverseBw)
      ensures RelativeError(points, |points|, tFixed, inverseBw) < RelativeError(points, |points|, t, b)
    {
      var z := [t, b];
      assert z[0] == t && z[1] == b;
      ErrorIsRelative(points, |points|, t, b);
      ErrorIsRelative(points, |points|, tFixed, inverseBw);
    }
    r := Some((tFixed, inverseBw));
  }

  /** The rows a fit can use: at least one, each with a GPU count of at least one and a time other than
      zero. */
  lemma UsableMeans(points: seq<Point>)
    ensures Usable(points) <==> |points| > 0 && forall i :: 0 <= i < |points| ==> points[i].gpus >= 1 && points[i].t != 0.0
  {
    assert forall i :: 0 <= i < |points| ==> points[i] in points;
  }

  // ---- the structural inputs, value by value

  /** The busiest trunk carries the load once, twice or three times. */
  lemma AlphaTable(n: int)
    ensures n <= 2 ==> Alpha(n) == 1.0
    ensures n == 3 || n == 4 ==> Alpha(n) == 2.0
    ensures n >= 5 ==> Alpha(n) == 3.0
  {
  }

  /** The number of steps: twice the number of times n can be halved, at least two. */
  lemma StepsTable(n: int, k: nat)
    requires n >= 1 && Pow2(k) <= n < 2 * Pow2(k)
    ensures Steps(n) == if k == 0 then 2 else 2 * k
  {
    SameLog(n, FloorLog2(n), k);
  }

  lemma SameLog(n: int, j: nat, k: nat)
    requires Pow2(j) <= n < 2 * Pow2(j) && Pow2(k) <= n < 2 * Pow2(k)
    ensures j == k
  {
    PowersGrow(j + 1, k);
    PowersGrow(k + 1, j);
  }

  lemma Powers()
    ensures Pow2(0) == 1 && Pow2(1) == 2 && Pow2(2) == 4 && Pow2(3) == 8
  {
  }

  lemma {:induction false} PowersGrow(a: nat, b: nat)
    ensures a <= b ==> Pow2(a) <= Pow2(b)
  {
    if a < b {
      PowersGrow(a, b - 1);
    }
  }

  /** The start-up time by message size: below 8 KiB, below 2 MiB, and from there on. */
  lemma StartupTable(bytes: int)
    ensures bytes < 8192 ==> Startup(bytes) == 15.0
    ensures 8192 <= bytes < 2097152 ==> Startup(bytes) == 25.0
    ensures bytes >= 2097152 ==> Startup(bytes) == 46.0
  {
  }

  /** The prediction for eight GPUs and one MiB. */
  lemma PredictExample(tFixed: real, treeBw: real)
    requires treeBw > 0.0
    ensures Predict(8, 1048576, tFixed, treeBw) == 25.0 + 6.0 * tFixed + 3145728.0 / treeBw
  {
    Powers();
    StepsTable(8, 3);
    AlphaTable(8);
    StartupTable(1048576);
  }

  /** The mean error in percent, from the sum of the relative errors; and what one relative error is. */
  lemma PercentMeans(sum: real, n: nat, time: real, t: real)
    requires n > 0 && t != 0.0
    ensures Percent(sum, n) * n as real == 100.0 * sum
    ensures RelativeAbs(time, t) * t == Abs(time - t)
    ensures RelativeSquare(time, t) * (t * t) == (time - t) * (time - t)
  {
    Cancel(100.0 * sum, n as real);
    Cancel(Abs(time - t), t);
    Cancel(time - t, t);
    SquareCancel((time - t) / t, t, time - t);
  }

  lemma Cancel(a: real, b: real)
    requires b != 0.0
    ensures a / b * b == a
  {
  }

  lemma SquareCancel(q: real, t: real, d: real)
    requires q * t == d
    ensures (q * q) * (t * t) == d * d
  {
    assert (q * q) * (t * t) == (q * t) * (q * t);
  }
}
