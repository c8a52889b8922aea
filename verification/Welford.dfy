/** The summary of benchmark runs (utils/bench-scheduler.cc): one pass computes the mean and the second
    moment of every measured quantity; here for one of them, over exact reals. */
module Welford {

  function Square(x: real): real { x * x }

  function Sum(xs: seq<real>): real {
    if xs == [] then 0.0 else Sum(xs[..|xs| - 1]) + xs[|xs| - 1]
  }

  /** The two-pass definitions. */
  function Mean(xs: seq<real>): real
    requires xs != []
  {
    Sum(xs) / |xs| as real
  }

  function Deviation(xs: seq<real>, c: real): real {
    if xs == [] then 0.0 else Deviation(xs[..|xs| - 1], c) + Square(xs[|xs| - 1] - c)
  }

  function SecondMoment(xs: seq<real>): real
    requires xs != []
  {
    Deviation(xs, Mean(xs))
  }

  function Times(a: real, b: real): real { a * b }

  // The change when the centre of n samples with sum s of (x - a) moves by d.
  function Shift(n: nat, s: real, d: real): real {
    2.0 * Times(d, s) + Times(n as real, Square(d))
  }

  lemma ShiftStep(n: nat, s: real, d: real, t: real)
    ensures Shift(n, s, d) + Square(t + d) == Square(t) + Shift(n + 1, s + t, d)
  {
    var q := Square(d);
    assert Square(t + d) == Square(t) + 2.0 * Times(d, t) + q;
    assert Times(d, s + t) == Times(d, s) + Times(d, t);
    assert Times((n + 1) as real, q) == Times(n as real, q) + q;
  }

  // The sum of x - a over the samples.
  function Offsets(xs: seq<real>, a: real): real {
    if xs == [] then 0.0 else Offsets(xs[..|xs| - 1], a) + (xs[|xs| - 1] - a)
  }

  lemma {:induction false} OffsetsAre(xs: seq<real>, a: real)
    ensures Offsets(xs, a) == Sum(xs) - Times(|xs| as real, a)
  {
    if xs != [] {
      OffsetsAre(xs[..|xs| - 1], a);
      assert Times(|xs| as real, a) == Times((|xs| - 1) as real, a) + a;
    } else {
      assert Times(0.0, a) == 0.0;
    }
  }

  // Moving the centre of the squared deviations from a to c.
  lemma {:induction false} DeviationShift(xs: seq<real>, a: real, c: real)
    ensures Deviation(xs, c) == Deviation(xs, a) + Shift(|xs|, Offsets(xs, a), a - c)
  {
    if xs != [] {
      var front, x := xs[..|xs| - 1], xs[|xs| - 1];
      DeviationShift(front, a, c);
      ShiftStep(|front|, Offsets(front, a), a - c, x - a);
      assert x - c == (x - a) + (a - c);
    } else {
      assert Shift(0, 0.0, a - c) == 0.0;
    }
  }

  lemma MeanTimes(xs: seq<real>)
    requires xs != []
    ensures Times(|xs| as real, Mean(xs)) == Sum(xs)
  {
  }

  /** The mean is where the squared deviations are least: elsewhere they grow by the squared distance. */
  lemma MeanIsLeast(xs: seq<real>, c: real)
    requires xs != []
    ensures Deviation(xs, c) == SecondMoment(xs) + Times(|xs| as real, Square(Mean(xs) - c))
    ensures Deviation(xs, c) >= SecondMoment(xs)
  {
    MeanTimes(xs);
    OffsetsAre(xs, Mean(xs));
    DeviationShift(xs, Mean(xs), c);
    NoOffset(|xs|, Mean(xs) - c);
  }

  lemma NoOffset(n: nat, d: real)
    ensures Shift(n, 0.0, d) == Times(n as real, Square(d)) >= 0.0
  {
  }

  lemma {:induction false} SumAppend(xs: seq<real>, x: real)
    ensures Sum(xs + [x]) == Sum(xs) + x
  {
    assert (xs + [x])[..|xs|] == xs;
  }

  lemma {:induction false} DeviationAppend(xs: seq<real>, x: real, c: real)
    ensures Deviation(xs + [x], c) == Deviation(xs, c) + Square(x - c)
  {
    assert (xs + [x])[..|xs|] == xs;
  }

  // What one more sample does to the mean and to the second moment.
  lemma OneMore(xs: seq<real>, x: real)
    requires xs != []
    ensures var pre := x - Mean(xs);
      && Mean(xs + [x]) == Mean(xs) + pre / (|xs| + 1) as real
      && SecondMoment(xs + [x]) == SecondMoment(xs) + Times(pre, x - Mean(xs + [x]))
  {
    SumAppend(xs, x);
    MeanTimes(xs);
    NewMean(|xs|, Mean(xs), x, Sum(xs));
    var b := Mean(xs + [x]);
    MeanIsLeast(xs, b);
    DeviationAppend(xs, x, b);
    NewMoment(|xs|, Mean(xs), x, b);
  }

  lemma NewMean(n: nat, a: real, x: real, s: real)
    requires Times(n as real, a) == s
    ensures (s + x) / (n + 1) as real == a + (x - a) / (n + 1) as real
  {
    var m := (n + 1) as real;
    assert s + x == m * a + (x - a);
    assert m * a / m == a;
  }

  lemma NewMoment(n: nat, a: real, x: real, b: real)
    requires b == a + (x - a) / (n + 1) as real
    ensures Times(n as real, Square(a - b)) + Square(x - b) == Times(x - a, x - b)
  {
    var d, m := b - a, n as real;
    assert (m + 1.0) * d == x - a;
    FromDistance(m, d, x - a, x - b);
    assert Square(a - b) == Square(d);
  }

  lemma FromDistance(m: real, d: real, p: real, q: real)
    requires p == (m + 1.0) * d && q == p - d
    ensures Times(m, Square(d)) + Square(q) == Times(p, q)
  {
    assert q == m * d;
    var e := m * d;
    assert Times(m, Square(d)) == e * d;
    assert Times(p, q) == (e + d) * e;
  }

  /** The accumulation loop of BenchSuite::Log for one measured quantity. */
  method Accumulate(results: seq<real>) returns (average: real, moment2: real, variance: real)
    requires results != []
    ensures average == Mean(results)
    ensures moment2 == SecondMoment(results)
    ensures variance == SecondMoment(results) / |results| as real >= 0.0
  {
    average, moment2 := results[0], 0.0;
    var n := 0;
    while n < |results|
      invariant 0 <= n <= |results|
      invariant Summarised(results[..n], results[0], average, moment2)
    {
      var count := n + 1;
      var run := results[n];
      ghost var before := average;
      var deltaPre := run - average;
      average := average + deltaPre / count as real;
      var deltaPost := run - average;
      ghost var moment := moment2;
      moment2 := moment2 + Times(deltaPre, deltaPost);
      assert results[..n + 1] == results[..n] + [run];
      SummaryStep(results[..n], results[0], before, moment, run);
      n := n + 1;
    }
    assert results[..n] == results;
    variance := moment2 / n as real;
    NotNegative(results, Mean(results));
    Quotient(moment2, n);
  }

  // Before any sample the average is the first one.
  ghost predicate Summarised(xs: seq<real>, first: real, average: real, moment2: real) {
    if xs == [] then average == first && moment2 == 0.0
    else average == Mean(xs) && moment2 == SecondMoment(xs)
  }

  lemma SummaryStep(xs: seq<real>, first: real, average: real, moment2: real, x: real)
    requires Summarised(xs, first, average, moment2) && (xs == [] ==> x == first)
    ensures var next := average + (x - average) / (|xs| + 1) as real;
      Summarised(xs + [x], first, next, moment2 + Times(x - average, x - next))
  {
    if xs == [] {
      First([x]);
      assert xs + [x] == [x];
      assert Times(0.0, x - average) == 0.0;
    } else {
      OneMore(xs, x);
    }
  }

  lemma Quotient(a: real, n: nat)
    requires a >= 0.0 && n > 0
    ensures a / n as real >= 0.0
  {
  }

  lemma First(xs: seq<real>)
    requires |xs| == 1
    ensures Mean(xs) == xs[0] && SecondMoment(xs) == 0.0
  {
    assert xs[..0] == [];
    assert Sum(xs) == Sum(xs[..0]) + xs[0];
    assert Deviation(xs, xs[0]) == Deviation(xs[..0], xs[0]) + Square(0.0);
  }

  lemma SquareNotNegative(x: real)
    ensures Square(x) >= 0.0
  {
  }

  lemma {:induction false} NotNegative(xs: seq<real>, c: real)
    ensures Deviation(xs, c) >= 0.0
  {
    if xs != [] {
      NotNegative(xs[..|xs| - 1], c);
      SquareNotNegative(xs[|xs| - 1] - c);
    }
  }
}
