/** Random-traffic mode of the simulator driver (scratch/gpu-cluster-sim.cc): every source sends a
    message, schedules itself again one interval later, and stops at the end of the window. */
module RandomTraffic {
  import opened Wrappers

  const Modulus := 0x1_0000_0000_0000_0000

  function Wrap(n: nat): nat { n % Modulus }

  /** The time one message takes at the requested fraction of the line rate, in nanoseconds. */
  function Ideal(msgBytes: nat, rate: real, gbps: nat): (t: real)
    requires 0.0 < rate && gbps > 0
    ensures t * (rate * gbps as real) == 8.0 * msgBytes as real
  {
    Positive(rate, gbps);
    var speed := rate * gbps as real;
    QuotientTimes(msgBytes as real * 8.0, speed);
    msgBytes as real * 8.0 / speed
  }

  lemma QuotientTimes(a: real, b: real)
    requires b != 0.0
    ensures a / b * b == a
  {
  }

  lemma Positive(rate: real, gbps: nat)
    requires 0.0 < rate && gbps > 0
    ensures rate * gbps as real > 0.0
  {
  }

  /** The message interval: the ideal time to the nearest nanosecond, but never zero. */
  function Interval(msgBytes: nat, rate: real, gbps: nat): (i: nat)
    requires 0.0 < rate && gbps > 0
    ensures i >= 1
    ensures var f := Ideal(msgBytes, rate, gbps);
      if f < 0.5 then i == 1 else i as real - 0.5 <= f < i as real + 0.5
  {
    var f := (Ideal(msgBytes, rate, gbps) + 0.5).Floor;
    if f < 1 then 1 else f
  }

  datatype Window = Window(start: nat, end: nat)

  predicate InWindow(w: Window, t: nat) { w.start <= t < w.end }

  function Times(a: nat, b: nat): nat { a * b }

  /** How many of the first n points phase + k * interval lie in the window. */
  function PointsIn(w: Window, phase: nat, interval: nat, n: nat): nat {
    if n == 0 then 0
    else PointsIn(w, phase, interval, n - 1) + if InWindow(w, phase + Times(n - 1, interval)) then 1 else 0
  }

  // The counted sends of a source from time t on.
  function SendsFrom(w: Window, t: nat, interval: nat): nat
    requires interval > 0
    decreases w.end - t
  {
    if t >= w.end then 0
    else (if t >= w.start then 1 else 0) + SendsFrom(w, t + interval, interval)
  }

  lemma {:induction false} FirstPoint(w: Window, phase: nat, interval: nat, n: nat)
    requires n > 0
    ensures PointsIn(w, phase, interval, n) ==
      (if InWindow(w, phase) then 1 else 0) + PointsIn(w, phase + interval, interval, n - 1)
  {
    if n == 1 {
      assert Times(0, interval) == 0;
    } else {
      FirstPoint(w, phase, interval, n - 1);
      assert Times(n - 1, interval) == Times(n - 2, interval) + interval;
    }
  }

  lemma {:induction false} NoPoints(w: Window, phase: nat, interval: nat, n: nat)
    requires phase >= w.end
    ensures PointsIn(w, phase, interval, n) == 0
  {
    if n > 0 {
      NoPoints(w, phase, interval, n - 1);
    }
  }

  /** A source's counted sends are the points of its schedule inside the window, however many further
      points are looked at beyond the window's end. */
  lemma {:induction false} SendsArePoints(w: Window, phase: nat, interval: nat, n: nat)
    requires interval > 0 && phase + Times(n, interval) >= w.end
    ensures SendsFrom(w, phase, interval) == PointsIn(w, phase, interval, n)
    decreases n
  {
    assert Times(0, interval) == 0;
    if phase >= w.end {
      NoPoints(w, phase, interval, n);
    } else {
      FirstPoint(w, phase, interval, n);
      assert Times(n, interval) == Times(n - 1, interval) + interval;
      SendsArePoints(w, phase + interval, interval, n - 1);
    }
  }

  function Sum(ns: seq<nat>): nat {
    if ns == [] then 0 else ns[0] + Sum(ns[1..])
  }

  lemma {:induction false} SumUpdate(ns: seq<nat>, i: nat, v: nat)
    requires i < |ns|
    ensures Sum(ns[i := v]) + ns[i] == Sum(ns) + v
  {
    if i == 0 {
      assert ns[0 := v][1..] == ns[1..];
    } else {
      assert ns[i := v][1..] == ns[1..][i - 1 := v];
      SumUpdate(ns[1..], i - 1, v);
    }
  }

  lemma {:induction false} SumZeros(ns: seq<nat>)
    requires forall i :: 0 <= i < |ns| ==> ns[i] == 0
    ensures Sum(ns) == 0
  {
    if ns != [] {
      SumZeros(ns[1..]);
    }
  }

  // What is left to do: for each scheduled send, the time to the end of the window.
  function Left(w: Window, at: Option<nat>): nat {
    if at.None? then 0 else if at.value >= w.end then 1 else w.end - at.value + 1
  }

  ghost function Work(w: Window, next: seq<Option<nat>>): nat {
    if next == [] then 0 else Left(w, next[0]) + Work(w, next[1..])
  }

  lemma {:induction false} WorkUpdate(w: Window, next: seq<Option<nat>>, i: nat, v: Option<nat>)
    requires i < |next|
    ensures Work(w, next[i := v]) + Left(w, next[i]) == Work(w, next) + Left(w, v)
  {
    if i == 0 {
      assert next[0 := v][1..] == next[1..];
    } else {
      assert next[i := v][1..] == next[1..][i - 1 := v];
      WorkUpdate(w, next[1..], i - 1, v);
    }
  }

  lemma AddMessage(sent: nat, size: nat)
    ensures Wrap(Wrap(Times(sent, size)) + size) == Wrap(Times(sent + 1, size))
    ensures Wrap(Wrap(sent) + 1) == Wrap(sent + 1)
  {
    assert Times(sent + 1, size) == Times(sent, size) + size;
    WrapAdd(Times(sent, size), size);
    WrapAdd(sent, 1);
  }

  lemma WrapAdd(a: nat, b: nat)
    ensures Wrap(Wrap(a) + b) == Wrap(a + b)
  {
    var q := a / Modulus;
    assert a == q * Modulus + Wrap(a);
    ModShift(Wrap(a) + b, q);
  }

  lemma {:induction false} ModShift(n: nat, q: nat)
    ensures (n + q * Modulus) % Modulus == n % Modulus
  {
    if q > 0 {
      ModShift(n, q - 1);
      assert n + q * Modulus == (n + (q - 1) * Modulus) + Modulus;
    }
  }

  // The counted sends of source i so far and those still to come make up all of its points.
  ghost predicate OnSchedule(w: Window, interval: nat, phase: nat, sent: nat, at: Option<nat>)
    requires interval > 0
  {
    sent + (if at.Some? then SendsFrom(w, at.value, interval) else 0) == SendsFrom(w, phase, interval)
  }

  class Traffic {
    const window: Window
    const interval: nat
    const msgBytes: nat
    const phases: seq<nat>
    var next: seq<Option<nat>>     // the scheduled send of each source
    var offeredBytes: nat
    var msgsSent: nat
    ghost var counted: seq<nat>    // counted sends of each source

    ghost predicate Valid()
      reads this
    {
      && interval > 0
      && |next| == |phases| == |counted|
      && msgsSent == Wrap(Sum(counted))
      && offeredBytes == Wrap(Times(Sum(counted), msgBytes))
      && forall i :: 0 <= i < |phases| ==> OnSchedule(window, interval, phases[i], counted[i], next[i])
    }

    constructor (w: Window, every: nat, bytes: nat, starts: seq<nat>)
      requires every > 0
      ensures Valid()
      ensures window == w && interval == every && msgBytes == bytes && phases == starts
    {
      window, interval, msgBytes, phases := w, every, bytes, starts;
      next := seq(|starts|, i requires 0 <= i < |starts| => Some(starts[i]));
      offeredBytes, msgsSent := 0, 0;
      counted := seq(|starts|, i => 0);
      new;
      SumZeros(counted);
    }

    /** RandTrafficSend for source i at its scheduled time. */
    method Send(i: nat)
      requires Valid() && i < |next| && next[i].Some?
      modifies this
      ensures Valid()
      ensures Work(window, next) < old(Work(window, next))
    {
      var now := next[i].value;
      assert OnSchedule(window, interval, phases[i], counted[i], next[i]);
      WorkUpdate(window, next, i, None);
      WorkUpdate(window, next, i, Some(now + interval));
      if now >= window.end {
        next := next[i := None];
        return;
      }
      if now >= window.start {
        AddMessage(Sum(counted), msgBytes);
        SumUpdate(counted, i, counted[i] + 1);
        offeredBytes := Wrap(offeredBytes + msgBytes);
        msgsSent := Wrap(msgsSent + 1);
        counted := counted[i := counted[i] + 1];
      }
      next := next[i := Some(now + interval)];
    }

    /** The event loop, in any order of the sources: it ends, each source has counted exactly the
        points of its schedule in the window, and the offered bytes are the messages times their
        size. */
    method Run()
      requires Valid()
      modifies this
      ensures Valid() && forall i :: 0 <= i < |next| ==> next[i] == None
      ensures forall i :: 0 <= i < |phases| ==> counted[i] == SendsFrom(window, phases[i], interval)
      ensures msgsSent == Wrap(Sum(counted)) && offeredBytes == Wrap(Times(Sum(counted), msgBytes))
    {
      while exists i :: 0 <= i < |next| && next[i].Some?
        invariant Valid()
        decreases Work(window, next)
      {
        var i :| 0 <= i < |next| && next[i].Some?;
        Send(i);
      }
      forall i | 0 <= i < |phases| ensures counted[i] == SendsFrom(window, phases[i], interval) {
        assert OnSchedule(window, interval, phases[i], counted[i], next[i]);
      }
    }
  }
}
