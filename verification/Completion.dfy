/** When the simulator records that a collective is complete (scratch/gpu-cluster-sim.cc): delivery
    starts a wait for every RDMA model to become quiet, and the last successful report ends it. */
module Completion {

  /** `asked` models have been given a callback so far; `start` is the time delivery began to count. */
  datatype State = State(
    models: nat,
    now: nat,
    waiting: bool,
    completed: bool,
    duration: int,
    delivery: int,
    start: int,
    remaining: int,
    asked: nat,
    reports: map<nat, bool>)

  datatype Event =
    | Advance(dt: nat)
    | Deliver(duration: nat)
    | Ask
    | Report(model: nat, ok: bool)

  function Start(models: nat): State {
    State(models, 0, false, false, 0, 0, 0, 0, 0, map[])
  }

  predicate Enabled(s: State, e: Event) {
    match e
    case Advance(_) => true
    case Deliver(_) => true
    case Ask => s.waiting && s.asked < s.models
    case Report(m, _) => m < s.asked && m !in s.reports
  }

  // OnCollectiveComplete up to its loop.
  function Delivered(s: State, duration: nat): State {
    if s.waiting || s.completed then s
    else if s.models == 0 then s.(delivery := duration, duration := duration, completed := true)
    else s.(delivery := duration, waiting := true, start := s.now - duration, remaining := s.models)
  }

  // The callback a model was given.
  function Reported(s: State, m: nat, ok: bool): State {
    var t := s.(reports := s.reports[m := ok]);
    if !ok then t
    else if t.remaining - 1 == 0 then t.(remaining := 0, duration := t.now - t.start, completed := true)
    else t.(remaining := t.remaining - 1)
  }

  function Next(s: State, e: Event): State
    requires Enabled(s, e)
  {
    match e
    case Advance(dt) => s.(now := s.now + dt)
    case Deliver(d) => Delivered(s, d)
    case Ask => s.(asked := s.asked + 1)
    case Report(m, ok) => Reported(s, m, ok)
  }

  predicate IsRun(s: State, es: seq<Event>)
    decreases |es|
  {
    es == [] || (Enabled(s, es[0]) && IsRun(Next(s, es[0]), es[1..]))
  }

  function After(s: State, es: seq<Event>): State
    requires IsRun(s, es)
    decreases |es|
  {
    if es == [] then s else After(Next(s, es[0]), es[1..])
  }

  // ---- the invariant

  // The models among the first n that have reported success.
  ghost function Successes(reports: map<nat, bool>, n: nat): (c: nat)
    ensures c <= n
  {
    if n == 0 then 0
    else Successes(reports, n - 1) + if n - 1 in reports && reports[n - 1] then 1 else 0
  }

  ghost predicate AllSucceeded(s: State) {
    forall m :: 0 <= m < s.models ==> m in s.reports && s.reports[m]
  }

  ghost predicate Inv(s: State) {
    && s.asked <= s.models
    && (forall m :: m in s.reports ==> m < s.asked)
    && (s.asked > 0 ==> s.waiting)
    && (s.waiting ==> s.models > 0 && s.remaining == s.models - Successes(s.reports, s.models))
    && (s.waiting ==> s.start + s.delivery <= s.now)
    && (s.waiting ==> (s.completed <==> s.remaining == 0))
    && (s.completed && !s.waiting ==> s.models == 0 && s.duration == s.delivery)
    && (s.completed ==> s.duration >= s.delivery)
  }

  lemma {:induction false} SuccessesAdd(reports: map<nat, bool>, m: nat, ok: bool, n: nat)
    requires m !in reports
    ensures Successes(reports[m := ok], n) == Successes(reports, n) + if ok && m < n then 1 else 0
  {
    if n > 0 {
      SuccessesAdd(reports, m, ok, n - 1);
    }
  }

  lemma {:induction false} AllIsEnough(reports: map<nat, bool>, n: nat)
    ensures Successes(reports, n) == n <==> forall m :: 0 <= m < n ==> m in reports && reports[m]
  {
    if n > 0 {
      AllIsEnough(reports, n - 1);
    }
  }

  lemma {:induction false} NoReports(n: nat)
    ensures Successes(map[], n) == 0
  {
    if n > 0 {
      NoReports(n - 1);
    }
  }

  lemma StepKeeps(s: State, e: Event)
    requires Inv(s) && Enabled(s, e)
    ensures Inv(Next(s, e))
  {
    match e
    case Advance(dt) =>
    case Deliver(d) =>
      if s.asked == 0 {
        NoReportsYet(s);
        NoReports(s.models);
      }
    case Ask =>
    case Report(m, ok) => SuccessesAdd(s.reports, m, ok, s.models);
  }

  lemma NoReportsYet(s: State)
    requires Inv(s) && s.asked == 0
    ensures s.reports == map[]
  {
  }

  lemma {:induction false} RunKeeps(s: State, es: seq<Event>)
    requires Inv(s) && IsRun(s, es)
    ensures Inv(After(s, es)) && After(s, es).models == s.models
    decreases |es|
  {
    if es != [] {
      StepKeeps(s, es[0]);
      RunKeeps(Next(s, es[0]), es[1..]);
    }
  }

  // ---- the theorems

  ghost predicate EverDelivered(s: State) { s.waiting || s.completed }

  // Some delivery is among the events.
  ghost predicate DeliveryIn(es: seq<Event>) {
    exists i :: 0 <= i < |es| && es[i].Deliver?
  }

  lemma {:induction false} DeliveryRemembered(s: State, es: seq<Event>)
    requires Inv(s) && IsRun(s, es)
    ensures EverDelivered(After(s, es)) <==> EverDelivered(s) || DeliveryIn(es)
    decreases |es|
  {
    if es != [] {
      StepKeeps(s, es[0]);
      DeliveryRemembered(Next(s, es[0]), es[1..]);
      assert DeliveryIn(es) <==> es[0].Deliver? || DeliveryIn(es[1..]) by {
        if i :| 0 <= i < |es[1..]| && es[1..][i].Deliver? {
          assert es[i + 1].Deliver?;
        }
        if i :| 0 <= i < |es| && es[i].Deliver? {
          assert i > 0 ==> es[1..][i - 1].Deliver?;
        }
      }
    }
  }

  /** For any number of models, any order of their reports (within the loop that asks them or later)
      and any repeated deliveries: completion is recorded exactly when there was a delivery and every
      model reported success, and the duration then covers at least the first delivery. */
  lemma CompletedMeans(models: nat, es: seq<Event>)
    requires IsRun(Start(models), es)
    ensures var s := After(Start(models), es);
      && (s.completed <==> DeliveryIn(es) && AllSucceeded(s))
      && (s.completed ==> s.duration >= s.delivery)
      && s.models == models
  {
    RunKeeps(Start(models), es);
    var s := After(Start(models), es);
    AllIsEnough(s.reports, s.models);
    DeliveryRemembered(Start(models), es);
  }

  predicate Same(s: State, t: State) {
    t.completed && t.duration == s.duration && t.delivery == s.delivery
  }

  lemma StepAfterCompletion(s: State, e: Event)
    requires Inv(s) && Enabled(s, e) && s.completed
    ensures Same(s, Next(s, e))
  {
    AllIsEnough(s.reports, s.models);
  }

  /** Completion is recorded at most once: after it nothing changes the recorded durations. */
  lemma {:induction false} CompletedOnce(s: State, es: seq<Event>)
    requires Inv(s) && IsRun(s, es) && s.completed
    ensures Same(s, After(s, es))
    decreases |es|
  {
    if es != [] {
      StepAfterCompletion(s, es[0]);
      StepKeeps(s, es[0]);
      CompletedOnce(Next(s, es[0]), es[1..]);
    }
  }

  /** Once a model has reported a failure, no continuation records completion. */
  lemma {:induction false} FailureIsFinal(s: State, es: seq<Event>, m: nat)
    requires Inv(s) && IsRun(s, es) && m in s.reports && !s.reports[m]
    ensures !After(s, es).completed
    decreases |es|
  {
    if es == [] {
      AllIsEnough(s.reports, s.models);
    } else {
      StepKeeps(s, es[0]);
      FailureIsFinal(Next(s, es[0]), es[1..], m);
    }
  }

  ghost predicate OthersSucceeded(s: State, model: nat) {
    forall m :: 0 <= m < s.models && m != model ==> m in s.reports && s.reports[m]
  }

  // Which event records completion, and with what duration.
  predicate Records(s: State, e: Event, duration: int) {
    || (e.Deliver? && s.models == 0 && !s.waiting && duration == e.duration)
    || (e.Report? && e.ok && s.waiting && duration == s.now - s.start)
  }

  /** Completion is recorded by the only delivery when there are no models, and otherwise by a
      success that is the last one missing, with the time since delivery began to count. */
  lemma CompletionStep(s: State, e: Event)
    requires Inv(s) && Enabled(s, e) && !s.completed
    ensures Next(s, e).completed ==> Records(s, e, Next(s, e).duration)
    ensures Next(s, e).completed <==>
      || (e.Deliver? && s.models == 0)
      || (e.Report? && e.ok && OthersSucceeded(s, e.model))
    ensures !s.waiting && Next(s, e).waiting ==> e.Deliver? && Next(s, e).start == s.now - e.duration
  {
    if e.Report? && e.ok {
      var r := s.reports[e.model := true];
      SuccessesAdd(s.reports, e.model, true, s.models);
      AllIsEnough(r, s.models);
      OthersMeans(s, e.model, r);
    }
  }

  lemma OthersMeans(s: State, model: nat, r: map<nat, bool>)
    requires r == s.reports[model := true]
    ensures OthersSucceeded(s, model) <==> forall m :: 0 <= m < s.models ==> m in r && r[m]
  {
    if OthersSucceeded(s, model) {
      forall m | 0 <= m < s.models ensures m in r && r[m] {
        assert m != model ==> m in s.reports && s.reports[m];
      }
    }
    if forall m :: 0 <= m < s.models ==> m in r && r[m] {
      forall m | 0 <= m < s.models && m != model ensures m in s.reports && s.reports[m] {
        assert m in r && r[m];
      }
    }
  }

  /** The delivery that counts is the first one. */
  lemma {:induction false} FirstDeliveryCounts(s: State, es: seq<Event>)
    requires Inv(s) && IsRun(s, es) && EverDelivered(s)
    ensures EverDelivered(After(s, es)) && After(s, es).delivery == s.delivery && After(s, es).start == s.start
    decreases |es|
  {
    if es != [] {
      StepKeeps(s, es[0]);
      FirstDeliveryCounts(Next(s, es[0]), es[1..]);
    }
  }

  // ---- the recorded times, over whole runs

  /** The time after the first n events: what the clock has advanced. */
  ghost function TimeAt(es: seq<Event>, n: nat): nat
    requires n <= |es|
  {
    if n == 0 then 0 else TimeAt(es, n - 1) + if es[n - 1].Advance? then es[n - 1].dt else 0
  }

  lemma {:induction false} TimeShift(es: seq<Event>, n: nat)
    requires 0 < n <= |es|
    ensures TimeAt(es, n) == (if es[0].Advance? then es[0].dt else 0) + TimeAt(es[1..], n - 1)
  {
    if n > 1 {
      TimeShift(es, n - 1);
      assert es[1..][n - 2] == es[n - 1];
    } else {
      assert TimeAt(es, 0) == 0;
    }
  }

  lemma {:induction false} ClockIs(s: State, es: seq<Event>)
    requires IsRun(s, es)
    ensures After(s, es).now == s.now + TimeAt(es, |es|)
    decreases |es|
  {
    if es != [] {
      ClockIs(Next(s, es[0]), es[1..]);
      TimeShift(es, |es|);
    }
  }

  // Event i is the first delivery.
  ghost predicate FirstDelivery(es: seq<Event>, i: nat) {
    i < |es| && es[i].Deliver? && forall j :: 0 <= j < i ==> !es[j].Deliver?
  }

  /** The recorded delivery duration is that of the first delivery, and time counts from that much
      before the delivery came. */
  lemma {:induction false} DeliveryRecorded(s: State, es: seq<Event>, i: nat)
    requires Inv(s) && IsRun(s, es) && !EverDelivered(s) && FirstDelivery(es, i)
    ensures var t := After(s, es);
      && t.delivery == es[i].duration
      && (s.models > 0 ==> t.start == s.now + TimeAt(es, i) - es[i].duration)
      && (s.models == 0 ==> t.completed && t.duration == es[i].duration)
    decreases |es|
  {
    var s1 := Next(s, es[0]);
    StepKeeps(s, es[0]);
    if i == 0 {
      FirstDeliveryCounts(s1, es[1..]);
      RunKeeps(s1, es[1..]);
      if s.models == 0 {
        CompletedOnce(s1, es[1..]);
      }
    } else {
      assert FirstDelivery(es[1..], i - 1) by {
        assert es[1..][i - 1] == es[i];
        forall j | 0 <= j < i - 1 ensures !es[1..][j].Deliver? {
          assert es[1..][j] == es[j + 1];
        }
      }
      NotYet(s, es[0]);
      DeliveryRecorded(s1, es[1..], i - 1);
      TimeShift(es, i);
    }
  }

  lemma NotYet(s: State, e: Event)
    requires Inv(s) && Enabled(s, e) && !EverDelivered(s) && !e.Deliver?
    ensures !EverDelivered(Next(s, e)) && Next(s, e).models == s.models
  {
  }

  // Event j is the success that completes the run of the first j events.
  ghost predicate CompletesAt(s: State, es: seq<Event>, j: nat)
    requires IsRun(s, es)
    decreases |es|
  {
    j < |es|
    && (if j == 0 then !s.completed && es[0].Report? && es[0].ok && Next(s, es[0]).completed
        else CompletesAt(Next(s, es[0]), es[1..], j - 1))
  }

  lemma {:induction false} DurationRecorded(s: State, es: seq<Event>) returns (j: nat)
    requires Inv(s) && IsRun(s, es) && s.models > 0 && !s.completed && After(s, es).completed
    ensures CompletesAt(s, es, j) && j < |es|
    ensures After(s, es).duration == s.now + TimeAt(es, j) - After(s, es).start
    decreases |es|
  {
    var s1 := Next(s, es[0]);
    StepKeeps(s, es[0]);
    if s1.completed {
      j := 0;
      CompletionStep(s, es[0]);
      CompletedOnce(s1, es[1..]);
      FirstDeliveryCounts(s1, es[1..]);
      assert s1.start == s.start;
    } else {
      j := DurationRecorded(s1, es[1..]);
      j := j + 1;
      TimeShift(es, j);
    }
  }

  /** With models, the duration of a completed run is the time from the first delivery's own beginning
      to the last missing success. */
  lemma CompletedAfter(models: nat, es: seq<Event>, i: nat) returns (j: nat)
    requires models > 0 && IsRun(Start(models), es) && FirstDelivery(es, i) && After(Start(models), es).completed
    ensures CompletesAt(Start(models), es, j) && j < |es|
    ensures After(Start(models), es).delivery == es[i].duration
    ensures After(Start(models), es).duration == TimeAt(es, j) - (TimeAt(es, i) - es[i].duration)
  {
    DeliveryRecorded(Start(models), es, i);
    j := DurationRecorded(Start(models), es);
  }

  // ---- the code

  datatype Reply = Later | Now(ok: bool)

  // The loop over the models, the k-th of which answers within the call or later.
  function AskFrom(s: State, replies: seq<Reply>, k: nat): State
    requires k <= |replies|
    decreases |replies| - k
  {
    if k == |replies| then s
    else
      var t := s.(asked := s.asked + 1);
      AskFrom(if replies[k].Now? then Reported(t, k, replies[k].ok) else t, replies, k + 1)
  }

  function Called(s: State, duration: nat, replies: seq<Reply>): State {
    if s.waiting || s.completed || s.models == 0 then Delivered(s, duration)
    else AskFrom(Delivered(s, duration), replies, 0)
  }

  /** A call is a run of the protocol: one delivery, then each model asked in turn. */
  lemma {:induction false} AskIsRun(s: State, replies: seq<Reply>, k: nat) returns (es: seq<Event>)
    requires Inv(s) && s.waiting && s.asked == k <= |replies| == s.models && (forall m :: m in s.reports ==> m < k)
    ensures IsRun(s, es) && After(s, es) == AskFrom(s, replies, k)
    decreases |replies| - k
  {
    if k == |replies| {
      es := [];
    } else {
      var t := Next(s, Ask);
      StepKeeps(s, Ask);
      if replies[k].Now? {
        var e := Report(k, replies[k].ok);
        StepKeeps(t, e);
        var rest := AskIsRun(Next(t, e), replies, k + 1);
        es := [Ask, e] + rest;
        assert es[1..] == [e] + rest && es[1..][1..] == rest;
      } else {
        var rest := AskIsRun(t, replies, k + 1);
        es := [Ask] + rest;
        assert es[1..] == rest;
      }
    }
  }

  lemma CallIsRun(s: State, duration: nat, replies: seq<Reply>) returns (es: seq<Event>)
    requires Inv(s) && |replies| == s.models
    ensures IsRun(s, es) && After(s, es) == Called(s, duration, replies)
  {
    var t := Next(s, Deliver(duration));
    if s.waiting || s.completed || s.models == 0 {
      es := [Deliver(duration)];
      assert es[1..] == [];
    } else {
      StepKeeps(s, Deliver(duration));
      var rest := AskIsRun(t, replies, 0);
      es := [Deliver(duration)] + rest;
      assert es[1..] == rest;
    }
  }

  class Driver {
    const rdmaModels: nat
    var now: nat
    var waitingRdma: bool
    var collectiveCompleted: bool
    var durationNs: int
    var deliveryDurationNs: int
    var start: int
    var remaining: int
    var asked: nat
    var reports: map<nat, bool>

    function Snapshot(): State
      reads this
    {
      State(rdmaModels, now, waitingRdma, collectiveCompleted, durationNs, deliveryDurationNs, start, remaining, asked, reports)
    }

    constructor (models: nat)
      ensures Snapshot() == Start(models) && Inv(Snapshot())
    {
      rdmaModels := models;
      now, waitingRdma, collectiveCompleted := 0, false, false;
      durationNs, deliveryDurationNs, start, remaining := 0, 0, 0, 0;
      asked, reports := 0, map[];
    }

    /** OnCollectiveComplete; each model's Quiet may call back at once. */
    method OnCollectiveComplete(duration: nat, replies: seq<Reply>)
      requires Inv(Snapshot()) && |replies| == rdmaModels
      modifies this
      ensures Snapshot() == Called(old(Snapshot()), duration, replies)
      ensures Inv(Snapshot())
    {
      ghost var before := Snapshot();
      ghost var es := CallIsRun(before, duration, replies);
      RunKeeps(before, es);
      if waitingRdma || collectiveCompleted {
        return;
      }
      deliveryDurationNs := duration;
      if rdmaModels == 0 {
        durationNs := duration;
        collectiveCompleted := true;
        return;
      }
      waitingRdma := true;
      start := now - duration;
      remaining := rdmaModels;
      var k := 0;
      while k < rdmaModels
        invariant 0 <= k <= rdmaModels
        invariant AskFrom(Snapshot(), replies, k) == Called(before, duration, replies)
      {
        asked := asked + 1;
        if replies[k].Now? {
          Quiet(k, replies[k].ok);
        }
        k := k + 1;
      }
    }

    /** The callback given to a model. */
    method Quiet(model: nat, ok: bool)
      modifies this
      ensures Snapshot() == Reported(old(Snapshot()), model, ok)
    {
      reports := reports[model := ok];
      if !ok {
        return;
      }
      remaining := remaining - 1;
      if remaining == 0 {
        durationNs := now - start;
        collectiveCompleted := true;
      }
    }
  }
}
