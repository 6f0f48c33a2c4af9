/**
 Where the published sensor samples of a run come from: each one answers the latest
 request, in the mode current at that moment, and no two answer the same request.
 */
module SensorSamples {
  import opened Bytes
  import opened Device
  import opened DevicePacing

  // ─── What replies do ──────────────────────────────────────────────────────

  /** Requests not spent on a sample nor waited for. */
  function Unspent(d: Device): int {
    RequestCount(d.log) - SampleCount(d.events) - if d.waiting != Off then 1 else 0
  }

  predicate IsSample(events: seq<Event>, i: nat) {
    i < |events| && events[i].SensorTestData?
  }

  /** `e` is `d` after some replies: a sample is new only if it was awaited in the current mode. */
  predicate Answers(d: Device, e: Device) {
    && e.log == d.log && e.testMode == d.testMode && e.waiting in {d.waiting, Off}
    && Unspent(d) <= Unspent(e)
    && d.events <= e.events
    && (forall i :: |d.events| <= i < |e.events| && IsSample(e.events, i) ==>
          e.events[i].mode == d.testMode && d.testMode == d.waiting && d.waiting != Off && e.waiting == Off)
  }

  lemma OneReplyAnswers(d: Device, firmware: nat, buf: seq<byte>)
    ensures Answers(d, Received(d, firmware, buf))
  {
    var e := Received(d, firmware, buf);
    if |e.events| > |d.events| {
      EventMore(d.events, e.events[|d.events|]);
    }
  }

  lemma AnswersTwice(a: Device, b: Device, c: Device)
    requires Answers(a, b) && Answers(b, c)
    ensures Answers(a, c)
  {
    forall i | |a.events| <= i < |c.events| && IsSample(c.events, i)
      ensures c.events[i].mode == a.testMode && a.testMode == a.waiting && a.waiting != Off && c.waiting == Off
    {
      assert i < |b.events| ==> IsSample(b.events, i);
    }
  }

  lemma {:induction false} RepliesAnswer(d: Device, firmware: nat, bufs: seq<seq<byte>>)
    ensures Answers(d, AllReceived(d, firmware, bufs))
    decreases |bufs|
  {
    if bufs != [] {
      var e := Received(d, firmware, bufs[0]);
      OneReplyAnswers(d, firmware, bufs[0]);
      RepliesAnswer(e, firmware, bufs[1..]);
      AnswersTwice(d, e, AllReceived(e, firmware, bufs[1..]));
    }
  }

  // ─── What a step does ─────────────────────────────────────────────────────

  /** Issuing commands publishes nothing and takes no request back. */
  predicate OnlyIssues(d: Device, e: Device) {
    && e.events == d.events && e.testMode == d.testMode
    && Unspent(d) <= Unspent(e)
  }

  lemma ActiveOnlyIssues(u: Unit, now: nat)
    ensures OnlyIssues(u.device, ActiveChecked(u, now).device)
  {
    ActiveCheckedCounts(u, now);
  }

  lemma ConfigOnlyIssues(u: Unit, now: nat)
    ensures OnlyIssues(u.device, ConfigSent(u, now).device)
  {
    ConfigSentCounts(u, now);
  }

  lemma SensorsOnlyIssue(u: Unit, now: nat)
    ensures OnlyIssues(u.device, SensorsRequested(u, now).device)
  {
    SensorsRequestedCounts(u, now);
  }

  lemma IssuingOnlyIssues(u: Unit, now: nat)
    ensures OnlyIssues(u.device, Issuing(u, now).device)
  {
    var v := ActiveChecked(u, now);
    var x := ConfigSent(v, now);
    ActiveOnlyIssues(u, now);
    ConfigOnlyIssues(v, now);
    SensorsOnlyIssue(x, now);
  }

  /** The new samples of a step are in the current mode, which is that of the latest request. */
  predicate NewInMode(d: Device, e: Device) {
    forall i :: |d.events| <= i < |e.events| && IsSample(e.events, i) ==>
      e.events[i].mode == e.testMode && e.testMode == LatestMode(e.log)
  }

  predicate NewSample(d: Device, e: Device) {
    exists i :: |d.events| <= i < |e.events| && IsSample(e.events, i)
  }

  predicate StepAnswers(d: Device, e: Device) {
    && d.events <= e.events && NewInMode(d, e)
    && Unspent(d) <= Unspent(e) && SampleCount(e.events) <= SampleCount(d.events) + 1
    && (NewSample(d, e) ==> e.waiting == Off)
  }

  lemma IssuedThenAnswered(d: Device, x: Device, e: Device, now: nat)
    requires OnlyIssues(d, x) && Answers(x, e) && RequestsPaced(x, now)
    ensures StepAnswers(d, e)
  {
  }

  lemma PassAnswers(u: Unit, io: Io, now: nat)
    requires WritesPaced(u.device) && RequestsPaced(u.device, now)
    ensures StepAnswers(u.device, Updated(u, io, now).device)
  {
    if u.conn.handle.gotInfo {
      IssuingPaced(u, now);
      IssuingOnlyIssues(u, now);
      var x := Issuing(u, now);
      var w := IoDone(x, io, now);
      RepliesAnswer(w.device, Firmware(w), w.conn.handle.readBuffers);
      IssuedThenAnswered(u.device, x.device, Updated(u, io, now).device, now);
    }
  }

  lemma WorldPassAnswers(w: World, io: Io)
    requires Paced(w)
    ensures StepAnswers(w.device, Stepped(w, Pass(io)).device)
  {
    if w.conn.Some? {
      PassAnswers(Unit(w.device, w.conn.value), io, w.now);
    }
  }

  /** A device with the same requests and at most a loss of its connection more to tell. */
  lemma OthersAnswerNothing(d: Device, e: Device)
    requires e.log == d.log && e.waiting == d.waiting
    requires e.events == d.events || e.events == d.events + [Disconnected]
    ensures StepAnswers(d, e) && !NewSample(d, e)
  {
    if e.events != d.events {
      EventMore(d.events, Disconnected);
      assert forall i :: |d.events| <= i < |e.events| ==> e.events[i] == Disconnected;
    }
    assert !NewSample(d, e);
    assert Unspent(d) == Unspent(e);
  }

  lemma WorldStepAnswers(w: World, step: DeviceStep)
    requires Paced(w)
    ensures StepAnswers(w.device, Stepped(w, step).device)
    ensures NewSample(w.device, Stepped(w, step).device) ==> step.Pass?
  {
    if step.Pass? {
      WorldPassAnswers(w, step.io);
    } else {
      OthersAnswerNothing(w.device, Stepped(w, step).device);
    }
  }

  // ─── Runs ─────────────────────────────────────────────────────────────────

  /** The device after the first `n` steps. */
  function DeviceAt(steps: seq<DeviceStep>, n: nat): Device
    requires n <= |steps|
  {
    DeviceRun(steps[..n]).device
  }

  /** Step `n` emits event `e` of the run. */
  predicate EmittedBy(steps: seq<DeviceStep>, n: nat, e: nat) {
    && n < |steps|
    && |DeviceAt(steps, n).events| <= e < |DeviceAt(steps, n + 1).events|
  }

  lemma NextStepAnswers(steps: seq<DeviceStep>, n: nat)
    requires n < |steps|
    ensures StepAnswers(DeviceAt(steps, n), DeviceAt(steps, n + 1))
    ensures NewSample(DeviceAt(steps, n), DeviceAt(steps, n + 1)) ==> steps[n].Pass?
  {
    assert steps[..n + 1][..n] == steps[..n];
    PacedAlways(steps[..n]);
    WorldStepAnswers(DeviceRun(steps[..n]), steps[n]);
  }

  /** Events stay, and requests are spent on at most one sample each. */
  lemma {:induction false} LaterDevice(steps: seq<DeviceStep>, m: nat, n: nat)
    requires m <= n <= |steps|
    ensures DeviceAt(steps, m).events <= DeviceAt(steps, n).events
    ensures Unspent(DeviceAt(steps, m)) <= Unspent(DeviceAt(steps, n))
    decreases n
  {
    if m < n {
      LaterDevice(steps, m, n - 1);
      NextStepAnswers(steps, n - 1);
    }
  }

  lemma {:induction false} SampleCountGrows(a: seq<Event>, b: seq<Event>)
    requires a <= b
    ensures SampleCount(a) <= SampleCount(b)
    ensures (exists i :: |a| <= i < |b| && IsSample(b, i)) ==> SampleCount(a) < SampleCount(b)
    decreases |b|
  {
    if |a| < |b| {
      var c := b[..|b| - 1];
      SampleCountGrows(a, c);
      if i :| |a| <= i < |b| && IsSample(b, i) {
        assert i < |c| ==> IsSample(c, i);
      }
    } else {
      assert a == b;
    }
  }

  lemma {:induction false} SomeStepEmits(steps: seq<DeviceStep>, e: nat, k: nat) returns (n: nat)
    requires k <= |steps| && e < |DeviceAt(steps, k).events|
    ensures n < k && EmittedBy(steps, n, e)
    decreases k
  {
    assert steps[..0] == [];
    if e < |DeviceAt(steps, k - 1).events| {
      n := SomeStepEmits(steps, e, k - 1);
    } else {
      n := k - 1;
    }
  }

  /**
   In every run, reconnects and mode changes included, every published sample was published
   by an update, and is in the mode that was then both the device's and the latest request's.
   */
  lemma SampleAnswersLatest(steps: seq<DeviceStep>, e: nat) returns (n: nat)
    requires IsSample(DeviceRun(steps).device.events, e)
    ensures EmittedBy(steps, n, e) && steps[n].Pass?
    ensures var d := DeviceAt(steps, n + 1);
      DeviceRun(steps).device.events[e].mode == d.testMode && d.testMode == LatestMode(d.log)
  {
    assert steps[..|steps|] == steps;
    n := SomeStepEmits(steps, e, |steps|);
    NextStepAnswers(steps, n);
    LaterDevice(steps, n + 1, |steps|);
    assert IsSample(DeviceAt(steps, n + 1).events, e);
  }

  lemma TwoSamples(was: seq<Event>, events: seq<Event>, a: nat, b: nat)
    requires was <= events && |was| <= a < b && IsSample(events, a) && IsSample(events, b)
    ensures SampleCount(was) + 2 <= SampleCount(events)
  {
    SampleCountGrows(was, events[..a + 1]);
    assert IsSample(events[..a + 1], a);
    SampleCountGrows(events[..a + 1], events);
  }

  /** The step of a later event is no earlier. */
  lemma LaterStep(steps: seq<DeviceStep>, m: nat, n: nat, a: nat, b: nat)
    requires EmittedBy(steps, m, a) && EmittedBy(steps, n, b) && a <= b
    ensures m <= n
  {
    if n < m {
      LaterDevice(steps, n + 1, m);
    }
  }

  lemma DifferentSteps(steps: seq<DeviceStep>, a: nat, b: nat, m: nat, n: nat)
    requires a < b && EmittedBy(steps, m, a) && EmittedBy(steps, n, b)
    requires IsSample(DeviceAt(steps, m + 1).events, a) && IsSample(DeviceAt(steps, n + 1).events, b)
    ensures m < n
  {
    LaterStep(steps, m, n, a, b);
    if m == n {
      NextStepAnswers(steps, m);
      TwoSamples(DeviceAt(steps, m).events, DeviceAt(steps, m + 1).events, a, b);
    }
  }

  /** After a sample nothing is awaited, so the next sample takes another request. */
  lemma MoreRequests(d: Device, e: Device, b: nat)
    requires d.waiting == Off && Unspent(d) <= Unspent(e)
    requires d.events <= e.events && |d.events| <= b && IsSample(e.events, b)
    ensures RequestCount(d.log) < RequestCount(e.log)
  {
    SampleCountGrows(d.events, e.events);
  }

  lemma StaysSample(steps: seq<DeviceStep>, n: nat, a: nat)
    requires EmittedBy(steps, n, a) && IsSample(DeviceRun(steps).device.events, a)
    ensures IsSample(DeviceAt(steps, n + 1).events, a)
  {
    assert steps[..|steps|] == steps;
    LaterDevice(steps, n + 1, |steps|);
  }

  /** In every run a new request stands between any two samples, so no two answer the same one. */
  lemma SamplesAnswerDifferentRequests(steps: seq<DeviceStep>, a: nat, b: nat, m: nat, n: nat)
    requires a < b && IsSample(DeviceRun(steps).device.events, a) && IsSample(DeviceRun(steps).device.events, b)
    requires EmittedBy(steps, m, a) && EmittedBy(steps, n, b)
    ensures m < n && RequestCount(DeviceAt(steps, m + 1).log) < RequestCount(DeviceAt(steps, n + 1).log)
  {
    StaysSample(steps, m, a);
    StaysSample(steps, n, b);
    DifferentSteps(steps, a, b, m, n);
    NextStepAnswers(steps, m);
    LaterDevice(steps, m + 1, n + 1);
    LaterDevice(steps, m + 1, n);
    MoreRequests(DeviceAt(steps, m + 1), DeviceAt(steps, n + 1), b);
  }
}
