/**
 From the caller's bytes to a pad's connection, in every run: each lights job carries one
 part of one pad's half of the data of one call that selected that pad.
 */
module LightsShown {
  import opened Bytes
  import opened Protocol
  import opened LightCodec
  import opened LightQueue
  import opened Pipeline
  import opened LightRelease
  import opened LightSystem
  import opened LightDelivery
  import opened LightData

  /** The step sets the lights to a whole frame. */
  predicate SetsFrame(step: ManagerStep) {
    step.SetLights? && IsFrame(step.lightData)
  }

  /** Sending and releasing make no new calls. */
  lemma {:induction false} HandOverKeepsStage(m: Manager, n: nat)
    requires n <= |m.stage.entries|
    ensures HandOverFirst(m, n).stage == m.stage
  {
    if n > 0 {
      HandOverKeepsStage(m, n - 1);
    }
  }

  lemma CallsStep(m: Manager, step: ManagerStep)
    ensures var calls := Managed(m, step).stage.calls;
      calls == m.stage.calls
      || (SetsFrame(step) && calls == m.stage.calls + [MakeCall(step.lightData, step.pads)])
  {
    if step.SendLights? && !Gated(m) {
      HandOverKeepsStage(m, DueCount(m.stage.entries, m.now));
    }
  }

  /** Every call recorded is a step of the run. */
  lemma {:induction false} CallIsStep(steps: seq<ManagerStep>, k: nat) returns (n: nat)
    requires k < |ManagedRun(LightSystem.STARTED, steps).stage.calls|
    ensures n < |steps| && SetsFrame(steps[n])
    ensures ManagedRun(LightSystem.STARTED, steps).stage.calls[k] == MakeCall(steps[n].lightData, steps[n].pads)
  {
    var before := ManagedRun(LightSystem.STARTED, steps[..|steps| - 1]);
    CallsStep(before, steps[|steps| - 1]);
    if k < |before.stage.calls| {
      n := CallIsStep(steps[..|steps| - 1], k);
    } else {
      n := |steps| - 1;
    }
  }

  /** What the command says is the pad's part of what the step sets, and the step selects the pad. */
  predicate SaysHalf(h: HandOver, step: ManagerStep) {
    SetsFrame(step) && step.pads.At(h.pad) && IsPart(h.body, step.lightData, h.pad, h.part)
  }

  lemma CallSaysHalf(h: HandOver, calls: seq<Call>, step: ManagerStep)
    requires LoggedFromCall(h, calls) && SetsFrame(step)
    requires h.call < |calls| && calls[h.call] == MakeCall(step.lightData, step.pads)
    ensures SaysHalf(h, step)
  {
    assert calls[h.call].data.At(h.pad) == Half(step.lightData, h.pad);
    PartOfHalf(step.lightData, h.pad, h.part);
  }

  /**
   In every run: a lights job of the connection now in a slot carries the fragments of a command
   that the scheduler handed to it for a pad; that command is a part of the pad's half of the
   data of one step that set the lights and selected that pad.
   */
  lemma JobsShowTheData(steps: seq<ManagerStep>, pad: Pad, i: nat) returns (a: nat, n: nat)
    requires ManagedRun(LightSystem.STARTED, steps).slots.At(pad).Some?
    requires var s := ManagedRun(LightSystem.STARTED, steps).slots.At(pad).value;
      i < |s.link.handed| && JobIsLights(s.link.handed[i], s.desk.ledger.queued)
    ensures var m := ManagedRun(LightSystem.STARTED, steps);
      var s, log := m.slots.At(pad).value, LogOf(m.log, m.conns.At(pad));
      && a < |log| && n < |steps| && SaysHalf(log[a], steps[n])
      && s.link.handed[i].packets == Fragments(log[a].body)
  {
    var m := ManagedRun(LightSystem.STARTED, steps);
    var b;
    a, b := LightsReachThePad(steps, pad, i, i);
    var h := LogOf(m.log, m.conns.At(pad))[a];
    assert LoggedFromCall(h, m.stage.calls);
    n := CallIsStep(steps, h.call);
    CallSaysHalf(h, m.stage.calls, steps[n]);
  }
}
