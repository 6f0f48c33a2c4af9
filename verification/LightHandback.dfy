/**
 Handing a pad back to its automatic lights is final: through the staged frames,
 the gate and the pad's connection, no lights command follows "S 1".
 */
module LightHandback {
  import opened Bytes
  import opened LightQueue
  import opened CommandQueue
  import opened Pipeline
  import opened Conservation
  import opened WireOrder
  import opened LightRelease
  import opened LightSystem
  import opened LightDelivery

  // ─── A connection that never carries lights ───────────────────────────────

  predicate NoLightsEver(jobs: seq<Job>, queued: seq<Request>) {
    forall i :: 0 <= i < |jobs| ==> !JobIsLights(jobs[i], queued)
  }

  predicate CarriesNoLights(s: State) {
    CountLights(Line(s.desk)) == 0 && NoLightsEver(s.link.handed, s.desk.ledger.queued)
  }

  ghost predicate Quiet(s: State) {
    WireInv(s) && CarriesNoLights(s)
  }

  lemma NoneSent(jobs: seq<Job>, job: Job, queued: seq<Request>)
    requires NoLightsEver(jobs, queued) && !JobIsLights(job, queued)
    ensures NoLightsEver(jobs + [job], queued)
  {
  }

  lemma HandOverCarriesNone(s: State)
    requires Quiet(s) && s.desk.pc.HandOff? && ChannelOpen(s.link)
    ensures CarriesNoLights(MainStep(s))
  {
    var c := s.desk.pc.command;
    HeldMatches(s);
    assert !c.isLights;
    NoneSent(s.link.handed, Job(c.id, c.packets), s.desk.ledger.queued);
  }

  lemma StillNoLights(jobs: seq<Job>, queued: seq<Request>, later: seq<Request>)
    requires NoLightsEver(jobs, queued) && queued <= later
    requires forall i :: 0 <= i < |jobs| ==> JobOf(jobs[i], queued)
    ensures NoLightsEver(jobs, later)
  {
    forall i | 0 <= i < |jobs|
      ensures !JobIsLights(jobs[i], later)
    {
      assert JobOf(jobs[i], queued) && !JobIsLights(jobs[i], queued);
    }
  }

  lemma {:induction false} OtherCarriesNone(s: State, step: Step)
    requires Quiet(s) && !QueuesLights(step)
    requires !(step.Main? && s.desk.pc.HandOff? && ChannelOpen(s.link))
    ensures CarriesNoLights(Apply(s, step))
  {
    LedgerGrows(s, step);
    OnlyLightsRequestsAdd(s, step);
    SameHanded(s, step);
    StillNoLights(s.link.handed, s.desk.ledger.queued, Apply(s, step).desk.ledger.queued);
  }

  lemma {:induction false} QuietStep(s: State, step: Step)
    requires Quiet(s) && !QueuesLights(step)
    ensures Quiet(Apply(s, step))
  {
    WireStep(s, step);
    if step.Main? && s.desk.pc.HandOff? && ChannelOpen(s.link) {
      HandOverCarriesNone(s);
    } else {
      OtherCarriesNone(s, step);
    }
  }

  // ─── The manager after a hand-back ────────────────────────────────────────

  /** Nothing staged would reach the pad. */
  predicate PadSilent(q: Stage, pad: Pad) {
    forall i :: 0 <= i < |q.entries| ==> q.entries[i].body.At(pad) == []
  }

  /** Request `k` hands the pad back, and no lights job follows it. */
  ghost predicate Final(s: State, k: nat) {
    Released(s, k) && s.desk.ledger.queued[k] == PlainRequest(AUTO_LIGHTS_ON, false)
  }

  lemma {:induction false} FinalStep(s: State, step: Step, k: nat)
    requires Final(s, k) && !QueuesLights(step)
    ensures Final(Apply(s, step), k)
  {
    LedgerGrows(s, step);
    ReleasedStep(s, step, k);
  }

  /** The connection handed back at request `k`, or a later one, which carries no lights. */
  ghost predicate Calm(slot: Option<State>, same: bool, k: nat) {
    slot.Some? ==> if same then Final(slot.value, k) else Quiet(slot.value)
  }

  lemma {:induction false} CalmStep(s: State, step: Step, same: bool, k: nat)
    requires Calm(Some(s), same, k) && !QueuesLights(step)
    ensures Calm(Some(Apply(s, step)), same, k)
  {
    if same {
      FinalStep(s, step, k);
    } else {
      QuietStep(s, step);
    }
  }

  /** Steps that neither select the pad for a frame nor swap the slots. */
  predicate LeavesPadAlone(step: ManagerStep, pad: Pad) {
    && !step.SwapSlots?
    && (step.SetLights? ==> !step.pads.At(pad))
  }

  lemma DeselectedStaysSilent(q: Stage, lightData: seq<byte>, pads: Pair<bool>, v: Pair<Option<byte>>,
                              testMode: bool, now: nat, pad: Pad)
    requires PadSilent(q, pad) && !pads.At(pad)
    ensures PadSilent(LightsSet(q, lightData, pads, v, testMode, now), pad)
  {
    if !testMode && FrameData(lightData) {
      var call := MakeCall(lightData, pads);
      var r := LightsSet(q, lightData, pads, v, testMode, now);
      forall i | 0 <= i < |r.entries|
        ensures r.entries[i].body.At(pad) == []
      {
        if i < |q.entries| && |q.entries| >= 3 {
          assert r.entries[i] in [q.entries[i], Rewritten(q.entries[i], call, |q.calls|, v)];
        }
      }
    }
  }

  lemma {:induction false} SilentHandOver(m: Manager, n: nat, pad: Pad)
    requires n <= |m.stage.entries| && PadSilent(m.stage, pad)
    ensures HandOverFirst(m, n).slots.At(pad) == m.slots.At(pad)
  {
    if n > 0 {
      SilentHandOver(m, n - 1, pad);
    }
  }

  lemma ReenableCalm(m: Manager, on: Pad, pad: Pad, same: bool, k: nat)
    requires Calm(m.slots.At(pad), same, k)
    ensures Calm(AutoLightsReenabled(m, on).slots.At(pad), same, k)
  {
    if on == pad && m.slots.At(pad).Some? {
      var s := m.slots.At(pad).value;
      CalmStep(s, DropLights, same, k);
      CalmStep(Apply(s, DropLights), Queue(PlainRequest(AUTO_LIGHTS_ON, false), false), same, k);
    }
  }

  lemma OpenedQuiet(now: nat)
    ensures Quiet(OPENED.(now := now))
  {
    OpenedSlot(now);
  }

  /** Connections are numbered upwards, and handing over or staging renumbers none. */
  lemma {:induction false} HandOverKeepsConns(m: Manager, n: nat)
    requires n <= |m.stage.entries|
    ensures HandOverFirst(m, n).conns == m.conns && HandOverFirst(m, n).connected == m.connected
  {
    if n > 0 {
      HandOverKeepsConns(m, n - 1);
    }
  }

  lemma NumbersKept(m: Manager, step: ManagerStep)
    ensures m.connected <= Operated(m, step).connected
    ensures !step.Connect? && !step.SwapSlots? ==> Operated(m, step).conns == m.conns
  {
    if step.SendLights? && !Gated(m) {
      HandOverKeepsConns(m, DueCount(m.stage.entries, m.now));
    }
  }

  /** The slot still has connection `conn`, the one handed back. */
  predicate Same(m: Manager, pad: Pad, conn: Option<nat>) {
    conn == Some(m.conns.At(pad))
  }

  /** `conn` is the connection handed back, if there was one; no later one has its number. */
  ghost predicate HandedBack(m: Manager, pad: Pad, conn: Option<nat>, k: nat) {
    && PadSilent(m.stage, pad)
    && (conn.Some? ==> conn.value < m.connected)
    && Calm(m.slots.At(pad), Same(m, pad, conn), k)
  }

  /** A new connection has a number of its own. */
  lemma ConnectCalm(m: Manager, on: Pad, pad: Pad, conn: Option<nat>, k: nat)
    requires HandedBack(m, pad, conn, k)
    ensures var t := Operated(m, Connect(on)); Calm(t.slots.At(pad), Same(t, pad, conn), k)
  {
    if m.slots.At(on).None? && on == pad {
      OpenedQuiet(m.now);
    }
  }

  lemma SlotsHandedBack(m: Manager, step: ManagerStep, pad: Pad, conn: Option<nat>, k: nat)
    requires HandedBack(m, pad, conn, k) && LeavesPadAlone(step, pad)
    ensures var t := Operated(m, step); Calm(t.slots.At(pad), Same(t, pad, conn), k)
  {
    NumbersKept(m, step);
    match step {
      case SendLights =>
        if !Gated(m) {
          SilentHandOver(m, DueCount(m.stage.entries, m.now), pad);
        }
      case ReenableAutoLights(on) => ReenableCalm(m, on, pad, Same(m, pad, conn), k);
      case Connect(on) => ConnectCalm(m, on, pad, conn, k);
      case _ =>
    }
  }

  lemma StageStaysSilent(m: Manager, step: ManagerStep, pad: Pad)
    requires PadSilent(m.stage, pad) && LeavesPadAlone(step, pad)
    ensures PadSilent(Operated(m, step).stage, pad)
  {
    match step {
      case SetLights(lightData, pads) =>
        DeselectedStaysSilent(m.stage, lightData, pads, KnownVersions(m), m.testMode, m.now, pad);
      case _ =>
    }
  }

  lemma {:induction false} PadCalm(slot: Option<State>, s: Step, same: bool, k: nat)
    requires Calm(slot, same, k) && !QueuesLights(s) && slot.Some?
    ensures Calm(Some(Apply(slot.value, s)), same, k)
  {
    CalmStep(slot.value, s, same, k);
  }

  lemma PadStepHandedBack(m: Manager, on: Pad, s: Step, pad: Pad, conn: Option<nat>, k: nat)
    requires HandedBack(m, pad, conn, k) && PadMay(s)
    ensures HandedBack(OnSlot(m, on, s), pad, conn, k)
  {
    if on == pad && m.slots.At(pad).Some? {
      PadCalm(m.slots.At(pad), s, Same(m, pad, conn), k);
    }
  }

  lemma WaitHandedBack(m: Manager, elapsed: nat, pad: Pad, conn: Option<nat>, k: nat)
    requires HandedBack(m, pad, conn, k)
    ensures HandedBack(Managed(m, Wait(elapsed)), pad, conn, k)
  {
    if m.slots.At(pad).Some? {
      PadCalm(m.slots.At(pad), Tick(elapsed), Same(m, pad, conn), k);
    }
  }

  lemma OperatedHandedBack(m: Manager, step: ManagerStep, pad: Pad, conn: Option<nat>, k: nat)
    requires HandedBack(m, pad, conn, k) && LeavesPadAlone(step, pad)
    ensures HandedBack(Operated(m, step), pad, conn, k)
  {
    SlotsHandedBack(m, step, pad, conn, k);
    StageStaysSilent(m, step, pad);
    NumbersKept(m, step);
  }

  lemma HandedBackStep(m: Manager, step: ManagerStep, pad: Pad, conn: Option<nat>, k: nat)
    requires HandedBack(m, pad, conn, k) && LeavesPadAlone(step, pad)
    ensures HandedBack(Managed(m, step), pad, conn, k)
  {
    match step {
      case PadStep(on, s) =>
        if PadMay(s) {
          PadStepHandedBack(m, on, s, pad, conn, k);
        }
      case Wait(elapsed) => WaitHandedBack(m, elapsed, pad, conn, k);
      case _ => OperatedHandedBack(m, step, pad, conn, k);
    }
  }

  lemma {:induction false} HandedBackRun(m: Manager, after: seq<ManagerStep>, pad: Pad, conn: Option<nat>, k: nat)
    requires HandedBack(m, pad, conn, k)
    requires forall i :: 0 <= i < |after| ==> LeavesPadAlone(after[i], pad)
    ensures HandedBack(ManagedRun(m, after), pad, conn, k)
  {
    if after != [] {
      HandedBackRun(m, after[..|after| - 1], pad, conn, k);
      HandedBackStep(ManagedRun(m, after[..|after| - 1]), after[|after| - 1], pad, conn, k);
    }
  }

  /** The hand-back itself, with the number `k` that "S 1" gets. */
  lemma HandBackStarts(m: Manager, pad: Pad, conn: Option<nat>, k: nat)
    requires Locked(m) && BacklogInv(m, MAX_BACKLOG)
    requires conn == if m.slots.At(pad).Some? then Some(m.conns.At(pad)) else None
    requires conn.Some? ==> conn.value < m.connected && k == |m.slots.At(pad).value.desk.ledger.queued|
    ensures HandedBack(Managed(m, ReenableAutoLights(pad)), pad, conn, k)
  {
    if m.slots.At(pad).Some? {
      var s := m.slots.At(pad).value;
      assert s.desk.pc.Idle?;
      ReleaseStarts(s, AUTO_LIGHTS_ON);
    }
  }

  /** On the connection handed back no lights job follows "S 1", its request `k`. */
  predicate LightsEndAt(s: State, k: nat) {
    && k < |s.desk.ledger.queued|
    && s.desk.ledger.queued[k] == PlainRequest([0x53, 0x20, 0x31, 0x0A], false)
    && NoLightsAfter(s.link.handed, s.desk.ledger.queued, k)
  }

  /**
   Handing a pad back is final, whether or not it is connected. In every run that selects
   the pad for no further frame and swaps no slots: on the connection it was handed back on,
   no lights command reaches the writer after "S 1", timeouts and retries included; and every
   later connection in the slot carries no lights at all.
   */
  lemma {:induction false} HandBackIsFinal(before: seq<ManagerStep>, pad: Pad, after: seq<ManagerStep>)
    requires Locked(ManagedRun(STARTED, before))
    requires forall i :: 0 <= i < |after| ==> LeavesPadAlone(after[i], pad)
    ensures var m := ManagedRun(STARTED, before);
      var t := ManagedRun(Managed(m, ReenableAutoLights(pad)), after);
      t.slots.At(pad).Some? ==>
        var s := t.slots.At(pad).value;
        if m.slots.At(pad).Some? && t.conns.At(pad) == m.conns.At(pad)
        then LightsEndAt(s, |m.slots.At(pad).value.desk.ledger.queued|)
        else NoLightsEver(s.link.handed, s.desk.ledger.queued)
  {
    var m := ManagedRun(STARTED, before);
    var conn := if m.slots.At(pad).Some? then Some(m.conns.At(pad)) else None;
    var k := if m.slots.At(pad).Some? then |m.slots.At(pad).value.desk.ledger.queued| else 0;
    BacklogAlways(before);
    DeliversAlways(before);
    HandBackStarts(m, pad, conn, k);
    HandedBackRun(Managed(m, ReenableAutoLights(pad)), after, pad, conn, k);
  }
}
