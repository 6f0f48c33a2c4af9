/**
 The light scheduler composed with the two pads' connections. Every step of either
 connection's threads may happen between two manager operations; a manager
 operation runs under the state lock, so no connection is inside `update` then.
 */
module LightSystem {
  import opened Bytes
  import opened LightCodec
  import opened LightQueue
  import opened CommandQueue
  import opened Pipeline
  import opened Conservation
  import opened WireOrder
  import opened LightRelease

  /** History: one command handed to a connection, `conn` being its place among all connections. */
  datatype HandOver = HandOver(triple: nat, part: Part, pad: Pad, call: nat, body: seq<byte>, conn: nat)

  datatype Manager = Manager(
    stage: Stage,
    slots: Pair<Option<State>>,
    versions: Pair<Option<byte>>,    // master version per pad, once its config is known
    testMode: bool,
    now: nat,
    log: seq<HandOver>,
    conns: Pair<nat>,                // history: which connection is in each slot
    connected: nat)                  // history: connections made so far

  const NO_SLOTS: Pair<Option<State>> := Pair(None, None)
  const NO_VERSIONS: Pair<Option<byte>> := Pair(None, None)
  const STARTED := Manager(EMPTY_STAGE, NO_SLOTS, NO_VERSIONS, false, 0, [], Pair(0, 0), 0)

  const AUTO_LIGHTS_ON: seq<byte> := [0x53, 0x20, 0x31, 0x0A]   // "S 1\n"

  datatype ManagerStep =
    | SetLights(lightData: seq<byte>, pads: Pair<bool>)
    | SendLights
    | ReenableAutoLights(pad: Pad)
    | SetTestMode(on: bool)
    | PadStep(pad: Pad, step: Step)
    | Connect(pad: Pad)
    | Disconnect(pad: Pad)
    | LearnVersion(pad: Pad, version: Option<byte>)
    | SwapSlots
    | Wait(elapsed: nat)

  /** The state lock is free: neither connection is inside `update`. */
  predicate Locked(m: Manager) {
    forall pad: Pad :: m.slots.At(pad).Some? ==> m.slots.At(pad).value.desk.pc.Idle?
  }

  /** A pad's master version counts once its connection has the device info. */
  function KnownVersion(m: Manager, pad: Pad): Option<byte> {
    if m.slots.At(pad).Some? && m.slots.At(pad).value.desk.handle.gotInfo then m.versions.At(pad) else None
  }

  function KnownVersions(m: Manager): Pair<Option<byte>> {
    Pair(KnownVersion(m, 0), KnownVersion(m, 1))
  }

  predicate LightsUnsent(slot: Option<State>) {
    slot.Some? && CountLights(slot.value.desk.handle.pending) > 0
  }

  /** The back-pressure gate: some connection still holds unsent lights. */
  predicate Gated(m: Manager) {
    LightsUnsent(m.slots.first) || LightsUnsent(m.slots.second)
  }

  function OnSlot(m: Manager, pad: Pad, step: Step): Manager {
    if m.slots.At(pad).None? then m
    else m.(slots := m.slots.With(pad, Some(Apply(m.slots.At(pad).value, step))))
  }

  function HandOverPad(m: Manager, e: Entry, pad: Pad): Manager {
    if e.body.At(pad) == [] || m.slots.At(pad).None? then m
    else
      OnSlot(m, pad, Queue(LightsRequest(e.body.At(pad)), false))
        .(log := m.log + [HandOver(e.triple, e.part, pad, e.calls.At(pad), e.body.At(pad), m.conns.At(pad))])
  }

  function HandOverEntry(m: Manager, e: Entry): Manager {
    HandOverPad(HandOverPad(m, e, 0), e, 1)
  }

  /** Hands over the first `n` staged commands, keeping them staged. */
  function HandOverFirst(m: Manager, n: nat): Manager
    requires n <= |m.stage.entries|
  {
    if n == 0 then m else HandOverEntry(HandOverFirst(m, n - 1), m.stage.entries[n - 1])
  }

  /** `send_pending_lights`. */
  function LightsSent(m: Manager): Manager {
    if Gated(m) then m
    else
      var n := DueCount(m.stage.entries, m.now);
      HandOverFirst(m, n).(stage := Drained(m.stage, n))
  }

  /** `reenable_auto_lights_for_pad`. */
  function AutoLightsReenabled(m: Manager, pad: Pad): Manager {
    var muted := m.(stage := PadMuted(m.stage, pad));
    if m.slots.At(pad).None? then muted
    else muted.(slots := m.slots.With(pad, Some(Release(m.slots.At(pad).value, AUTO_LIGHTS_ON))))
  }

  /** Only the manager queues lights, and only disconnecting drops a handle. */
  predicate PadMay(step: Step) {
    !QueuesLights(step) && !step.DropHandle? && !step.Tick?
  }

  function Waited(slot: Option<State>, elapsed: nat): Option<State> {
    if slot.None? then None else Some(Apply(slot.value, Tick(elapsed)))
  }

  /** The manager after `step`; a step that is not possible leaves it as it is. */
  function Managed(m: Manager, step: ManagerStep): Manager {
    match step
    case PadStep(pad, s) => if PadMay(s) then OnSlot(m, pad, s) else m
    case Wait(elapsed) =>
      m.(now := m.now + elapsed, slots := Pair(Waited(m.slots.first, elapsed), Waited(m.slots.second, elapsed)))
    case _ => if Locked(m) then Operated(m, step) else m
  }

  function Operated(m: Manager, step: ManagerStep): Manager {
    match step
    case SetLights(lightData, pads) =>
      m.(stage := LightsSet(m.stage, lightData, pads, KnownVersions(m), m.testMode, m.now))
    case SendLights => LightsSent(m)
    case ReenableAutoLights(pad) => AutoLightsReenabled(m, pad)
    case SetTestMode(on) => m.(testMode := on)
    case Connect(pad) =>
      if m.slots.At(pad).Some? then m
      else m.(slots := m.slots.With(pad, Some(OPENED.(now := m.now))),
              conns := m.conns.With(pad, m.connected), connected := m.connected + 1)
    case Disconnect(pad) => m.(slots := m.slots.With(pad, None), versions := m.versions.With(pad, None))
    case LearnVersion(pad, version) => m.(versions := m.versions.With(pad, version))
    case SwapSlots =>
      m.(slots := Pair(m.slots.second, m.slots.first), versions := Pair(m.versions.second, m.versions.first),
         conns := Pair(m.conns.second, m.conns.first))
    case _ => m
  }

  function ManagedRun(m: Manager, steps: seq<ManagerStep>): Manager {
    if steps == [] then m else Managed(ManagedRun(m, steps[..|steps| - 1]), steps[|steps| - 1])
  }

  // ─── The staged queue in every run ────────────────────────────────────────

  lemma {:induction false} QueueStep(m: Manager, step: ManagerStep)
    requires Sound(m.stage)
    ensures Sound(Managed(m, step).stage)
  {
    if Locked(m) {
      match step {
        case SetLights(lightData, pads) =>
          SetLightsSound(m.stage, lightData, pads, KnownVersions(m), m.testMode, m.now);
        case SendLights => DrainSound(m.stage, m.now);
        case ReenableAutoLights(pad) => MuteSound(m.stage, pad);
        case _ =>
      }
    }
  }

  lemma {:induction false} QueueAlways(steps: seq<ManagerStep>)
    ensures Sound(ManagedRun(STARTED, steps).stage)
  {
    if steps != [] {
      QueueAlways(steps[..|steps| - 1]);
      QueueStep(ManagedRun(STARTED, steps[..|steps| - 1]), steps[|steps| - 1]);
    }
  }

  lemma {:induction false} StartsApart(q: Stage, i: nat, j: nat)
    requires Scheduled(q) && i < j < |q.starts|
    ensures q.starts[i] + FRAME_INTERVAL <= q.starts[j]
  {
    if i + 1 < j {
      StartsApart(q, i, j - 1);
    }
  }

  /** What a wake-up and a drain rely on. */
  predicate WellStaged(q: Stage, now: nat) {
    && |q.entries| in {0, 1, 3, 4}
    && (forall i, j :: 0 <= i < j < |q.entries| ==> q.entries[i].sendAt <= q.entries[j].sendAt)
    && (forall i :: 0 <= i < |q.entries| ==>
          && (i < DueCount(q.entries, now) <==> q.entries[i].sendAt <= now)
          && q.delayUntil.Some?
          && q.entries[i].sendAt <= q.delayUntil.value)
    && (forall i, j :: 0 <= i < j < |q.starts| ==> q.starts[i] + 33_333_333 <= q.starts[j])
  }

  lemma ScheduledWellStaged(q: Stage, now: nat)
    requires Scheduled(q)
    ensures WellStaged(q, now)
  {
    forall i, j | 0 <= i < j < |q.starts|
      ensures q.starts[i] + FRAME_INTERVAL <= q.starts[j]
    {
      StartsApart(q, i, j);
    }
    forall i | 0 <= i < |q.entries|
      ensures i < DueCount(q.entries, now) <==> q.entries[i].sendAt <= now
    {
      DuePrefixIsAllDue(q, now, i);
    }
  }

  /**
   In every run `pending_lights` has length 0, 1, 3 or 4 and is sorted; what is due is
   exactly a prefix; the last entry is no later than `delay_lights_until`; and frames
   start at least one frame interval apart.
   */
  lemma {:induction false} StageAlwaysWellStaged(steps: seq<ManagerStep>)
    ensures WellStaged(ManagedRun(STARTED, steps).stage, ManagedRun(STARTED, steps).now)
  {
    QueueAlways(steps);
    ScheduledWellStaged(ManagedRun(STARTED, steps).stage, ManagedRun(STARTED, steps).now);
  }

  // ─── Handed-over frames are not torn ──────────────────────────────────────

  predicate LoggedFromCall(h: HandOver, calls: seq<Call>) {
    h.body != [] && BodyFromCall(h.body, h.call, h.pad, h.part, calls)
  }

  /** Commands handed over from one frame to one pad come from one call. */
  predicate LogUntorn(log: seq<HandOver>) {
    forall i, j :: 0 <= i < |log| && 0 <= j < |log| ==>
      (log[i].triple == log[j].triple && log[i].pad == log[j].pad ==> log[i].call == log[j].call)
  }

  /** What was handed over from a frame agrees with what of it is still staged. */
  predicate LogAgrees(log: seq<HandOver>, es: seq<Entry>) {
    forall i, k :: 0 <= i < |log| && 0 <= k < |es| && log[i].triple == es[k].triple ==>
      log[i].call == es[k].calls.At(log[i].pad)
  }

  predicate LogKnown(log: seq<HandOver>, q: Stage) {
    forall i :: 0 <= i < |log| ==> log[i].triple < q.triples && LoggedFromCall(log[i], q.calls)
  }

  /** A frame that is still wholly staged has not been handed over at all. */
  predicate WholeFramesUnsent(log: seq<HandOver>, es: seq<Entry>) {
    |es| >= 3 ==> forall i :: 0 <= i < |log| ==> log[i].triple != es[|es| - 1].triple
  }

  /** The part of the invariant that a hand-over keeps while the entries stay staged. */
  predicate LogSoFar(log: seq<HandOver>, q: Stage) {
    && LogUntorn(log)
    && LogAgrees(log, q.entries)
    && LogKnown(log, q)
  }

  predicate LogInv(m: Manager) {
    Sound(m.stage) && LogSoFar(m.log, m.stage) && WholeFramesUnsent(m.log, m.stage.entries)
  }

  /** `later` extends `log` by commands of frames before `top`. */
  predicate ExtendedBelow(log: seq<HandOver>, later: seq<HandOver>, top: nat) {
    log <= later && forall i :: |log| <= i < |later| ==> later[i].triple < top
  }

  lemma OneLogged(log: seq<HandOver>, q: Stage, k: nat, pad: Pad, conn: nat)
    requires Sound(q) && LogSoFar(log, q) && k < |q.entries| && q.entries[k].body.At(pad) != []
    ensures var e := q.entries[k];
      LogSoFar(log + [HandOver(e.triple, e.part, pad, e.calls.At(pad), e.body.At(pad), conn)], q)
  {
    var e := q.entries[k];
    assert EntryFromCalls(e, q.calls);
    assert BodyFromCall(e.body.At(pad), e.calls.At(pad), pad, e.part, q.calls);
  }

  lemma PadLogged(m: Manager, k: nat, pad: Pad, top: nat)
    requires Sound(m.stage) && LogSoFar(m.log, m.stage) && k < |m.stage.entries| && m.stage.entries[k].triple < top
    ensures var t := HandOverPad(m, m.stage.entries[k], pad);
      t.stage == m.stage && LogSoFar(t.log, m.stage) && ExtendedBelow(m.log, t.log, top)
  {
    if m.stage.entries[k].body.At(pad) != [] {
      OneLogged(m.log, m.stage, k, pad, m.conns.At(pad));
    }
  }

  /** One more command handed over to both pads, `p` being reached from `m`. */
  lemma {:induction false} EntryLogged(m: Manager, p: Manager, k: nat, top: nat)
    requires Sound(p.stage) && LogSoFar(p.log, p.stage) && k < |p.stage.entries| && p.stage.entries[k].triple < top
    requires ExtendedBelow(m.log, p.log, top)
    ensures var t := HandOverEntry(p, p.stage.entries[k]);
      t.stage == p.stage && LogSoFar(t.log, p.stage) && ExtendedBelow(m.log, t.log, top)
  {
    var half := HandOverPad(p, p.stage.entries[k], 0);
    PadLogged(p, k, 0, top);
    PadLogged(half, k, 1, top);
    ExtendedTwice(m.log, p.log, half.log, top);
    ExtendedTwice(m.log, half.log, HandOverPad(half, p.stage.entries[k], 1).log, top);
  }

  lemma ExtendedTwice(a: seq<HandOver>, b: seq<HandOver>, c: seq<HandOver>, top: nat)
    requires ExtendedBelow(a, b, top) && ExtendedBelow(b, c, top)
    ensures ExtendedBelow(a, c, top)
  {
  }

  lemma {:induction false} FirstLogged(m: Manager, n: nat, top: nat)
    requires Sound(m.stage) && LogSoFar(m.log, m.stage) && n <= |m.stage.entries|
    requires forall k :: 0 <= k < n ==> m.stage.entries[k].triple < top
    ensures var t := HandOverFirst(m, n);
      t.stage == m.stage && LogSoFar(t.log, m.stage) && ExtendedBelow(m.log, t.log, top)
  {
    if n > 0 {
      FirstLogged(m, n - 1, top);
      EntryLogged(m, HandOverFirst(m, n - 1), n - 1, top);
    }
  }

  lemma DrainAgrees(log: seq<HandOver>, q: Stage, n: nat)
    requires n <= |q.entries| && LogSoFar(log, q)
    ensures LogSoFar(log, Drained(q, n))
  {
  }

  /** While a whole frame stays staged, at most the command before it is handed over. */
  lemma WholeFrameStays(log: seq<HandOver>, later: seq<HandOver>, es: seq<Entry>, n: nat)
    requires Shape(es) && n <= |es| && |es| - n >= 3
    requires WholeFramesUnsent(log, es) && ExtendedBelow(log, later, es[|es| - 1].triple)
    ensures WholeFramesUnsent(later, es[n..])
  {
    assert es[n..][|es[n..]| - 1] == es[|es| - 1];
  }

  /** Handing over the first `n` staged commands hands over nothing of a frame that stays whole. */
  lemma {:induction false} FirstUnsent(m: Manager, n: nat)
    requires LogInv(m) && n <= |m.stage.entries|
    ensures var t := HandOverFirst(m, n);
      LogSoFar(t.log, m.stage) && WholeFramesUnsent(t.log, m.stage.entries[n..])
  {
    var es := m.stage.entries;
    if |es| - n >= 3 {
      FirstLogged(m, n, es[|es| - 1].triple);
      WholeFrameStays(m.log, HandOverFirst(m, n).log, es, n);
    } else {
      FirstLogged(m, n, m.stage.triples);
    }
  }

  lemma SendLogged(m: Manager)
    requires LogInv(m)
    ensures LogInv(LightsSent(m))
  {
    if !Gated(m) {
      var n := DueCount(m.stage.entries, m.now);
      DrainSound(m.stage, m.now);
      FirstUnsent(m, n);
      DrainAgrees(HandOverFirst(m, n).log, m.stage, n);
    }
  }

  lemma LogCallsGrow(log: seq<HandOver>, q: Stage, r: Stage)
    requires LogKnown(log, q) && q.triples <= r.triples && q.calls <= r.calls
    ensures LogKnown(log, r)
  {
  }

  /** A replace touches only a frame of which nothing was handed over. */
  lemma ReplaceLogged(log: seq<HandOver>, q: Stage, call: Call, index: nat, v: Pair<Option<byte>>)
    requires ValidCall(call) && Scheduled(q) && |q.entries| >= 3
    requires LogAgrees(log, q.entries) && WholeFramesUnsent(log, q.entries)
    ensures LogAgrees(log, Replaced(q, call, index, v).entries)
    ensures WholeFramesUnsent(log, Replaced(q, call, index, v).entries)
  {
    var es, fs := q.entries, Replaced(q, call, index, v).entries;
    forall k | 0 <= k < |fs|
      ensures fs[k].triple == es[k].triple
      ensures k < |es| - 3 ==> fs[k] == es[k]
      ensures k >= |es| - 3 ==> fs[k].triple == es[|es| - 1].triple
    {
    }
  }

  /** A new frame is one of which nothing was handed over. */
  lemma AppendLogged(log: seq<HandOver>, q: Stage, call: Call, index: nat, v: Pair<Option<byte>>, now: nat)
    requires ValidCall(call)
    requires LogAgrees(log, q.entries) && LogKnown(log, q)
    ensures LogAgrees(log, Appended(q, call, index, v, now).entries)
    ensures WholeFramesUnsent(log, Appended(q, call, index, v, now).entries)
  {
    var fs := Appended(q, call, index, v, now).entries;
    forall k | |q.entries| <= k < |fs|
      ensures fs[k].triple == q.triples
    {
    }
  }

  lemma {:induction false} SetLogged(log: seq<HandOver>, q: Stage, lightData: seq<byte>, pads: Pair<bool>,
                  v: Pair<Option<byte>>, testMode: bool, now: nat)
    requires Sound(q) && LogSoFar(log, q) && WholeFramesUnsent(log, q.entries)
    ensures var r := LightsSet(q, lightData, pads, v, testMode, now);
      Sound(r) && LogSoFar(log, r) && WholeFramesUnsent(log, r.entries)
  {
    var r := LightsSet(q, lightData, pads, v, testMode, now);
    SetLightsSound(q, lightData, pads, v, testMode, now);
    LogCallsGrow(log, q, r);
    if !testMode && FrameData(lightData) {
      var call := MakeCall(lightData, pads);
      var p := q.(calls := q.calls + [call]);
      LogCallsGrow(log, q, p);
      if |q.entries| >= 3 {
        ReplaceLogged(log, p, call, |q.calls|, v);
      } else if AnyConfig(v) {
        AppendLogged(log, p, call, |q.calls|, v, now);
      }
    }
  }

  lemma {:induction false} MuteLogged(m: Manager, pad: Pad)
    requires LogInv(m)
    ensures LogInv(m.(stage := PadMuted(m.stage, pad)))
  {
    MuteSound(m.stage, pad);
  }

  lemma LogStep(m: Manager, step: ManagerStep)
    requires LogInv(m)
    ensures LogInv(Managed(m, step))
  {
    if Locked(m) {
      match step {
        case SetLights(lightData, pads) =>
          SetLogged(m.log, m.stage, lightData, pads, KnownVersions(m), m.testMode, m.now);
        case SendLights => SendLogged(m);
        case ReenableAutoLights(pad) => MuteLogged(m, pad);
        case _ =>
      }
    }
  }

  lemma {:induction false} LogAlways(steps: seq<ManagerStep>)
    ensures LogInv(ManagedRun(STARTED, steps))
  {
    if steps != [] {
      LogAlways(steps[..|steps| - 1]);
      LogStep(ManagedRun(STARTED, steps[..|steps| - 1]), steps[|steps| - 1]);
    }
  }

  /**
   No torn frames, in every run: what is handed over from one frame to one slot
   comes from a single call and is that call's encoding.
   */
  lemma FramesNeverTorn(steps: seq<ManagerStep>, i: nat, j: nat)
    requires i < |ManagedRun(STARTED, steps).log| && j < |ManagedRun(STARTED, steps).log|
    ensures var m := ManagedRun(STARTED, steps);
      && (m.log[i].triple == m.log[j].triple && m.log[i].pad == m.log[j].pad ==> m.log[i].call == m.log[j].call)
      && m.log[i].call < |m.stage.calls|
      && ValidCall(m.stage.calls[m.log[i].call])
      && m.stage.calls[m.log[i].call].pads.At(m.log[i].pad)
      && m.log[i].body == LightsBody(m.stage.calls[m.log[i].call].data.At(m.log[i].pad), m.log[i].part)
  {
    LogAlways(steps);
    var m := ManagedRun(STARTED, steps);
    assert LoggedFromCall(m.log[i], m.stage.calls);
  }

  // ─── Bounded backlog ──────────────────────────────────────────────────────

  const MAX_BACKLOG := 5

  ghost predicate SlotInv(slot: Option<State>, bound: nat) {
    slot.Some? ==> WireInv(slot.value) && CountLights(Line(slot.value.desk)) <= bound
  }

  ghost predicate BacklogInv(m: Manager, bound: nat) {
    SlotInv(m.slots.first, bound) && SlotInv(m.slots.second, bound)
  }

  lemma SlotStep(s: State, step: Step, bound: nat)
    requires SlotInv(Some(s), bound)
    ensures SlotInv(Some(Apply(s, step)), bound + if QueuesLights(step) then 1 else 0)
  {
    WireStep(s, step);
    OnlyLightsRequestsAdd(s, step);
  }

  lemma HandOverPadBacklog(m: Manager, e: Entry, pad: Pad, bound: nat)
    requires SlotInv(m.slots.At(pad), bound)
    ensures SlotInv(HandOverPad(m, e, pad).slots.At(pad), bound + 1)
    ensures HandOverPad(m, e, pad).slots.At(1 - pad) == m.slots.At(1 - pad)
  {
    if m.slots.At(pad).Some? {
      SlotStep(m.slots.At(pad).value, Queue(LightsRequest(e.body.At(pad)), false), bound);
    }
  }

  lemma HandOverBacklog(m: Manager, e: Entry, bound: nat)
    requires BacklogInv(m, bound)
    ensures BacklogInv(HandOverEntry(m, e), bound + 1)
  {
    HandOverPadBacklog(m, e, 0, bound);
    HandOverPadBacklog(HandOverPad(m, e, 0), e, 1, bound);
  }

  lemma {:induction false} FirstBacklog(m: Manager, n: nat, bound: nat)
    requires n <= |m.stage.entries| && BacklogInv(m, bound)
    ensures BacklogInv(HandOverFirst(m, n), bound + n)
  {
    if n > 0 {
      FirstBacklog(m, n - 1, bound);
      HandOverBacklog(HandOverFirst(m, n - 1), m.stage.entries[n - 1], bound + n - 1);
    }
  }

  lemma UngatedBacklog(slot: Option<State>)
    requires SlotInv(slot, MAX_BACKLOG) && !LightsUnsent(slot)
    ensures SlotInv(slot, 1)
  {
    if slot.Some? {
      var d := slot.value.desk;
      CountLightsAppend(Holding(d), d.handle.pending);
    }
  }

  lemma SendBacklog(m: Manager)
    requires Sound(m.stage) && BacklogInv(m, MAX_BACKLOG)
    ensures BacklogInv(LightsSent(m), MAX_BACKLOG)
  {
    if !Gated(m) {
      UngatedBacklog(m.slots.first);
      UngatedBacklog(m.slots.second);
      ShapeLengths(m.stage);
      FirstBacklog(m, DueCount(m.stage.entries, m.now), 1);
    }
  }

  lemma ReenableBacklog(m: Manager, pad: Pad)
    requires BacklogInv(m, MAX_BACKLOG)
    ensures BacklogInv(AutoLightsReenabled(m, pad), MAX_BACKLOG)
  {
    if m.slots.At(pad).Some? {
      var s := m.slots.At(pad).value;
      SlotStep(s, DropLights, MAX_BACKLOG);
      SlotStep(Apply(s, DropLights), Queue(PlainRequest(AUTO_LIGHTS_ON, false), false), MAX_BACKLOG);
    }
  }

  lemma OpenedSlot(now: nat)
    ensures SlotInv(Some(OPENED.(now := now)), 0)
  {
    WireAlways([]);
    assert WireInv(OPENED.(now := now));
    assert Line(OPENED_DESK) == [MakeCommand(0, INFO_REQUEST)];
  }

  lemma PadBacklog(m: Manager, pad: Pad, s: Step)
    requires BacklogInv(m, MAX_BACKLOG) && PadMay(s)
    ensures BacklogInv(OnSlot(m, pad, s), MAX_BACKLOG)
  {
    if m.slots.At(pad).Some? {
      SlotStep(m.slots.At(pad).value, s, MAX_BACKLOG);
    }
  }

  lemma WaitBacklog(slot: Option<State>, elapsed: nat)
    requires SlotInv(slot, MAX_BACKLOG)
    ensures SlotInv(Waited(slot, elapsed), MAX_BACKLOG)
  {
    if slot.Some? {
      SlotStep(slot.value, Tick(elapsed), MAX_BACKLOG);
    }
  }

  lemma ConnectBacklog(m: Manager, pad: Pad)
    requires BacklogInv(m, MAX_BACKLOG)
    ensures BacklogInv(Operated(m, Connect(pad)), MAX_BACKLOG)
  {
    OpenedSlot(m.now);
  }

  lemma OperatedBacklog(m: Manager, step: ManagerStep)
    requires Sound(m.stage) && BacklogInv(m, MAX_BACKLOG)
    ensures BacklogInv(Operated(m, step), MAX_BACKLOG)
  {
    match step {
      case SendLights => SendBacklog(m);
      case ReenableAutoLights(pad) => ReenableBacklog(m, pad);
      case Connect(pad) => ConnectBacklog(m, pad);
      case _ =>
    }
  }

  lemma BacklogStep(m: Manager, step: ManagerStep)
    requires Sound(m.stage) && BacklogInv(m, MAX_BACKLOG)
    ensures BacklogInv(Managed(m, step), MAX_BACKLOG)
  {
    match step {
      case PadStep(pad, s) =>
        if PadMay(s) {
          PadBacklog(m, pad, s);
        }
      case Wait(elapsed) =>
        WaitBacklog(m.slots.first, elapsed);
        WaitBacklog(m.slots.second, elapsed);
      case _ => OperatedBacklog(m, step);
    }
  }

  /**
   In every run, timeouts included: on any connection the unsent lights commands
   plus the one in flight never exceed five.
   */
  lemma {:induction false} BacklogAlways(steps: seq<ManagerStep>)
    ensures BacklogInv(ManagedRun(STARTED, steps), MAX_BACKLOG)
  {
    if steps != [] {
      var before := steps[..|steps| - 1];
      BacklogAlways(before);
      QueueAlways(before);
      BacklogStep(ManagedRun(STARTED, before), steps[|steps| - 1]);
    }
  }
}
