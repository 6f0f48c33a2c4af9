/**
 From the scheduler to the wire: the lights jobs a connection's writer gets are, in order,
 the commands the scheduler handed to that connection, some of them more than once and
 some not at all.
 */
module LightDelivery {
  import opened Bytes
  import opened Protocol
  import opened LightQueue
  import opened CommandQueue
  import opened Pipeline
  import opened Conservation
  import opened WireOrder
  import opened LightRelease
  import opened LightOrder
  import opened LightSystem

  // ─── What was queued and what was handed over ─────────────────────────────

  /** The bodies of the lights requests, in the order they were queued. */
  function LightBodies(queued: seq<Request>): seq<seq<byte>> {
    if queued == [] then []
    else
      var r := queued[|queued| - 1];
      LightBodies(queued[..|queued| - 1]) + if r.LightsRequest? then [r.body] else []
  }

  /** What the scheduler handed to one connection, in order. */
  function LogOf(log: seq<HandOver>, conn: nat): seq<HandOver> {
    if log == [] then []
    else
      var h := log[|log| - 1];
      LogOf(log[..|log| - 1], conn) + if h.conn == conn then [h] else []
  }

  function BodiesIn(log: seq<HandOver>): (bodies: seq<seq<byte>>)
    ensures |bodies| == |log|
  {
    seq(|log|, i requires 0 <= i < |log| => log[i].body)
  }

  lemma LightBodiesMore(queued: seq<Request>, r: Request)
    ensures LightBodies(queued + [r]) == LightBodies(queued) + if r.LightsRequest? then [r.body] else []
  {
    assert (queued + [r])[..|queued|] == queued;
  }

  lemma LogOfMore(log: seq<HandOver>, h: HandOver, conn: nat)
    ensures LogOf(log + [h], conn) == LogOf(log, conn) + if h.conn == conn then [h] else []
  {
    assert (log + [h])[..|log|] == log;
  }

  lemma {:induction false} LogOfMembers(log: seq<HandOver>, conn: nat, k: nat)
    requires k < |LogOf(log, conn)|
    ensures LogOf(log, conn)[k] in log && LogOf(log, conn)[k].conn == conn
  {
    if k < |LogOf(log[..|log| - 1], conn)| {
      LogOfMembers(log[..|log| - 1], conn, k);
    }
  }

  lemma {:induction false} NothingYet(log: seq<HandOver>, conn: nat)
    requires forall h :: h in log ==> h.conn < conn
    ensures LogOf(log, conn) == []
  {
    if log != [] {
      assert log[|log| - 1] in log;
      NothingYet(log[..|log| - 1], conn);
    }
  }

  /** The place of a request among the lights requests. */
  function Rank(queued: seq<Request>, id: nat): nat
    requires id <= |queued|
  {
    |LightBodies(queued[..id])|
  }

  lemma {:induction false} RankGrows(queued: seq<Request>, a: nat, b: nat)
    requires a <= b <= |queued|
    ensures Rank(queued, a) <= Rank(queued, b)
    ensures a < b && queued[a].LightsRequest? ==> Rank(queued, a) < Rank(queued, b)
    decreases b
  {
    if a < b {
      RankGrows(queued, a, b - 1);
      assert queued[..b][..b - 1] == queued[..b - 1];
    }
  }

  lemma {:induction false} BodyAtRank(queued: seq<Request>, id: nat, n: nat)
    requires id < n <= |queued| && queued[id].LightsRequest?
    ensures Rank(queued, id) < |LightBodies(queued[..n])|
    ensures LightBodies(queued[..n])[Rank(queued, id)] == queued[id].body
    decreases n
  {
    assert queued[..n][..n - 1] == queued[..n - 1];
    if id < n - 1 {
      BodyAtRank(queued, id, n - 1);
    }
  }

  // ─── The invariant ────────────────────────────────────────────────────────

  ghost predicate SlotDelivers(slot: Option<State>, log: seq<HandOver>, conn: nat) {
    slot.Some? ==>
      Ordered(slot.value) && LightBodies(slot.value.desk.ledger.queued) == BodiesIn(LogOf(log, conn))
  }

  /** Every connection has a number of its own. */
  predicate ConnsKnown(m: Manager) {
    && (m.slots.first.Some? ==> m.conns.first < m.connected)
    && (m.slots.second.Some? ==> m.conns.second < m.connected)
    && (m.slots.first.Some? && m.slots.second.Some? ==> m.conns.first != m.conns.second)
    && (forall h :: h in m.log ==> h.conn < m.connected)
  }

  ghost predicate Delivers(m: Manager) {
    && ConnsKnown(m)
    && SlotDelivers(m.slots.first, m.log, m.conns.first)
    && SlotDelivers(m.slots.second, m.log, m.conns.second)
  }

  /** No step but queueing lights changes what was queued as lights. */
  lemma SameLightBodies(s: State, step: Step)
    requires CommandsMatch(s.desk) && !QueuesLights(step)
    ensures LightBodies(Apply(s, step).desk.ledger.queued) == LightBodies(s.desk.ledger.queued)
  {
    if step.Main? {
      MainMoves(s);
    } else if step.Queue? {
      LightBodiesMore(s.desk.ledger.queued, step.request);
      assert LightBodies(s.desk.ledger.queued) + [] == LightBodies(s.desk.ledger.queued);
    }
  }

  lemma StepDelivers(s: State, step: Step, log: seq<HandOver>, conn: nat)
    requires SlotDelivers(Some(s), log, conn) && !QueuesLights(step)
    ensures SlotDelivers(Some(Apply(s, step)), log, conn)
  {
    OrderedStep(s, step);
    SameLightBodies(s, step);
  }

  /** Queueing the lights of one hand-over, which the log records. */
  lemma LightsDeliver(s: State, h: HandOver, log: seq<HandOver>, conn: nat)
    requires SlotDelivers(Some(s), log, conn) && s.desk.pc.Idle? && h.conn == conn
    ensures SlotDelivers(Some(Apply(s, Queue(LightsRequest(h.body), false))), log + [h], conn)
  {
    var r := LightsRequest(h.body);
    OrderedStep(s, Queue(r, false));
    LightBodiesMore(s.desk.ledger.queued, r);
    LogOfMore(log, h, conn);
    assert BodiesIn(LogOf(log, conn) + [h]) == BodiesIn(LogOf(log, conn)) + [h.body];
  }

  lemma OtherDelivers(slot: Option<State>, h: HandOver, log: seq<HandOver>, conn: nat)
    requires SlotDelivers(slot, log, conn) && (slot.Some? ==> h.conn != conn)
    ensures SlotDelivers(slot, log + [h], conn)
  {
    LogOfMore(log, h, conn);
    assert LogOf(log, conn) + [] == LogOf(log, conn);
  }

  /** The slot the command goes to. */
  lemma PadDeliversHere(m: Manager, e: Entry, pad: Pad)
    requires SlotDelivers(m.slots.At(pad), m.log, m.conns.At(pad)) && Locked(m)
    ensures SlotDelivers(HandOverPad(m, e, pad).slots.At(pad), HandOverPad(m, e, pad).log, m.conns.At(pad))
  {
    if e.body.At(pad) != [] && m.slots.At(pad).Some? {
      var h := HandOver(e.triple, e.part, pad, e.calls.At(pad), e.body.At(pad), m.conns.At(pad));
      LightsDeliver(m.slots.At(pad).value, h, m.log, m.conns.At(pad));
    }
  }

  /** The other slot. */
  lemma PadDeliversThere(m: Manager, e: Entry, pad: Pad, other: Pad)
    requires SlotDelivers(m.slots.At(other), m.log, m.conns.At(other)) && other != pad && ConnsKnown(m)
    ensures SlotDelivers(HandOverPad(m, e, pad).slots.At(other), HandOverPad(m, e, pad).log, m.conns.At(other))
  {
    if e.body.At(pad) != [] && m.slots.At(pad).Some? {
      var h := HandOver(e.triple, e.part, pad, e.calls.At(pad), e.body.At(pad), m.conns.At(pad));
      OtherDelivers(m.slots.At(other), h, m.log, m.conns.At(other));
    }
  }

  lemma PadKeepsConns(m: Manager, e: Entry, pad: Pad)
    requires ConnsKnown(m)
    ensures ConnsKnown(HandOverPad(m, e, pad))
  {
  }

  lemma PadKeepsLock(m: Manager, e: Entry, pad: Pad)
    requires Locked(m)
    ensures Locked(HandOverPad(m, e, pad))
  {
    assert m.slots.At(pad).Some? ==> m.slots.At(pad).value.desk.pc.Idle?;
    var other: Pad := 1 - pad;
    assert m.slots.At(other).Some? ==> m.slots.At(other).value.desk.pc.Idle?;
  }

  lemma PadDelivers(m: Manager, e: Entry, pad: Pad)
    requires Delivers(m) && Locked(m)
    ensures Delivers(HandOverPad(m, e, pad)) && Locked(HandOverPad(m, e, pad))
    ensures HandOverPad(m, e, pad).stage == m.stage
  {
    PadDeliversHere(m, e, pad);
    PadDeliversThere(m, e, pad, 1 - pad);
    PadKeepsConns(m, e, pad);
    PadKeepsLock(m, e, pad);
    assert HandOverPad(m, e, pad).conns == m.conns;
  }

  lemma {:induction false} FirstDeliver(m: Manager, n: nat)
    requires Delivers(m) && Locked(m) && n <= |m.stage.entries|
    ensures Delivers(HandOverFirst(m, n)) && Locked(HandOverFirst(m, n))
  {
    if n > 0 {
      FirstDeliver(m, n - 1);
      var before, e := HandOverFirst(m, n - 1), m.stage.entries[n - 1];
      PadDelivers(before, e, 0);
      PadDelivers(HandOverPad(before, e, 0), e, 1);
    }
  }

  lemma ReenableDelivers(m: Manager, pad: Pad)
    requires Delivers(m)
    ensures Delivers(AutoLightsReenabled(m, pad))
  {
    if m.slots.At(pad).Some? {
      var s, conn := m.slots.At(pad).value, m.conns.At(pad);
      StepDelivers(s, DropLights, m.log, conn);
      StepDelivers(Apply(s, DropLights), Queue(PlainRequest(AUTO_LIGHTS_ON, false), false), m.log, conn);
    }
  }

  lemma NewSlotDelivers(now: nat, log: seq<HandOver>, conn: nat)
    requires forall h :: h in log ==> h.conn < conn
    ensures SlotDelivers(Some(OPENED.(now := now)), log, conn)
  {
    OpenedOrdered(now);
    NothingYet(log, conn);
    assert [INFO_REQUEST][..0] == [];
  }

  /** A connection with a new number takes a free slot. */
  lemma TakenSlotDelivers(m: Manager, pad: Pad, s: State)
    requires Delivers(m) && m.slots.At(pad).None? && SlotDelivers(Some(s), m.log, m.connected)
    ensures Delivers(m.(slots := m.slots.With(pad, Some(s)),
                        conns := m.conns.With(pad, m.connected), connected := m.connected + 1))
  {
  }

  lemma ConnectDelivers(m: Manager, pad: Pad)
    requires Delivers(m)
    ensures Delivers(Operated(m, Connect(pad)))
  {
    if m.slots.At(pad).None? {
      NewSlotDelivers(m.now, m.log, m.connected);
      TakenSlotDelivers(m, pad, OPENED.(now := m.now));
    }
  }

  lemma OperatedDelivers(m: Manager, step: ManagerStep)
    requires Delivers(m) && Locked(m)
    ensures Delivers(Operated(m, step))
  {
    match step {
      case SendLights =>
        if !Gated(m) {
          FirstDeliver(m, DueCount(m.stage.entries, m.now));
        }
      case ReenableAutoLights(pad) => ReenableDelivers(m, pad);
      case Connect(pad) => ConnectDelivers(m, pad);
      case _ =>
    }
  }

  lemma PadStepDelivers(m: Manager, pad: Pad, s: Step)
    requires Delivers(m) && PadMay(s)
    ensures Delivers(OnSlot(m, pad, s))
  {
    if m.slots.At(pad).Some? {
      StepDelivers(m.slots.At(pad).value, s, m.log, m.conns.At(pad));
    }
  }

  lemma WaitDelivers(slot: Option<State>, elapsed: nat, log: seq<HandOver>, conn: nat)
    requires SlotDelivers(slot, log, conn)
    ensures SlotDelivers(Waited(slot, elapsed), log, conn)
  {
    if slot.Some? {
      StepDelivers(slot.value, Tick(elapsed), log, conn);
    }
  }

  lemma ManagedDelivers(m: Manager, step: ManagerStep)
    requires Delivers(m)
    ensures Delivers(Managed(m, step))
  {
    match step {
      case PadStep(pad, s) =>
        if PadMay(s) {
          PadStepDelivers(m, pad, s);
        }
      case Wait(elapsed) =>
        WaitDelivers(m.slots.first, elapsed, m.log, m.conns.first);
        WaitDelivers(m.slots.second, elapsed, m.log, m.conns.second);
      case _ =>
        if Locked(m) {
          OperatedDelivers(m, step);
        }
    }
  }

  lemma {:induction false} DeliversAlways(steps: seq<ManagerStep>)
    ensures Delivers(ManagedRun(LightSystem.STARTED, steps))
  {
    if steps != [] {
      DeliversAlways(steps[..|steps| - 1]);
      ManagedDelivers(ManagedRun(LightSystem.STARTED, steps[..|steps| - 1]), steps[|steps| - 1]);
    }
  }

  // ─── End to end ───────────────────────────────────────────────────────────

  /** Job `i` of a connection is the lights command `log[k]`. */
  predicate Carries(s: State, i: nat, log: seq<HandOver>, k: nat)
    requires i < |s.link.handed|
  {
    && k < |log|
    && s.link.handed[i].packets == Fragments(log[k].body)
  }

  lemma JobCarries(s: State, log: seq<HandOver>, i: nat) returns (k: nat)
    requires WireInv(s) && LightBodies(s.desk.ledger.queued) == BodiesIn(log)
    requires i < |s.link.handed| && JobIsLights(s.link.handed[i], s.desk.ledger.queued)
    ensures k == Rank(s.desk.ledger.queued, s.link.handed[i].id) && Carries(s, i, log, k)
  {
    var queued, job := s.desk.ledger.queued, s.link.handed[i];
    assert JobOf(job, queued);
    k := Rank(queued, job.id);
    BodyAtRank(queued, job.id, |queued|);
    assert queued[..|queued|] == queued;
  }

  /**
   End to end, in every run: take any two lights jobs, or one twice, of the connection now in
   a slot. They carry the fragments of commands the scheduler handed to that connection, in the
   same order; it is the same command just when it is the same request: one job, or a retry of it.
   Each of those commands is what one call encoded for a selected pad, and the device has
   reassembled exactly the jobs wholly written, in this order.
   */
  lemma LightsReachThePad(steps: seq<ManagerStep>, pad: Pad, i: nat, j: nat) returns (a: nat, b: nat)
    requires ManagedRun(LightSystem.STARTED, steps).slots.At(pad).Some?
    requires var s := ManagedRun(LightSystem.STARTED, steps).slots.At(pad).value;
      && i <= j < |s.link.handed|
      && JobIsLights(s.link.handed[i], s.desk.ledger.queued) && JobIsLights(s.link.handed[j], s.desk.ledger.queued)
    ensures var m := ManagedRun(LightSystem.STARTED, steps);
      var s, log := m.slots.At(pad).value, LogOf(m.log, m.conns.At(pad));
      && a <= b && Carries(s, i, log, a) && Carries(s, j, log, b)
      && (a == b <==> s.link.handed[i].id == s.link.handed[j].id)
      && LoggedFromCall(log[a], m.stage.calls) && LoggedFromCall(log[b], m.stage.calls)
      && Reassembled(s)
  {
    var m := ManagedRun(LightSystem.STARTED, steps);
    DeliversAlways(steps);
    var s, conn := m.slots.At(pad).value, m.conns.At(pad);
    assert SlotDelivers(m.slots.At(pad), m.log, conn);
    var log := LogOf(m.log, conn);
    a := JobCarries(s, log, i);
    b := JobCarries(s, log, j);
    RankGrows(s.desk.ledger.queued, s.link.handed[i].id, s.link.handed[j].id);
    LoggedBelongs(steps, conn, a);
    LoggedBelongs(steps, conn, b);
    InvReassembles(s);
  }

  lemma LoggedBelongs(steps: seq<ManagerStep>, conn: nat, k: nat)
    requires k < |LogOf(ManagedRun(LightSystem.STARTED, steps).log, conn)|
    ensures var m := ManagedRun(LightSystem.STARTED, steps);
      LoggedFromCall(LogOf(m.log, conn)[k], m.stage.calls)
  {
    var m := ManagedRun(LightSystem.STARTED, steps);
    LogAlways(steps);
    LogOfMembers(m.log, conn, k);
    var n :| 0 <= n < |m.log| && m.log[n] == LogOf(m.log, conn)[k];
    assert LoggedFromCall(m.log[n], m.stage.calls);
  }
}
