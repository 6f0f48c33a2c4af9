/**
 Where commands are: every request is in exactly one place, keeps its packets,
 and its callback runs exactly once when it ends.
 */
module Conservation {
  import opened Bytes
  import opened Protocol
  import opened Framing
  import opened CommandQueue
  import opened Pipeline

  // ─── The line of commands ─────────────────────────────────────────────────

  predicate BetweenQueueAndChannel(d: Desk) {
    d.pc.HandOff? || d.pc.HandOffFailed?
  }

  /** The command being handed over or awaiting its response. */
  function Holding(d: Desk): seq<Command> {
    if BetweenQueueAndChannel(d) then [d.pc.command] else AsSeq(d.handle.current)
  }

  /** All commands not yet ended, in sending order. */
  function Line(d: Desk): seq<Command> {
    Holding(d) + d.handle.pending
  }

  /** While a command is between the queue and the channel nothing else is current. */
  predicate OneHeld(d: Desk) {
    BetweenQueueAndChannel(d) ==> d.handle.current.None?
  }

  /** The same command, whatever its progress. */
  predicate Same(c: Command, d: Command) {
    c == d.(sent := c.sent, sentAt := c.sentAt)
  }

  /** `b` is `a` with at most the head's progress changed. */
  predicate SameLine(a: seq<Command>, b: seq<Command>) {
    && |a| == |b|
    && (a != [] ==> Same(a[0], b[0]) && a[1..] == b[1..])
  }

  /** Handling a packet ends the current command or leaves the commands alone. */
  predicate EndedBy(h: Handle, g: Handle, response: seq<byte>) {
    h.current.Some? && g.current.None? && g.callbacks == h.callbacks + CallbackOf(h.current.value, response)
  }

  lemma PacketHandledMoves(h: Handle, raw: seq<byte>)
    ensures var g := PacketHandled(h, raw);
      && g.pending == h.pending
      && ((g.current == h.current && g.callbacks == h.callbacks)
          || (IsAnswer(raw) && exists response :: EndedBy(h, g, response)))
  {
    var g := PacketHandled(h, raw);
    match ParseReport6(raw) {
      case None =>
      case Some(DeviceInfo(payload)) =>
        assert h.current.Some? && g.current.None? ==> EndedBy(h, g, payload);
      case Some(_) =>
        assert h.current.Some? && g.current.None? ==> EndedBy(h, g, LastOrEmpty(g.readBuffers));
    }
  }

  /** The kinds of move `update` makes: nothing ended, or the head of the line did. */
  predicate LineKept(d: Desk, e: Desk) {
    && SameLine(Line(d), Line(e))
    && e.ledger.finished == d.ledger.finished
    && e.ledger.cancelled == d.ledger.cancelled
    && e.handle.callbacks == d.handle.callbacks
  }

  ghost predicate HeadFinished(d: Desk, e: Desk) {
    && Line(d) != []
    && Line(e) == Line(d)[1..]
    && e.ledger.finished == d.ledger.finished + [Line(d)[0]]
    && e.ledger.cancelled == d.ledger.cancelled
    && (exists response :: e.handle.callbacks == d.handle.callbacks + CallbackOf(Line(d)[0], response))
  }

  predicate HeadCancelled(d: Desk, e: Desk) {
    && Line(d) != []
    && Line(e) == Line(d)[1..]
    && e.ledger.finished == d.ledger.finished
    && e.ledger.cancelled == d.ledger.cancelled + [Line(d)[0]]
    && e.handle.callbacks == d.handle.callbacks + CallbackOf(Line(d)[0], [])
  }

  ghost predicate LineMoved(d: Desk, e: Desk) {
    && OneHeld(e)
    && e.ledger.queued == d.ledger.queued
    && e.ledger.dropped == d.ledger.dropped
    && (LineKept(d, e) || HeadFinished(d, e) || HeadCancelled(d, e))
  }

  lemma NextHandledMoves(d: Desk)
    requires d.pc.Reading? && HasFrame(d.pc.data)
    ensures LineMoved(d, NextHandled(d))
  {
    var e := NextHandled(d);
    PacketHandledMoves(d.handle, d.pc.data[..PacketLength(d.pc.data)]);
    if e.handle.current == d.handle.current && e.handle.callbacks == d.handle.callbacks {
      assert Line(e) == Line(d);
      assert LineKept(d, e);
    } else {
      var response :| EndedBy(d.handle, e.handle, response);
      assert Line(e) == e.handle.pending == Line(d)[1..];
      assert HeadFinished(d, e);
    }
  }

  lemma TimeoutMoves(d: Desk, now: nat)
    requires d.pc.CheckTimeout?
    ensures LineMoved(d, TimeoutChecked(d, now))
  {
    var e := TimeoutChecked(d, now);
    if TimedOut(d.handle, now) {
      assert Line(e) == e.handle.pending;
      assert Line(d)[1..] == d.handle.pending;
    }
    assert LineKept(d, e);
  }

  lemma WritesMove(d: Desk, writeInFlight: bool, now: nat)
    requires d.pc.CheckWrites?
    ensures LineMoved(d, WritesChecked(d, writeInFlight, now))
  {
    var e := WritesChecked(d, writeInFlight, now);
    if PopsNext(d) {
      assert Line(d) == d.handle.pending == Line(e);
    } else if d.handle.current.Some? {
      assert Line(d)[1..] == d.handle.pending == Line(e)[1..];
    } else {
      assert Line(d) == Line(e);
    }
    assert LineKept(d, e);
  }

  lemma HandOffMoves(d: Desk, accepted: bool)
    requires d.pc.HandOff? && OneHeld(d)
    ensures LineMoved(d, HandOffDone(d, accepted))
  {
    assert Line(HandOffDone(d, accepted)) == Line(d);
    assert LineKept(d, HandOffDone(d, accepted));
  }

  lemma AbortMoves(d: Desk)
    requires d.pc.HandOffFailed? && OneHeld(d)
    ensures LineMoved(d, HandOffAborted(d))
  {
    assert Line(HandOffAborted(d)) == d.handle.pending == Line(d)[1..];
    assert HeadCancelled(d, HandOffAborted(d));
  }

  /** Inside `update` the line of commands only ever loses its head. */
  lemma {:induction false} MainMoves(s: State)
    requires OneHeld(s.desk)
    ensures LineMoved(s.desk, MainStep(s).desk)
  {
    match s.desk.pc {
      case Reading(data) =>
        if HasFrame(data) {
          NextHandledMoves(s.desk);
        } else {
          assert LineKept(s.desk, MainStep(s).desk);
        }
      case CheckTimeout => TimeoutMoves(s.desk, s.now);
      case CheckWrites => WritesMove(s.desk, s.link.writeInFlight, s.now);
      case HandOff(_) => HandOffMoves(s.desk, ChannelOpen(s.link));
      case HandOffFailed(_) => AbortMoves(s.desk);
      case _ => assert LineKept(s.desk, MainStep(s).desk);
    }
  }

  // ─── Every command belongs to its request ─────────────────────────────────

  predicate Matches(c: Command, queued: seq<Request>) {
    c.id < |queued| && Same(MakeCommand(c.id, queued[c.id]), c)
  }

  ghost predicate AllMatch(cmds: seq<Command>, queued: seq<Request>) {
    forall c :: c in cmds ==> Matches(c, queued)
  }

  ghost predicate CommandsMatch(d: Desk) {
    && OneHeld(d)
    && AllMatch(Line(d), d.ledger.queued)
    && AllMatch(d.ledger.finished, d.ledger.queued)
    && AllMatch(d.ledger.cancelled, d.ledger.queued)
    && AllMatch(d.ledger.dropped, d.ledger.queued)
    && (forall c :: c in d.ledger.dropped ==> c.isLights)
  }

  lemma MatchKept(a: seq<Command>, b: seq<Command>, queued: seq<Request>)
    requires AllMatch(a, queued)
    requires SameLine(a, b) || (a != [] && b == a[1..])
    ensures AllMatch(b, queued)
  {
    forall c | c in b
      ensures Matches(c, queued)
    {
      if b != [] && SameLine(a, b) {
        assert b == [b[0]] + b[1..];
        assert a[0] in a;
        assert c == b[0] || c in a[1..];
      }
    }
  }

  lemma MoveMatches(d: Desk, e: Desk)
    requires CommandsMatch(d) && LineMoved(d, e)
    ensures CommandsMatch(e)
  {
    MatchKept(Line(d), Line(e), d.ledger.queued);
    if Line(d) != [] {
      assert Line(d)[0] in Line(d);
    }
  }

  lemma EnqueueMatches(d: Desk, r: Request, front: bool)
    requires CommandsMatch(d) && d.pc.Idle?
    ensures CommandsMatch(Enqueued(d, r, front))
  {
    var e := Enqueued(d, r, front);
    forall c | c in Line(e)
      ensures Matches(c, e.ledger.queued)
    {
      assert c in Line(d) || c == MakeCommand(|d.ledger.queued|, r);
    }
  }

  lemma DropMatches(d: Desk)
    requires CommandsMatch(d) && d.pc.Idle?
    ensures CommandsMatch(LightsPurged(d))
  {
    forall c
      ensures c in WithoutLights(d.handle.pending) ==> c in Line(d)
      ensures c in OnlyLights(d.handle.pending) ==> c in Line(d) && c.isLights
    {
      WithoutLightsMembers(d.handle.pending, c);
      OnlyLightsMembers(d.handle.pending, c);
    }
  }

  lemma CommandsMatchStep(s: State, step: Step)
    requires CommandsMatch(s.desk)
    ensures CommandsMatch(Apply(s, step).desk)
  {
    if step.Main? {
      MainMoves(s);
      MoveMatches(s.desk, MainStep(s).desk);
    } else if s.desk.pc.Idle? {
      if step.Queue? {
        EnqueueMatches(s.desk, step.request, step.front);
      } else if step.DropLights? {
        DropMatches(s.desk);
      }
    }
  }

  lemma {:induction false} CommandsAlwaysMatch(steps: seq<Step>)
    ensures CommandsMatch(Exec(OPENED, steps).desk)
  {
    if steps != [] {
      CommandsAlwaysMatch(steps[..|steps| - 1]);
      CommandsMatchStep(Exec(OPENED, steps[..|steps| - 1]), steps[|steps| - 1]);
    }
  }

  // ─── Conservation ─────────────────────────────────────────────────────────

  /** How often the request `id` occurs anywhere. */
  function Occurrences(d: Desk, id: nat): nat {
    Count(Line(d), id) + Count(d.ledger.finished, id) + Count(d.ledger.cancelled, id) + Count(d.ledger.dropped, id)
  }

  predicate Conserved(d: Desk, id: nat) {
    Occurrences(d, id) == if id < |d.ledger.queued| then 1 else 0
  }

  lemma CountCons(c: Command, cmds: seq<Command>, id: nat)
    ensures Count([c] + cmds, id) == (if c.id == id then 1 else 0) + Count(cmds, id)
  {
    assert ([c] + cmds)[1..] == cmds;
  }

  lemma CountSnoc(cmds: seq<Command>, c: Command, id: nat)
    ensures Count(cmds + [c], id) == Count(cmds, id) + (if c.id == id then 1 else 0)
  {
    CountAppend(cmds, [c], id);
    assert [c] + [] == [c];
    CountCons(c, [], id);
  }

  lemma MoveConserves(d: Desk, e: Desk, id: nat)
    requires Conserved(d, id) && LineMoved(d, e)
    ensures Conserved(e, id)
  {
    if Line(d) != [] {
      CountSnoc(d.ledger.finished, Line(d)[0], id);
      CountSnoc(d.ledger.cancelled, Line(d)[0], id);
    }
  }

  lemma EnqueueConserves(d: Desk, r: Request, front: bool, id: nat)
    requires Conserved(d, id) && d.pc.Idle?
    ensures Conserved(Enqueued(d, r, front), id)
  {
    var c := MakeCommand(|d.ledger.queued|, r);
    CountAppend(Holding(d), d.handle.pending, id);
    CountAppend(Holding(d), Enqueued(d, r, front).handle.pending, id);
    CountCons(c, d.handle.pending, id);
    CountSnoc(d.handle.pending, c, id);
  }

  lemma DropConserves(d: Desk, id: nat)
    requires Conserved(d, id) && d.pc.Idle?
    ensures Conserved(LightsPurged(d), id)
  {
    CountAppend(Holding(d), d.handle.pending, id);
    CountAppend(Holding(d), WithoutLights(d.handle.pending), id);
    LightsSplit(d.handle.pending, id);
    CountAppend(d.ledger.dropped, OnlyLights(d.handle.pending), id);
  }

  lemma CloseConserves(d: Desk, id: nat)
    requires Conserved(d, id) && d.pc.Idle?
    ensures Conserved(ClosedDesk(d), id)
  {
    CountAppend(d.ledger.cancelled, Line(d), id);
    assert Line(ClosedDesk(d)) == [];
  }

  lemma ConservedStep(s: State, step: Step, id: nat)
    requires OneHeld(s.desk) && Conserved(s.desk, id)
    ensures Conserved(Apply(s, step).desk, id)
  {
    if step.Main? {
      MainMoves(s);
      MoveConserves(s.desk, MainStep(s).desk, id);
    } else if s.desk.pc.Idle? {
      match step {
        case Queue(r, front) => EnqueueConserves(s.desk, r, front, id);
        case DropLights => DropConserves(s.desk, id);
        case Close => CloseConserves(s.desk, id);
        case _ =>
      }
    }
  }

  /** In every run each request is in exactly one place. */
  lemma {:induction false} CommandsConserved(steps: seq<Step>, id: nat)
    ensures Conserved(Exec(OPENED, steps).desk, id)
  {
    if steps != [] {
      var before := steps[..|steps| - 1];
      CommandsAlwaysMatch(before);
      CommandsConserved(before, id);
      ConservedStep(Exec(OPENED, before), steps[|steps| - 1], id);
    } else {
      assert Line(OPENED_DESK) == [MakeCommand(0, INFO_REQUEST)] + [];
      CountCons(MakeCommand(0, INFO_REQUEST), [], id);
    }
  }

  // ─── Callbacks ────────────────────────────────────────────────────────────

  function Runs(callbacks: seq<CallbackRun>, id: nat): nat {
    if callbacks == [] then 0 else (if callbacks[0].id == id then 1 else 0) + Runs(callbacks[1..], id)
  }

  lemma {:induction false} RunsAppend(a: seq<CallbackRun>, b: seq<CallbackRun>, id: nat)
    ensures Runs(a + b, id) == Runs(a, id) + Runs(b, id)
  {
    if a == [] {
      assert a + b == b;
    } else {
      RunsAppend(a[1..], b, id);
      assert (a + b)[1..] == a[1..] + b;
    }
  }

  /** How often the callback of request `id` should have run by now. */
  function Due(d: Desk, id: nat): nat {
    if id < |d.ledger.queued| && d.ledger.queued[id].HasCallback()
    then Count(d.ledger.finished, id) + Count(d.ledger.cancelled, id)
    else 0
  }

  predicate CallbacksAccounted(d: Desk, id: nat) {
    Runs(d.handle.callbacks, id) == Due(d, id)
  }

  lemma RunsOfOne(c: Command, response: seq<byte>, id: nat)
    ensures Runs(CallbackOf(c, response), id) == if c.hasCallback && c.id == id then 1 else 0
  {
  }

  lemma {:induction false} RunsOfCancelled(cmds: seq<Command>, queued: seq<Request>, id: nat)
    requires AllMatch(cmds, queued)
    ensures Runs(CancelRuns(cmds), id)
         == if id < |queued| && queued[id].HasCallback() then Count(cmds, id) else 0
  {
    if cmds != [] {
      assert cmds[0] in cmds;
      RunsAppend(CallbackOf(cmds[0], []), CancelRuns(cmds[1..]), id);
      RunsOfOne(cmds[0], [], id);
      RunsOfCancelled(cmds[1..], queued, id);
    }
  }

  /** Ids are handed out in order, so an id beyond the requests occurs nowhere. */
  lemma {:induction false} NoFutureIds(cmds: seq<Command>, queued: seq<Request>, id: nat)
    requires AllMatch(cmds, queued) && id >= |queued|
    ensures Count(cmds, id) == 0
  {
    if cmds != [] {
      assert cmds[0] in cmds;
      NoFutureIds(cmds[1..], queued, id);
    }
  }

  lemma MoveRuns(d: Desk, e: Desk, id: nat)
    requires CommandsMatch(d) && CallbacksAccounted(d, id) && LineMoved(d, e)
    ensures CallbacksAccounted(e, id)
  {
    if !LineKept(d, e) {
      var c := Line(d)[0];
      assert c in Line(d);
      var response :| e.handle.callbacks == d.handle.callbacks + CallbackOf(c, response);
      RunsAppend(d.handle.callbacks, CallbackOf(c, response), id);
      RunsOfOne(c, response, id);
      CountSnoc(d.ledger.finished, c, id);
      CountSnoc(d.ledger.cancelled, c, id);
    }
  }

  lemma EnqueueRuns(d: Desk, r: Request, front: bool, id: nat)
    requires CommandsMatch(d) && CallbacksAccounted(d, id)
    ensures CallbacksAccounted(Enqueued(d, r, front), id)
  {
    if id >= |d.ledger.queued| {
      NoFutureIds(d.ledger.finished, d.ledger.queued, id);
      NoFutureIds(d.ledger.cancelled, d.ledger.queued, id);
    }
  }

  lemma CloseRuns(d: Desk, id: nat)
    requires d.pc.Idle?
    requires CommandsMatch(d) && CallbacksAccounted(d, id)
    ensures CallbacksAccounted(ClosedDesk(d), id)
  {
    RunsAppend(d.handle.callbacks, CancelRuns(Line(d)), id);
    RunsOfCancelled(Line(d), d.ledger.queued, id);
    CountAppend(d.ledger.cancelled, Line(d), id);
  }

  lemma CallbacksStep(s: State, step: Step, id: nat)
    requires CommandsMatch(s.desk) && CallbacksAccounted(s.desk, id)
    ensures CallbacksAccounted(Apply(s, step).desk, id)
  {
    if step.Main? {
      MainMoves(s);
      MoveRuns(s.desk, MainStep(s).desk, id);
    } else if s.desk.pc.Idle? {
      match step {
        case Queue(r, front) => EnqueueRuns(s.desk, r, front, id);
        case Close => CloseRuns(s.desk, id);
        case _ =>
      }
    }
  }

  /** In every run a callback has run exactly as often as its request has ended with one. */
  lemma {:induction false} CallbacksExact(steps: seq<Step>, id: nat)
    ensures CallbacksAccounted(Exec(OPENED, steps).desk, id)
  {
    if steps != [] {
      var before := steps[..|steps| - 1];
      CommandsAlwaysMatch(before);
      CallbacksExact(before, id);
      CallbacksStep(Exec(OPENED, before), steps[|steps| - 1], id);
    }
  }

  /** No callback ever runs twice. */
  lemma CallbackAtMostOnce(steps: seq<Step>, id: nat)
    ensures Runs(Exec(OPENED, steps).desk.handle.callbacks, id) <= 1
  {
    CommandsConserved(steps, id);
    CallbacksExact(steps, id);
  }

  lemma {:induction false} DroppedHaveNoCallback(cmds: seq<Command>, queued: seq<Request>, id: nat)
    requires AllMatch(cmds, queued)
    requires forall c :: c in cmds ==> c.isLights
    requires id < |queued| && queued[id].HasCallback()
    ensures Count(cmds, id) == 0
  {
    if cmds != [] {
      assert cmds[0] in cmds;
      DroppedHaveNoCallback(cmds[1..], queued, id);
    }
  }

  /** Once `close` has run, the callback of every request queued so far has run exactly once. */
  lemma CloseEndsAll(steps: seq<Step>, id: nat)
    requires Exec(OPENED, steps).desk.pc.Idle?
    requires id < |Exec(OPENED, steps).desk.ledger.queued|
    ensures var d := Apply(Exec(OPENED, steps), Close).desk;
      && Line(d) == []
      && Runs(d.handle.callbacks, id) == if d.ledger.queued[id].HasCallback() then 1 else 0
  {
    var all := steps + [Close];
    assert all[..|all| - 1] == steps;
    var d := Exec(OPENED, all).desk;
    CommandsConserved(all, id);
    CallbacksExact(all, id);
    CommandsAlwaysMatch(all);
    if d.ledger.queued[id].HasCallback() {
      DroppedHaveNoCallback(d.ledger.dropped, d.ledger.queued, id);
    }
  }
}
