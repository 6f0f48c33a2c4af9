/**
 The light scheduler as it is written: an object whose methods rewrite the staged
 commands in place and queue the due ones on the pads' command handles, proved
 against the value functions of `LightQueue` and `LightSystem`.
 */
module LightScheduler {
  import opened Bytes
  import opened LightCodec
  import opened LightQueue
  import opened CommandQueue
  import opened Connection
  import P = Pipeline
  import opened LightRelease
  import S = LightSystem

  // ─── What reaches one handle ──────────────────────────────────────────────

  /** The bodies the staged commands `es` hold for one pad, in order. */
  function BodiesFor(es: seq<Entry>, pad: Pad): seq<seq<byte>> {
    if es == [] then []
    else BodiesFor(es[..|es| - 1], pad) + BodyList(es[|es| - 1].body.At(pad))
  }

  function BodyList(body: seq<byte>): seq<seq<byte>> {
    if body == [] then [] else [body]
  }

  /** The handle after `bodies` are queued as lights; `from` requests came before. */
  function LightsQueued(h: Handle, from: nat, bodies: seq<seq<byte>>): Handle {
    if bodies == [] then h
    else
      var n := |bodies| - 1;
      QueuedBack(LightsQueued(h, from, bodies[..n]), MakeCommand(from + n, LightsRequest(bodies[n])))
  }

  lemma LightsQueuedMore(h: Handle, from: nat, bodies: seq<seq<byte>>, body: seq<byte>)
    ensures LightsQueued(h, from, bodies + [body])
         == QueuedBack(LightsQueued(h, from, bodies), MakeCommand(from + |bodies|, LightsRequest(body)))
  {
    assert (bodies + [body])[..|bodies|] == bodies;
  }

  lemma BodiesMore(es: seq<Entry>, n: nat, pad: Pad)
    requires n < |es|
    ensures BodiesFor(es[..n + 1], pad) == BodiesFor(es[..n], pad) + BodyList(es[n].body.At(pad))
  {
    assert es[..n + 1][..n] == es[..n];
  }

  // ─── Writing into a staged frame ──────────────────────────────────────────

  predicate EndsInFrame(es: seq<Entry>) {
    && |es| >= 3
    && es[|es| - 3].part == Inner && es[|es| - 2].part == Upper && es[|es| - 1].part == Lower
  }

  /** What a call has for one pad: its three commands, or three empty ones. */
  function PadCommands(call: Call, pad: Pad): seq<seq<byte>>
    requires ValidCall(call)
  {
    if !call.pads.At(pad) then [[], [], []]
    else
      var data := call.data.At(pad);
      [LightsBody(data, Inner), LightsBody(data, Upper), LightsBody(data, Lower)]
  }

  function PadWritten(es: seq<Entry>, call: Call, index: nat, version: Option<byte>, pad: Pad): seq<Entry>
    requires EndsInFrame(es) && ValidCall(call)
  {
    es[..|es| - 3] + [RewrittenPad(es[|es| - 3], call, index, version, pad),
                      RewrittenPad(es[|es| - 2], call, index, version, pad),
                      RewrittenPad(es[|es| - 1], call, index, version, pad)]
  }

  lemma NothingWritten(es: seq<Entry>, call: Call, index: nat, pad: Pad)
    requires EndsInFrame(es) && ValidCall(call)
    ensures PadWritten(es, call, index, None, pad) == es
  {
  }

  lemma BothWritten(q: Stage, call: Call, index: nat, versions: Pair<Option<byte>>)
    requires EndsInFrame(q.entries) && ValidCall(call)
    ensures var half := PadWritten(q.entries, call, index, versions.first, 0);
      EndsInFrame(half) && PadWritten(half, call, index, versions.second, 1)
        == Replaced(q, call, index, versions).entries
  {
    var half := PadWritten(q.entries, call, index, versions.first, 0);
    assert half[..|half| - 3] == q.entries[..|q.entries| - 3];
  }

  // ─── The scheduler ────────────────────────────────────────────────────────

  class LightScheduler {
    var pendingLights: seq<Entry>
    var delayLightsUntil: Option<nat>
    var panelTestMode: bool
    var calls: seq<Call>                // calls that set lights so far
    var triples: nat                    // frames staged so far
    var starts: seq<nat>                // when each of them may start

    constructor ()
      ensures View() == EMPTY_STAGE && !panelTestMode && Scheduled(View())
    {
      pendingLights, delayLightsUntil, panelTestMode := [], None, false;
      calls, triples, starts := [], 0, [];
    }

    function View(): Stage
      reads this
    {
      Stage(pendingLights, delayLightsUntil, calls, triples, starts)
    }

    /** The three commands of one pad, empty when the pad is not selected. */
    method EncodePad(lightData: seq<byte>, pads: Pair<bool>, pad: Pad) returns (cmds: seq<seq<byte>>)
      requires FrameData(lightData)
      ensures cmds == PadCommands(MakeCall(lightData, pads), pad)
    {
      if !pads.At(pad) {
        return [[], [], []];
      }
      var bytesPerPad := |lightData| / 2;
      var padData := if pad == 0 then lightData[..bytesPerPad] else lightData[bytesPerPad..];
      var cmd4, cmd2, cmd3 := EncodeLights(padData);
      cmds := [cmd4, cmd2, cmd3];
    }

    /** Copies one pad's commands into the last three staged ones. */
    method WritePad(ghost call: Call, index: nat, pad: Pad, version: byte, cmds: seq<seq<byte>>)
      requires EndsInFrame(pendingLights) && ValidCall(call) && cmds == PadCommands(call, pad)
      modifies this`pendingLights
      ensures EndsInFrame(pendingLights)
      ensures pendingLights == PadWritten(old(pendingLights), call, index, Some(version), pad)
    {
      var base := |pendingLights| - 3;
      var e0, e1, e2 := pendingLights[base], pendingLights[base + 1], pendingLights[base + 2];
      var inner := if version >= 4 then cmds[0] else [];
      var f0 := e0.(body := e0.body.With(pad, inner), calls := e0.calls.With(pad, index));
      var f1 := e1.(body := e1.body.With(pad, cmds[1]), calls := e1.calls.With(pad, index));
      var f2 := e2.(body := e2.body.With(pad, cmds[2]), calls := e2.calls.With(pad, index));
      pendingLights := pendingLights[base := f0][base + 1 := f1][base + 2 := f2];
    }

    /** Writes both pads; a pad without a config keeps what is there. */
    method WritePads(ghost call: Call, index: nat, versions: Pair<Option<byte>>, cmds: Pair<seq<seq<byte>>>)
      requires EndsInFrame(pendingLights) && ValidCall(call)
      requires cmds == Pair(PadCommands(call, 0), PadCommands(call, 1))
      modifies this`pendingLights
      ensures pendingLights == Replaced(old(View()), call, index, versions).entries
    {
      ghost var was := pendingLights;
      if versions.first.Some? {
        WritePad(call, index, 0, versions.first.value, cmds.first);
      } else {
        NothingWritten(was, call, index, 0);
      }
      ghost var half := pendingLights;
      if versions.second.Some? {
        WritePad(call, index, 1, versions.second.value, cmds.second);
      } else {
        NothingWritten(half, call, index, 1);
      }
      BothWritten(View().(entries := was), call, index, versions);
    }

    /** Three empty commands for the next frame. */
    method StageFrame(index: nat, isV4: bool, now: nat)
      modifies this`pendingLights, this`delayLightsUntil, this`triples, this`starts
      ensures var start := StartTime(old(View()), now);
        && pendingLights == old(pendingLights) + EmptyFrame(start, isV4, old(triples), index)
        && delayLightsUntil == Some(start + FRAME_INTERVAL)
        && triples == old(triples) + 1 && starts == old(starts) + [start]
    {
      var sendAt := if delayLightsUntil.Some? && delayLightsUntil.value > now then delayLightsUntil.value else now;
      delayLightsUntil := Some(sendAt + FRAME_INTERVAL);
      pendingLights := pendingLights + EmptyFrame(sendAt, isV4, triples, index);
      triples, starts := triples + 1, starts + [sendAt];
    }

    static function EmptyFrame(start: nat, isV4: bool, triple: nat, index: nat): seq<Entry> {
      var none: Pair<seq<byte>> := Pair([], []);
      var both := Pair(index, index);
      [Entry(start, none, triple, Inner, both),
       Entry(start, none, triple, Upper, both),
       Entry(if isV4 then start else start + LEGACY_COMMAND_DELAY, none, triple, Lower, both)]
    }

    /** Replaces the last frame when one is wholly staged, or stages another. */
    method StageCall(call: Call, index: nat, versions: Pair<Option<byte>>, cmds: Pair<seq<seq<byte>>>, now: nat)
      requires ValidCall(call) && cmds == Pair(PadCommands(call, 0), PadCommands(call, 1))
      requires |pendingLights| >= 3 ==> EndsInFrame(pendingLights)
      modifies this`pendingLights, this`delayLightsUntil, this`triples, this`starts
      ensures View() ==
        if |old(pendingLights)| >= 3 then Replaced(old(View()), call, index, versions)
        else if AnyConfig(versions) then Appended(old(View()), call, index, versions, now)
        else old(View())
    {
      if |pendingLights| >= 3 {
        WritePads(call, index, versions, cmds);
      } else if versions.first.Some? || versions.second.Some? {
        StageFrame(index, IsVersion4(versions.first) || IsVersion4(versions.second), now);
        WritePads(call, index, versions, cmds);
        FrameFilled(old(View()), call, index, versions, now);
      }
    }

    /** Sets the lights: `versions` are the master versions of the pads that have a config. */
    method SetLights(lightData: seq<byte>, pads: Pair<bool>, versions: Pair<Option<byte>>, now: nat)
      requires Scheduled(View())
      modifies this
      ensures View() == LightsSet(old(View()), lightData, pads, versions, panelTestMode, now)
      ensures Scheduled(View()) && panelTestMode == old(panelTestMode)
    {
      SetLightsScheduled(View(), lightData, pads, versions, panelTestMode, now);
      if panelTestMode || !FrameData(lightData) {
        return;
      }
      var call := MakeCall(lightData, pads);
      var index := |calls|;
      if |pendingLights| >= 3 {
        ScheduledEndsInFrame(View());
      }
      calls := calls + [call];
      var first := EncodePad(lightData, pads, 0);
      var second := EncodePad(lightData, pads, 1);
      StageCall(call, index, versions, Pair(first, second), now);
    }

    // ─── Handing over ───────────────────────────────────────────────────────

    /** Queues the staged commands that are due, unless some pad still has lights unsent. */
    method SendPending(first: CommandHandle?, second: CommandHandle?, now: nat)
      requires first != null && second != null ==> first != second
      modifies this`pendingLights, first, second
      ensures var gated := (first != null && HasUnsentLights(old(first.View())))
                        || (second != null && HasUnsentLights(old(second.View())));
        var n := if gated then 0 else DueCount(old(pendingLights), now);
        var due := old(pendingLights)[..n];
        && View() == Drained(old(View()), n)
        && (first != null ==>
              first.View() == LightsQueued(old(first.View()), old(first.requests), BodiesFor(due, 0)))
        && (second != null ==>
              second.View() == LightsQueued(old(second.View()), old(second.requests), BodiesFor(due, 1)))
    {
      var gated := AnyUnsent(first, second);
      if gated {
        return;
      }
      var consumed := HandOverDue(first, second, now);
      if consumed > 0 {
        pendingLights := pendingLights[consumed..];
      }
    }

    method AnyUnsent(first: CommandHandle?, second: CommandHandle?) returns (any: bool)
      ensures any == ((first != null && HasUnsentLights(first.View()))
                      || (second != null && HasUnsentLights(second.View())))
    {
      any := false;
      if first != null {
        any := first.AnyUnsentLights();
      }
      if !any && second != null {
        any := second.AnyUnsentLights();
      }
    }

    method HandOverDue(first: CommandHandle?, second: CommandHandle?, now: nat) returns (consumed: nat)
      requires first != null && second != null ==> first != second
      modifies first, second
      ensures consumed == DueCount(pendingLights, now)
      ensures first != null ==> HandedTo(first, old(first.View()), old(first.requests), pendingLights, consumed, 0)
      ensures second != null ==> HandedTo(second, old(second.View()), old(second.requests), pendingLights, consumed, 1)
    {
      consumed := 0;
      while consumed < |pendingLights| && pendingLights[consumed].sendAt <= now
        invariant consumed <= |pendingLights|
        invariant DueCount(pendingLights, now) == consumed + DueCount(pendingLights[consumed..], now)
        invariant first != null ==> HandedTo(first, old(first.View()), old(first.requests), pendingLights, consumed, 0)
        invariant second != null ==> HandedTo(second, old(second.View()), old(second.requests), pendingLights, consumed, 1)
        decreases |pendingLights| - consumed
      {
        assert pendingLights[consumed..][1..] == pendingLights[consumed + 1..];
        if first != null {
          HandOver(first, old(first.View()), old(first.requests), pendingLights, consumed, 0);
        }
        if second != null {
          HandOver(second, old(second.View()), old(second.requests), pendingLights, consumed, 1);
        }
        consumed := consumed + 1;
      }
    }

    /** The first `n` staged commands are queued on `conn`. */
    static ghost predicate HandedTo(conn: CommandHandle, was: Handle, from: nat, es: seq<Entry>, n: nat, pad: Pad)
      requires n <= |es|
      reads conn, conn.reassembler
    {
      && conn.View() == LightsQueued(was, from, BodiesFor(es[..n], pad))
      && conn.requests == from + |BodiesFor(es[..n], pad)|
    }

    /** One staged command, for one pad. */
    static method HandOver(conn: CommandHandle, ghost was: Handle, ghost from: nat, es: seq<Entry>, n: nat, pad: Pad)
      requires n < |es| && HandedTo(conn, was, from, es, n, pad)
      modifies conn
      ensures HandedTo(conn, was, from, es, n + 1, pad)
    {
      BodiesMore(es, n, pad);
      var body := es[n].body.At(pad);
      if |body| > 0 {
        LightsQueuedMore(was, from, BodiesFor(es[..n], pad), body);
        conn.SendCommandLights(body);
      } else {
        assert BodiesFor(es[..n + 1], pad) == BodiesFor(es[..n], pad);
      }
    }

    /** Takes one pad out of every staged command, drops what its handle holds and asks for auto lights. */
    method ReenableAutoLights(pad: Pad, conn: CommandHandle?)
      modifies this`pendingLights, conn
      ensures View() == PadMuted(old(View()), pad)
      ensures conn != null ==>
        conn.View() == QueuedBack(LightsDropped(old(conn.View())),
                                  MakeCommand(old(conn.requests), PlainRequest(S.AUTO_LIGHTS_ON, false)))
    {
      ghost var staged := pendingLights;
      for i := 0 to |pendingLights|
        modifies this`pendingLights
        invariant |pendingLights| == |staged|
        invariant forall k :: 0 <= k < i ==> pendingLights[k] == Muted(staged[k], pad)
        invariant forall k :: i <= k < |staged| ==> pendingLights[k] == staged[k]
      {
        pendingLights := pendingLights[i := Muted(pendingLights[i], pad)];
      }
      if conn != null {
        conn.DropQueuedLights();
        conn.SendCommand(S.AUTO_LIGHTS_ON, false);
      }
    }
  }

  lemma ScheduledEndsInFrame(q: Stage)
    requires Scheduled(q) && |q.entries| >= 3
    ensures EndsInFrame(q.entries)
  {
  }

  /** Filling an empty frame gives the frame that is appended. */
  lemma FrameFilled(q: Stage, call: Call, index: nat, versions: Pair<Option<byte>>, now: nat)
    requires ValidCall(call)
    ensures var start := StartTime(q, now);
      var empty := LightScheduler.EmptyFrame(
        start, IsVersion4(versions.first) || IsVersion4(versions.second), q.triples, index);
      Replaced(q.(entries := q.entries + empty), call, index, versions).entries
        == Appended(q, call, index, versions, now).entries
  {
    var start := StartTime(q, now);
    var empty := LightScheduler.EmptyFrame(
      start, IsVersion4(versions.first) || IsVersion4(versions.second), q.triples, index);
    var all := q.entries + empty;
    assert all[..|all| - 3] == q.entries;
    var frame := FrameEntries(call, index, q.triples, versions, start);
    forall k | 0 <= k < 3
      ensures Rewritten(empty[k], call, index, versions) == frame[k]
    {
    }
  }

  // ─── The composed system does the same ────────────────────────────────────

  /** The lights queued on one slot of `m` between two states of it. */
  predicate SlotQueued(before: Option<P.State>, after: Option<P.State>, bodies: seq<seq<byte>>) {
    if before.None? then after.None?
    else
      var was := before.value.desk;
      && after.Some?
      && after.value.desk.handle == LightsQueued(was.handle, |was.ledger.queued|, bodies)
      && |after.value.desk.ledger.queued| == |was.ledger.queued| + |bodies|
  }

  /** Handing over in the composed system queues the same lights on each connected pad. */
  lemma {:induction false} SystemQueuesTheSame(m: S.Manager, n: nat, pad: Pad)
    requires S.Locked(m) && n <= |m.stage.entries|
    ensures S.Locked(S.HandOverFirst(m, n))
    ensures SlotQueued(m.slots.At(pad), S.HandOverFirst(m, n).slots.At(pad), BodiesFor(m.stage.entries[..n], pad))
  {
    if n > 0 {
      SystemQueuesTheSame(m, n - 1, pad);
      var before := S.HandOverFirst(m, n - 1);
      var e := m.stage.entries[n - 1];
      BodiesMore(m.stage.entries, n - 1, pad);
      EntryQueues(before, e, pad);
      SlotQueuesMore(m.slots.At(pad), before.slots.At(pad), S.HandOverEntry(before, e).slots.At(pad),
                     BodiesFor(m.stage.entries[..n - 1], pad), e.body.At(pad));
    }
  }

  lemma SlotQueuesMore(before: Option<P.State>, middle: Option<P.State>, after: Option<P.State>,
                       bodies: seq<seq<byte>>, body: seq<byte>)
    requires SlotQueued(before, middle, bodies) && SlotQueued(middle, after, BodyList(body))
    ensures SlotQueued(before, after, bodies + BodyList(body))
  {
    if before.Some? {
      var was := before.value.desk;
      if body == [] {
        assert bodies + BodyList(body) == bodies;
      } else {
        LightsQueuedMore(was.handle, |was.ledger.queued|, bodies, body);
        LightsQueuedMore(middle.value.desk.handle, |middle.value.desk.ledger.queued|, [], body);
        assert [] + [body] == [body];
      }
    }
  }

  lemma EntryQueues(m: S.Manager, e: Entry, pad: Pad)
    requires S.Locked(m)
    ensures S.Locked(S.HandOverEntry(m, e))
    ensures SlotQueued(m.slots.At(pad), S.HandOverEntry(m, e).slots.At(pad), BodyList(e.body.At(pad)))
  {
    var half := S.HandOverPad(m, e, 0);
    PadQueues(m, e, 0);
    PadQueues(half, e, 1);
  }

  lemma PadQueues(m: S.Manager, e: Entry, pad: Pad)
    requires S.Locked(m)
    ensures S.Locked(S.HandOverPad(m, e, pad))
    ensures SlotQueued(m.slots.At(pad), S.HandOverPad(m, e, pad).slots.At(pad), BodyList(e.body.At(pad)))
    ensures S.HandOverPad(m, e, pad).slots.At(1 - pad) == m.slots.At(1 - pad)
  {
    if e.body.At(pad) != [] && m.slots.At(pad).Some? {
      var s := m.slots.At(pad).value;
      var r := LightsRequest(e.body.At(pad));
      assert s.desk.pc.Idle?;
      assert P.Apply(s, P.Queue(r, false)).desk == P.Enqueued(s.desk, r, false);
      LightsQueuedMore(s.desk.handle, |s.desk.ledger.queued|, [], e.body.At(pad));
      assert [] + [e.body.At(pad)] == [e.body.At(pad)];
      var other: Pad := 1 - pad;
      assert m.slots.At(other).Some? ==> m.slots.At(other).value.desk.pc.Idle?;
    }
  }

  /** The gate of the composed system is the object's: some connected handle has unsent lights. */
  lemma GatesAgree(m: S.Manager)
    ensures S.Gated(m) <==>
      || (m.slots.first.Some? && HasUnsentLights(m.slots.first.value.desk.handle))
      || (m.slots.second.Some? && HasUnsentLights(m.slots.second.value.desk.handle))
  {
    if m.slots.first.Some? {
      UnsentLightsCounted(m.slots.first.value.desk.handle.pending);
    }
    if m.slots.second.Some? {
      UnsentLightsCounted(m.slots.second.value.desk.handle.pending);
    }
  }

  /**
   Sending pending lights in the composed system is what the object does: nothing when gated,
   else exactly the due commands on each connected pad, which leave the queue.
   */
  lemma SystemSendsTheSame(m: S.Manager, pad: Pad)
    requires S.Locked(m)
    ensures var n := if S.Gated(m) then 0 else DueCount(m.stage.entries, m.now);
      && S.LightsSent(m).stage == Drained(m.stage, n)
      && SlotQueued(m.slots.At(pad), S.LightsSent(m).slots.At(pad), BodiesFor(m.stage.entries[..n], pad))
  {
    if !S.Gated(m) {
      SystemQueuesTheSame(m, DueCount(m.stage.entries, m.now), pad);
    }
  }

  /** Handing a pad back in the composed system does to stage and handle what the object does. */
  lemma SystemReenablesTheSame(m: S.Manager, pad: Pad)
    requires S.Locked(m)
    ensures S.AutoLightsReenabled(m, pad).stage == PadMuted(m.stage, pad)
    ensures m.slots.At(pad).Some? ==>
      var was, after := m.slots.At(pad).value.desk, S.AutoLightsReenabled(m, pad).slots.At(pad);
      && after.Some?
      && after.value.desk.handle
         == QueuedBack(LightsDropped(was.handle),
                       MakeCommand(|was.ledger.queued|, PlainRequest(S.AUTO_LIGHTS_ON, false)))
  {
    assert m.slots.At(pad).Some? ==> m.slots.At(pad).value.desk.pc.Idle?;
  }
}
