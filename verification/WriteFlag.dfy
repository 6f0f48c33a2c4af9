/**
 What `write_in_flight` really says. Its comments take a cleared flag to mean that
 nothing handed over is still to be written; the writer's late clear breaks that.
 */
module WriteFlag {
  import opened Bytes
  import opened Protocol
  import opened Framing
  import opened CommandQueue
  import opened Pipeline
  import opened WireOrder
  import C = Connection

  /** A job waits in the channel or is being written. */
  predicate Outstanding(l: Link) {
    l.channel != [] || l.writer.Writing?
  }

  /** The flag is up while a job is outstanding. */
  predicate FlagHonest(l: Link) {
    Outstanding(l) ==> l.writeInFlight
  }

  /**
   The two ways out: the writer clears the flag although the next job is already in the
   channel, or it cleared it between the main thread's store and the send.
   */
  predicate LateClear(s: State, step: Step) {
    || (step.Writer? && s.link.writer.ClearInFlight? && s.link.channel != [])
    || (step.Main? && s.desk.pc.HandOff? && ChannelOpen(s.link) && !s.link.writeInFlight)
  }

  /** The sender lives as long as the handle; a closed receiver leaves an empty channel. */
  predicate Ends(s: State) {
    && (s.link.senderOpen <==> !s.desk.pc.Gone?)
    && (!s.link.receiverOpen ==> s.link.channel == [] && s.link.writer.Exited?)
    && (s.desk.pc.HandOffFailed? ==> !s.link.receiverOpen)
  }

  lemma WriterEnds(s: State, ok: bool)
    requires Ends(s)
    ensures Ends(Apply(s, Writer(ok)))
  {
  }

  lemma MainEnds(s: State)
    requires Ends(s)
    ensures Ends(MainStep(s))
  {
  }

  lemma EndsStep(s: State, step: Step)
    requires Ends(s)
    ensures Ends(Apply(s, step))
  {
    if step.Writer? {
      WriterEnds(s, step.ok);
    } else if step.Main? {
      MainEnds(s);
    }
  }

  lemma {:induction false} EndsAlways(steps: seq<Step>)
    ensures Ends(Exec(OPENED, steps))
  {
    if steps != [] {
      EndsAlways(steps[..|steps| - 1]);
      EndsStep(Exec(OPENED, steps[..|steps| - 1]), steps[|steps| - 1]);
    }
  }

  lemma WriterFlag(l: Link, ok: bool)
    requires FlagHonest(l)
    ensures !FlagHonest(WriterStep(l, ok)) <==> l.writer.ClearInFlight? && l.channel != []
  {
  }

  lemma MainFlag(s: State)
    requires Ends(s) && FlagHonest(s.link)
    ensures !FlagHonest(MainStep(s).link) <==> s.desk.pc.HandOff? && ChannelOpen(s.link) && !s.link.writeInFlight
  {
  }

  /** In any run, a step makes an honest flag lie exactly in these two situations. */
  lemma FlagLiesExactly(steps: seq<Step>, step: Step)
    requires FlagHonest(Exec(OPENED, steps).link)
    ensures !FlagHonest(Exec(OPENED, steps + [step]).link) <==> LateClear(Exec(OPENED, steps), step)
  {
    var s := Exec(OPENED, steps);
    assert (steps + [step])[..|steps|] == steps;
    EndsAlways(steps);
    if step.Writer? {
      WriterFlag(s.link, step.ok);
    } else if step.Main? {
      MainFlag(s);
    } else {
      OthersTouchFlags(s, step);
    }
  }

  predicate HonestThroughout(steps: seq<Step>) {
    forall n :: 0 <= n <= |steps| ==> FlagHonest(Exec(OPENED, steps[..n]).link)
  }

  predicate NoLateClear(steps: seq<Step>) {
    forall n :: 0 <= n < |steps| ==> !LateClear(Exec(OPENED, steps[..n]), steps[n])
  }

  lemma NextPrefix(steps: seq<Step>, n: nat)
    requires n < |steps| && FlagHonest(Exec(OPENED, steps[..n]).link)
    ensures FlagHonest(Exec(OPENED, steps[..n + 1]).link) <==> !LateClear(Exec(OPENED, steps[..n]), steps[n])
  {
    assert steps[..n + 1] == steps[..n] + [steps[n]];
    FlagLiesExactly(steps[..n], steps[n]);
  }

  lemma {:induction false} HonestUpTo(steps: seq<Step>, n: nat)
    requires n <= |steps| && NoLateClear(steps)
    ensures FlagHonest(Exec(OPENED, steps[..n]).link)
  {
    if n > 0 {
      HonestUpTo(steps, n - 1);
      NextPrefix(steps, n - 1);
    }
  }

  /** The flag is honest after every prefix of a run exactly when no step of the run is a late clear. */
  lemma HonestRunsExactly(steps: seq<Step>)
    ensures HonestThroughout(steps) <==> NoLateClear(steps)
  {
    if NoLateClear(steps) {
      forall n | 0 <= n <= |steps|
        ensures FlagHonest(Exec(OPENED, steps[..n]).link)
      {
        HonestUpTo(steps, n);
      }
    }
    if HonestThroughout(steps) {
      forall n | 0 <= n < |steps|
        ensures !LateClear(Exec(OPENED, steps[..n]), steps[n])
      {
        assert FlagHonest(Exec(OPENED, steps[..n]).link) && FlagHonest(Exec(OPENED, steps[..n + 1]).link);
        NextPrefix(steps, n);
      }
    }
  }

  // ─── A run in which it happens ────────────────────────────────────────────

  lemma {:induction false} ExecAppend(s: State, a: seq<Step>, b: seq<Step>)
    ensures Exec(Exec(s, a), b) == Exec(s, a + b)
    decreases |b|
  {
    if b == [] {
      assert a + b == a;
    } else {
      ExecAppend(s, a, b[..|b| - 1]);
      assert (a + b)[..|a + b| - 1] == a + b[..|b| - 1];
    }
  }

  lemma OneStep(s: State, step: Step)
    ensures Exec(s, [step]) == Apply(s, step)
  {
    assert [step][..0] == [];
  }

  lemma {:induction false} MainRun(s: State, k: nat) returns (steps: seq<Step>)
    ensures Exec(s, steps) == C.MainSteps(s, k)
  {
    if k == 0 {
      steps := [];
    } else {
      var before := MainRun(s, k - 1);
      steps := before + [Main];
      assert steps[..|steps| - 1] == before;
    }
  }

  const INFO_REPLY: seq<byte> := [HID_REPORT_DATA, FLAG_DEVICE_INFO, 0]
  const NEXT := PlainRequest([0x67, 0x0A], false)

  /** The information request is current and in the channel. */
  lemma Opening() returns (steps: seq<Step>, s: State)
    ensures s == Exec(OPENED, steps)
    ensures s.desk.pc.Idle? && s.desk.handle.pending == [] && !s.desk.handle.active
    ensures s.desk.handle.current == Some(MakeCommand(0, INFO_REQUEST))
    ensures s.inbox.poll.Polling? && s.inbox.buffer == [] && !s.inbox.readError
    ensures s.link == Sent(EMPTY_LINK.(writeInFlight := true), Job(0, [DeviceInfoRequest()]))
  {
    var k := C.UpdateIsItsSteps(OPENED);
    steps := MainRun(OPENED, k);
    s := Exec(OPENED, steps);
    assert Frames([]) == [] && Rest([]) == [];
    assert MakeCommand(0, INFO_REQUEST).packets == [DeviceInfoRequest()];
  }

  lemma TwoSteps(s: State, a: Step, b: Step)
    ensures Exec(s, [a, b]) == Apply(Apply(s, a), b)
  {
    OneStep(s, a);
    assert [a, b][..1] == [a];
  }

  lemma ThreeSteps(s: State, a: Step, b: Step, c: Step)
    ensures Exec(s, [a, b, c]) == Apply(Apply(Apply(s, a), b), c)
  {
    TwoSteps(s, a, b);
    assert [a, b, c][..2] == [a, b];
  }

  /** The writer puts the request on the wire and is about to clear the flag. */
  lemma FirstWritten(s: State)
    requires s.link == Sent(EMPTY_LINK.(writeInFlight := true), Job(0, [DeviceInfoRequest()]))
    ensures var t := Exec(s, [Writer(true), Writer(true)]);
      && t == s.(link := t.link)
      && t.link.writer.ClearInFlight? && t.link.channel == [] && t.link.writeInFlight
      && ChannelOpen(t.link) && !t.link.writeError
  {
    TwoSteps(s, Writer(true), Writer(true));
  }

  lemma ReplyAccepted()
    ensures Accepted(INFO_REPLY) == [INFO_REPLY] && Concat([INFO_REPLY]) == INFO_REPLY
  {
    assert PacketLength(INFO_REPLY) == 3 && INFO_REPLY[..3] == INFO_REPLY;
    assert [INFO_REPLY][1..] == [];
    assert Concat([INFO_REPLY]) == INFO_REPLY + [];
  }

  /** The answer arrives. */
  lemma Arriving(s: State)
    requires s.inbox.poll.Polling? && s.inbox.buffer == [] && !s.inbox.readError
    ensures var t := Exec(s, [PollBegin, PollRead(INFO_REPLY), PollEnd]);
      && t == s.(inbox := t.inbox)
      && t.inbox.poll.Polling? && t.inbox.buffer == INFO_REPLY && !t.inbox.readError
  {
    ThreeSteps(s, PollBegin, PollRead(INFO_REPLY), PollEnd);
    ReplyAccepted();
    assert [] + [INFO_REPLY] == [INFO_REPLY] && [] + INFO_REPLY == INFO_REPLY;
  }

  /** Meanwhile another command is queued. */
  lemma Answering(s: State) returns (steps: seq<Step>, t: State)
    requires s.desk.pc.Idle? && s.inbox.poll.Polling? && s.inbox.buffer == [] && !s.inbox.readError
    requires s.link == Sent(EMPTY_LINK.(writeInFlight := true), Job(0, [DeviceInfoRequest()]))
    ensures t == Exec(s, steps)
    ensures t.desk == Enqueued(s.desk, NEXT, false) && t.now == s.now
    ensures t.inbox.poll.Polling? && t.inbox.buffer == INFO_REPLY && !t.inbox.readError
    ensures t.link.writer.ClearInFlight? && t.link.channel == [] && t.link.writeInFlight
    ensures ChannelOpen(t.link) && !t.link.writeError
  {
    var writing := [Writer(true), Writer(true)];
    var reading := [PollBegin, PollRead(INFO_REPLY), PollEnd];
    FirstWritten(s);
    Arriving(Exec(s, writing));
    ExecAppend(s, writing, reading);
    var b := Exec(s, writing + reading);
    t := Apply(b, Queue(NEXT, false));
    OneStep(b, Queue(NEXT, false));
    ExecAppend(s, writing + reading, [Queue(NEXT, false)]);
    steps := writing + reading + [Queue(NEXT, false)];
  }

  lemma ReplyCompletes(h: Handle)
    requires h.current.Some? && h.current.value.isDeviceInfo
    ensures AllHandled(h, Frames(INFO_REPLY)).current.None?
    ensures AllHandled(h, Frames(INFO_REPLY)).pending == h.pending
  {
    assert HasFrame(INFO_REPLY) && PacketLength(INFO_REPLY) == 3;
    assert INFO_REPLY[..3] == INFO_REPLY && INFO_REPLY[3..] == [];
    assert Frames(INFO_REPLY) == [INFO_REPLY] + Frames([]) == [INFO_REPLY];
    assert HasFlag(INFO_REPLY[1], FLAG_DEVICE_INFO);
    assert ParseReport6(INFO_REPLY).Some? && ParseReport6(INFO_REPLY).value.DeviceInfo?;
    assert [INFO_REPLY][1..] == [];
  }

  /** The answer completes the request and the next command is handed over; then the late clear comes. */
  lemma HandingOver(t: State) returns (steps: seq<Step>)
    requires t.desk.pc.Idle? && t.desk.handle.pending != []
    requires t.desk.handle.current.Some? && t.desk.handle.current.value.isDeviceInfo && !t.desk.handle.current.value.sent
    requires t.inbox.buffer == INFO_REPLY && !t.inbox.readError
    requires t.link.writer.ClearInFlight? && ChannelOpen(t.link) && !t.link.writeError
    ensures var l := Exec(t, steps).link; !l.writeInFlight && l.channel != []
  {
    ReplyCompletes(t.desk.handle);
    var k := C.UpdateIsItsSteps(t);
    var handing := MainRun(t, k);
    var u := Exec(t, handing);
    OneStep(u, Writer(true));
    ExecAppend(t, handing, [Writer(true)]);
    steps := handing + [Writer(true)];
  }

  /**
   The flag can be down while a command that was handed over has not been written at all:
   a concrete run ends there.
   */
  lemma FlagCanLie() returns (steps: seq<Step>)
    ensures var l := Exec(OPENED, steps).link; !l.writeInFlight && l.channel != []
  {
    var opening, s := Opening();
    var answering, t := Answering(s);
    var handing := HandingOver(t);
    ExecAppend(OPENED, opening, answering);
    ExecAppend(OPENED, opening + answering, handing);
    steps := opening + answering + handing;
  }
}
