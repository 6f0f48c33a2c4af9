/**
 What reaches the wire: the packets of the handed-off jobs, in hand-off order and
 without gaps, up to the first failed write; so the device reassembles exactly
 the handed-off commands.
 */
module WireOrder {
  import opened Bytes
  import opened Protocol
  import opened CommandQueue
  import opened Pipeline
  import opened Conservation

  // ─── The link invariant ───────────────────────────────────────────────────

  function JobPackets(jobs: seq<Job>): seq<Packet> {
    if jobs == [] then [] else jobs[0].packets + JobPackets(jobs[1..])
  }

  lemma {:induction false} JobPacketsAppend(a: seq<Job>, b: seq<Job>)
    ensures JobPackets(a + b) == JobPackets(a) + JobPackets(b)
  {
    if a == [] {
      assert a + b == b;
    } else {
      JobPacketsAppend(a[1..], b);
      assert (a + b)[0] == a[0] && (a + b)[1..] == a[1..] + b;
      Assoc(a[0].packets, JobPackets(a[1..]), JobPackets(b));
    }
  }

  lemma JobPacketsSnoc(jobs: seq<Job>, job: Job)
    ensures JobPackets(jobs + [job]) == JobPackets(jobs) + job.packets
  {
    JobPacketsAppend(jobs, [job]);
    assert JobPackets([job]) == job.packets;
  }

  /** A write has failed. */
  predicate Failed(l: Link) {
    l.writer.FlagError? || l.writeError
  }

  predicate Counters(l: Link) {
    && l.written <= |l.handed|
    && (l.partial > 0 ==> l.written < |l.handed| && l.partial < |l.handed[l.written].packets|)
  }

  /** The packets of the job `written` that are already out. */
  function PartialPackets(l: Link): seq<Packet>
    requires Counters(l)
  {
    if l.partial == 0 then [] else l.handed[l.written].packets[..l.partial]
  }

  /** What the writer still holds, as long as it may write. */
  predicate WriterHolds(l: Link)
    requires Counters(l)
  {
    match l.writer
    case Writing(job, next) =>
      && l.written < |l.handed|
      && l.handed[l.written] == job
      && l.partial == next < |job.packets|
      && l.channel == l.handed[l.written + 1..]
    case Exited => true
    case _ => l.partial == 0 && l.channel == l.handed[l.written..]
  }

  ghost predicate LinkInv(l: Link) {
    && (forall i :: 0 <= i < |l.handed| ==> l.handed[i].packets != [])
    && Counters(l)
    && l.wire == JobPackets(l.handed[..l.written]) + PartialPackets(l)
    && (l.receiverOpen <==> !l.writer.Exited?)
    && (if Failed(l) then !l.writer.Receiving? && !l.writer.Writing? else WriterHolds(l))
  }

  lemma SentKeeps(l: Link, job: Job)
    requires LinkInv(l) && l.receiverOpen && job.packets != []
    ensures LinkInv(Sent(l, job))
  {
    var m := Sent(l, job);
    assert m.handed[..m.written] == l.handed[..l.written];
    if l.writer.Writing? {
      assert m.handed[m.written + 1..] == l.handed[l.written + 1..] + [job];
    } else {
      assert m.handed[m.written..] == l.handed[l.written..] + [job];
    }
  }

  lemma WrittenKeeps(l: Link)
    requires LinkInv(l) && !Failed(l) && l.writer.Writing?
    ensures LinkInv(PacketWritten(l))
  {
    var m := PacketWritten(l);
    var job := l.writer.job;
    var i := l.writer.next;
    assert job.packets[..i + 1] == job.packets[..i] + [job.packets[i]];
    assert PartialPackets(l) == job.packets[..i];
    Assoc(JobPackets(l.handed[..l.written]), job.packets[..i], [job.packets[i]]);
    if i + 1 == |job.packets| {
      assert l.handed[..l.written + 1] == l.handed[..l.written] + [job];
      JobPacketsSnoc(l.handed[..l.written], job);
      assert job.packets[..i + 1] == job.packets;
    }
  }

  lemma WriterKeeps(l: Link, ok: bool)
    requires LinkInv(l)
    ensures LinkInv(WriterStep(l, ok))
  {
    match l.writer {
      case Receiving =>
        if l.channel != [] {
          assert l.handed[l.written] == l.channel[0];
          assert l.handed[l.written + 1..] == l.channel[1..];
        }
      case Writing(_, _) =>
        if ok {
          WrittenKeeps(l);
        }
      case _ =>
    }
  }

  lemma TouchedKeeps(l: Link, m: Link)
    requires LinkInv(l)
    requires m == l.(writeInFlight := m.writeInFlight, senderOpen := m.senderOpen)
    ensures LinkInv(m)
  {
    assert PartialPackets(m) == PartialPackets(l);
  }

  // ─── Jobs are requests ────────────────────────────────────────────────────

  /** A job carries the packets of its request. */
  predicate JobOf(job: Job, queued: seq<Request>) {
    job.id < |queued| && job.packets == queued[job.id].Packets()
  }

  ghost predicate JobsMatch(s: State) {
    forall i :: 0 <= i < |s.link.handed| ==> JobOf(s.link.handed[i], s.desk.ledger.queued)
  }

  ghost predicate WireInv(s: State) {
    CommandsMatch(s.desk) && JobsMatch(s) && LinkInv(s.link)
  }

  lemma HandOverKeeps(s: State)
    requires WireInv(s) && s.desk.pc.HandOff? && ChannelOpen(s.link)
    ensures JobsMatch(MainStep(s)) && LinkInv(MainStep(s).link)
  {
    var c := s.desk.pc.command;
    assert c == Line(s.desk)[0];
    assert Matches(c, s.desk.ledger.queued);
    SentKeeps(s.link, Job(c.id, c.packets));
  }

  /** Apart from a hand-over, the main thread and the callers touch only flags of the link. */
  lemma OthersTouchFlags(s: State, step: Step)
    requires !step.Writer?
    requires !(step.Main? && s.desk.pc.HandOff? && ChannelOpen(s.link))
    ensures var m := Apply(s, step).link;
      m == s.link.(writeInFlight := m.writeInFlight, senderOpen := m.senderOpen)
  {
  }

  lemma LedgerGrows(s: State, step: Step)
    requires CommandsMatch(s.desk)
    ensures s.desk.ledger.queued <= Apply(s, step).desk.ledger.queued
  {
    if step.Main? {
      MainMoves(s);
    }
  }

  lemma SameJobsMatch(s: State, t: State)
    requires JobsMatch(s) && t.link.handed == s.link.handed
    requires s.desk.ledger.queued <= t.desk.ledger.queued
    ensures JobsMatch(t)
  {
    forall i | 0 <= i < |t.link.handed|
      ensures JobOf(t.link.handed[i], t.desk.ledger.queued)
    {
      assert JobOf(s.link.handed[i], s.desk.ledger.queued);
    }
  }

  lemma {:induction false} WireStep(s: State, step: Step)
    requires WireInv(s)
    ensures WireInv(Apply(s, step))
  {
    var t := Apply(s, step);
    CommandsMatchStep(s, step);
    LedgerGrows(s, step);
    if step.Main? && s.desk.pc.HandOff? && ChannelOpen(s.link) {
      HandOverKeeps(s);
    } else if step.Writer? {
      WriterKeeps(s.link, step.ok);
      SameJobsMatch(s, t);
    } else {
      OthersTouchFlags(s, step);
      TouchedKeeps(s.link, t.link);
      SameJobsMatch(s, t);
    }
  }

  lemma {:induction false} WireAlways(steps: seq<Step>)
    ensures WireInv(Exec(OPENED, steps))
  {
    if steps != [] {
      WireAlways(steps[..|steps| - 1]);
      WireStep(Exec(OPENED, steps[..|steps| - 1]), steps[|steps| - 1]);
    } else {
      CommandsAlwaysMatch([]);
    }
  }

  /** The wire is always a prefix of the handed-off packets, in hand-off order. */
  lemma WireIsPrefix(steps: seq<Step>)
    ensures var l := Exec(OPENED, steps).link; l.wire <= JobPackets(l.handed)
  {
    WireAlways(steps);
    var l := Exec(OPENED, steps).link;
    assert l.handed == l.handed[..l.written] + l.handed[l.written..];
    JobPacketsAppend(l.handed[..l.written], l.handed[l.written..]);
    if l.partial > 0 {
      var rest := l.handed[l.written..];
      assert PartialPackets(l) <= rest[0].packets <= JobPackets(rest);
    }
  }

  lemma FailureStays(s: State, step: Step)
    requires LinkInv(s.link) && Failed(s.link)
    ensures Failed(Apply(s, step).link)
    ensures Apply(s, step).link.wire == s.link.wire
  {
    if !step.Writer? && !(step.Main? && s.desk.pc.HandOff? && ChannelOpen(s.link)) {
      OthersTouchFlags(s, step);
    }
  }

  lemma {:induction false} FailureIsFinal(s: State, after: seq<Step>)
    requires WireInv(s) && Failed(s.link)
    ensures var t := Exec(s, after);
      WireInv(t) && Failed(t.link) && t.link.wire == s.link.wire
  {
    if after != [] {
      var t := Exec(s, after[..|after| - 1]);
      FailureIsFinal(s, after[..|after| - 1]);
      FailureStays(t, after[|after| - 1]);
      WireStep(t, after[|after| - 1]);
    }
  }

  /** After a failed write nothing is ever written again. */
  lemma NothingAfterFailure(before: seq<Step>, after: seq<Step>)
    requires Failed(Exec(OPENED, before).link)
    ensures var s := Exec(OPENED, before); Exec(s, after).link.wire == s.link.wire
  {
    WireAlways(before);
    FailureIsFinal(Exec(OPENED, before), after);
  }

  // ─── What the device reassembles ──────────────────────────────────────────

  /** The non-empty command bodies among `jobs`; an info request is not a command. */
  function CommandBodies(jobs: seq<Job>, queued: seq<Request>): seq<seq<byte>>
    requires forall i :: 0 <= i < |jobs| ==> JobOf(jobs[i], queued)
  {
    if jobs == [] then []
    else
      assert JobOf(jobs[0], queued);
      var r := queued[jobs[0].id];
      (if r.InfoRequest? || r.body == [] then [] else [r.body]) + CommandBodies(jobs[1..], queued)
  }

  lemma InfoRequestParses()
    ensures ParseReport6(Relabel(DeviceInfoRequest())) == Some(DeviceInfo([]))
  {
    var raw := Relabel(DeviceInfoRequest());
    assert raw[0] == HID_REPORT_DATA && raw[1] == FLAG_DEVICE_INFO && raw[2] == 0;
    assert HasFlag(raw[1], FLAG_DEVICE_INFO);
    assert raw[3..PacketLength(raw)] == [];
  }

  /** One whole job reaching a reassembler that holds nothing. */
  lemma JobReceived(completed: seq<seq<byte>>, job: Job, queued: seq<Request>)
    requires JobOf(job, queued)
    ensures Received(Reassembly([], completed), job.packets)
         == Reassembly([], completed + CommandBodies([job], queued))
  {
    var r := queued[job.id];
    var start := Reassembly([], completed);
    if r.InfoRequest? {
      InfoRequestParses();
      ReceivedCons(start, DeviceInfoRequest(), []);
      assert job.packets == [DeviceInfoRequest()] + [];
      assert CommandBodies([job], queued) == [];
    } else {
      FragmentsReassemble(start, r.body, true);
      assert [] + r.body == r.body;
      assert CommandBodies([job], queued) == if r.body == [] then [] else [r.body];
    }
  }

  lemma BodiesFirst(jobs: seq<Job>, queued: seq<Request>)
    requires jobs != [] && (forall i :: 0 <= i < |jobs| ==> JobOf(jobs[i], queued))
    ensures JobOf(jobs[0], queued)
    ensures CommandBodies(jobs, queued) == CommandBodies([jobs[0]], queued) + CommandBodies(jobs[1..], queued)
  {
    assert JobOf(jobs[0], queued);
    assert [jobs[0]][1..] == [];
    var first := if queued[jobs[0].id].InfoRequest? || queued[jobs[0].id].body == [] then [] else [queued[jobs[0].id].body];
    assert CommandBodies([jobs[0]], queued) == first + [] == first;
  }

  lemma {:induction false} JobsReceived(completed: seq<seq<byte>>, jobs: seq<Job>, queued: seq<Request>)
    requires forall i :: 0 <= i < |jobs| ==> JobOf(jobs[i], queued)
    ensures Received(Reassembly([], completed), JobPackets(jobs))
         == Reassembly([], completed + CommandBodies(jobs, queued))
    decreases |jobs|
  {
    if jobs != [] {
      var job, rest := jobs[0], jobs[1..];
      BodiesFirst(jobs, queued);
      var first := CommandBodies([job], queued);
      ReceivedAppend(Reassembly([], completed), job.packets, JobPackets(rest));
      JobReceived(completed, job, queued);
      JobsReceived(completed + first, rest, queued);
      Assoc(completed, first, CommandBodies(rest, queued));
    } else {
      assert completed + [] == completed;
    }
  }

  /** The body of the job that is partly on the wire. */
  function PartialBody(s: State): seq<byte>
    requires JobsMatch(s) && LinkInv(s.link) && s.link.partial > 0
  {
    var r := s.desk.ledger.queued[s.link.handed[s.link.written].id];
    if r.InfoRequest? then [] else r.body
  }

  /** The device has reassembled the jobs wholly on the wire and holds only a prefix of the next. */
  ghost predicate Reassembled(s: State) {
    && JobsMatch(s) && LinkInv(s.link)
    && Received(EMPTY_REASSEMBLY, s.link.wire).completed
       == CommandBodies(s.link.handed[..s.link.written], s.desk.ledger.queued)
    && (s.link.partial == 0 ==> Received(EMPTY_REASSEMBLY, s.link.wire).current == [])
    && (s.link.partial > 0 ==>
          && HID_MAX_PAYLOAD_SIZE * s.link.partial < |PartialBody(s)|
          && Received(EMPTY_REASSEMBLY, s.link.wire).current
             == PartialBody(s)[..HID_MAX_PAYLOAD_SIZE * s.link.partial])
  }

  lemma InvReassembles(s: State)
    requires WireInv(s)
    ensures Reassembled(s)
  {
    var l := s.link;
    var whole := JobPackets(l.handed[..l.written]);
    JobsReceived([], l.handed[..l.written], s.desk.ledger.queued);
    assert [] + CommandBodies(l.handed[..l.written], s.desk.ledger.queued)
        == CommandBodies(l.handed[..l.written], s.desk.ledger.queued);
    if l.partial == 0 {
      assert l.wire == whole;
    } else {
      var r := s.desk.ledger.queued[l.handed[l.written].id];
      var held := Received(EMPTY_REASSEMBLY, whole);
      ReceivedAppend(EMPTY_REASSEMBLY, whole, PartialPackets(l));
      assert !r.InfoRequest?;
      PartialReassembles(held, r.body, true, l.partial);
      assert [] + r.body[..HID_MAX_PAYLOAD_SIZE * l.partial] == r.body[..HID_MAX_PAYLOAD_SIZE * l.partial];
    }
  }

  /**
   End to end, in every run: the device has reassembled exactly the non-empty
   commands of the jobs wholly on the wire, in hand-off order, and holds only a
   prefix of the next one. No two commands are ever mixed.
   */
  lemma WireReassembles(steps: seq<Step>)
    ensures Reassembled(Exec(OPENED, steps))
  {
    WireAlways(steps);
    InvReassembles(Exec(OPENED, steps));
  }
}
