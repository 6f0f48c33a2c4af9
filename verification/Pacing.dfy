/**
 The answer side of a connection: every packet the poll thread publishes is
 handled exactly once and in order, and counting hand-offs against answers shows
 that commands are paced one at a time.
 */
module Pacing {
  import opened Bytes
  import opened Protocol
  import opened Framing
  import opened CommandQueue
  import opened Pipeline
  import opened Conservation
  import opened WireOrder

  // ─── Packets through the shared buffer ────────────────────────────────────

  predicate WholePacket(p: seq<byte>) {
    Exact(p) && p[0] == HID_REPORT_DATA
  }

  predicate AllWhole(packets: seq<seq<byte>>) {
    forall i :: 0 <= i < |packets| ==> WholePacket(packets[i])
  }

  function InHand(pc: MainPc): seq<byte> {
    if pc.Reading? then pc.data else []
  }

  ghost predicate InboxInv(pc: MainPc, b: Inbox) {
    && AllWhole(b.published)
    && (b.poll.Draining? ==> AllWhole(b.poll.accepted))
    && |b.handled| <= b.taken <= |b.published|
    && b.handled == b.published[..|b.handled|]
    && InHand(pc) == Concat(b.published[|b.handled|..b.taken])
    && b.buffer == Concat(b.published[b.taken..])
    && (!pc.Reading? ==> b.taken == |b.handled|)
  }

  lemma AcceptedWhole(bytes: seq<byte>)
    ensures AllWhole(Accepted(bytes))
  {
    if Accepted(bytes) != [] {
      assert PacketLength(Accepted(bytes)[0]) == PacketLength(bytes);
    }
  }

  lemma PublishKeeps(pc: MainPc, b: Inbox)
    requires InboxInv(pc, b) && b.poll.Draining?
    ensures InboxInv(pc, PollEnded(b))
  {
    var c := PollEnded(b);
    assert c.published[|b.handled|..b.taken] == b.published[|b.handled|..b.taken];
    assert c.published[..|b.handled|] == b.published[..|b.handled|];
    assert c.published[b.taken..] == b.published[b.taken..] + b.poll.accepted;
    ConcatAppend(b.published[b.taken..], b.poll.accepted);
  }

  lemma TakeKeeps(pc: MainPc, b: Inbox)
    requires InboxInv(pc, b) && !pc.Reading?
    ensures InboxInv(Reading(b.buffer), BufferTaken(b))
  {
    assert b.published[|b.published|..] == [];
    assert b.published[|b.handled|..|b.published|] == b.published[b.taken..];
  }

  /** Data in hand is a list of whole packets: the next one is the next published one. */
  lemma NextIsPublished(pc: MainPc, b: Inbox)
    requires InboxInv(pc, b) && pc.Reading?
    ensures HasFrame(pc.data) <==> |b.handled| < b.taken
    ensures !HasFrame(pc.data) ==> pc.data == []
    ensures HasFrame(pc.data) ==>
      && pc.data[..PacketLength(pc.data)] == b.published[|b.handled|]
      && pc.data[PacketLength(pc.data)..] == Concat(b.published[|b.handled| + 1..b.taken])
  {
    var rest := b.published[|b.handled|..b.taken];
    if rest != [] {
      assert rest[0] == b.published[|b.handled|];
      assert rest[1..] == b.published[|b.handled| + 1..b.taken];
      FrameStays(rest[0], Concat(rest[1..]));
      assert rest[0][|rest[0]|..] == [];
    }
  }

  lemma MainKeepsInbox(s: State)
    requires InboxInv(s.desk.pc, s.inbox)
    ensures InboxInv(MainStep(s).desk.pc, MainStep(s).inbox)
  {
    match s.desk.pc {
      case TakeBuffer => TakeKeeps(s.desk.pc, s.inbox);
      case Reading(data) =>
        NextIsPublished(s.desk.pc, s.inbox);
        if HasFrame(data) {
          var b := s.inbox;
          assert b.published[..|b.handled| + 1] == b.published[..|b.handled|] + [b.published[|b.handled|]];
        }
      case _ =>
    }
  }

  lemma InboxStep(s: State, step: Step)
    requires InboxInv(s.desk.pc, s.inbox)
    ensures InboxInv(Apply(s, step).desk.pc, Apply(s, step).inbox)
  {
    match step {
      case Main => MainKeepsInbox(s);
      case PollRead(bytes) => AcceptedWhole(bytes);
      case PollEnd =>
        if s.inbox.poll.Draining? {
          PublishKeeps(s.desk.pc, s.inbox);
        }
      case _ =>
    }
  }

  lemma {:induction false} InboxAlways(steps: seq<Step>)
    ensures InboxInv(Exec(OPENED, steps).desk.pc, Exec(OPENED, steps).inbox)
  {
    if steps != [] {
      InboxAlways(steps[..|steps| - 1]);
      InboxStep(Exec(OPENED, steps[..|steps| - 1]), steps[|steps| - 1]);
    }
  }

  /**
   In every run the packets handled are the published ones, in order and once
   each; when `check_reads` reaches the put-back, nothing remains to be put back
   and everything it had taken is handled.
   */
  lemma PublishedHandledOnce(steps: seq<Step>)
    ensures var s := Exec(OPENED, steps);
      && s.inbox.handled <= s.inbox.published
      && (s.desk.pc.Reading? && !HasFrame(s.desk.pc.data) ==>
            s.desk.pc.data == [] && |s.inbox.handled| == s.inbox.taken)
  {
    InboxAlways(steps);
    var s := Exec(OPENED, steps);
    if s.desk.pc.Reading? {
      NextIsPublished(s.desk.pc, s.inbox);
    }
  }

  // ─── Counting hand-offs ───────────────────────────────────────────────────

  predicate Balanced(s: State) {
    |s.link.handed| == |s.desk.ledger.finished| + s.desk.ledger.timeouts + s.desk.ledger.closedCurrent
                       + |AsSeq(s.desk.handle.current)|
  }

  lemma NextHandledCounts(d: Desk)
    requires d.pc.Reading? && HasFrame(d.pc.data)
    ensures var e := NextHandled(d);
      && |e.ledger.finished| + |AsSeq(e.handle.current)| == |d.ledger.finished| + |AsSeq(d.handle.current)|
      && (e.ledger.finished != d.ledger.finished ==>
            && |e.ledger.finished| == |d.ledger.finished| + 1
            && IsAnswer(d.pc.data[..PacketLength(d.pc.data)]))
      && e.ledger.timeouts == d.ledger.timeouts
      && e.ledger.closedCurrent == d.ledger.closedCurrent
  {
    PacketHandledMoves(d.handle, d.pc.data[..PacketLength(d.pc.data)]);
  }

  lemma ReadingBalances(s: State)
    requires OneHeld(s.desk) && Balanced(s) && s.desk.pc.Reading? && HasFrame(s.desk.pc.data)
    ensures Balanced(MainStep(s))
  {
    NextHandledCounts(s.desk);
  }

  lemma WritesBalance(s: State)
    requires OneHeld(s.desk) && Balanced(s) && (s.desk.pc.CheckWrites? || s.desk.pc.HandOff?)
    ensures Balanced(MainStep(s))
  {
  }

  lemma MainBalances(s: State)
    requires OneHeld(s.desk) && Balanced(s)
    ensures Balanced(MainStep(s))
  {
    if s.desk.pc.Reading? && HasFrame(s.desk.pc.data) {
      ReadingBalances(s);
    } else if s.desk.pc.CheckWrites? || s.desk.pc.HandOff? {
      WritesBalance(s);
    }
  }

  lemma BalancedStep(s: State, step: Step)
    requires OneHeld(s.desk) && Balanced(s)
    ensures Balanced(Apply(s, step))
  {
    if step.Main? {
      MainBalances(s);
    } else if !step.Writer? {
      OthersTouchFlags(s, step);
    }
  }

  /**
   In every run: jobs accepted by the channel equal answered commands plus
   timeouts plus closes of a current command plus the one awaiting its answer.
   */
  lemma {:induction false} HandOffsBalanced(steps: seq<Step>)
    ensures Balanced(Exec(OPENED, steps))
  {
    if steps != [] {
      var before := steps[..|steps| - 1];
      HandOffsBalanced(before);
      CommandsAlwaysMatch(before);
      BalancedStep(Exec(OPENED, before), steps[|steps| - 1]);
    }
  }

  // ─── Counting answers ─────────────────────────────────────────────────────

  lemma {:induction false} AnswersAppend(a: seq<seq<byte>>, b: seq<seq<byte>>)
    ensures Answers(a + b) == Answers(a) + Answers(b)
  {
    if a == [] {
      assert a + b == b;
    } else {
      AnswersAppend(a[1..], b);
      assert (a + b)[0] == a[0] && (a + b)[1..] == a[1..] + b;
    }
  }

  function Gathering(b: Inbox): seq<seq<byte>> {
    if b.poll.Draining? then b.poll.accepted else []
  }

  /** No command ends without an answer of its own, and no answer is invented on the way. */
  predicate AnswersAccounted(s: State) {
    && |s.desk.ledger.finished| <= Answers(s.inbox.handled)
    && Answers(s.inbox.published) + Answers(Gathering(s.inbox)) <= s.inbox.answersRead
  }

  lemma MainAnswers(s: State)
    requires AnswersAccounted(s)
    ensures AnswersAccounted(MainStep(s))
  {
    match s.desk.pc {
      case Reading(data) =>
        if HasFrame(data) {
          NextHandledCounts(s.desk);
          var raw := data[..PacketLength(data)];
          AnswersAppend(s.inbox.handled, [raw]);
          assert Answers([raw]) == if IsAnswer(raw) then 1 else 0;
        }
      case _ =>
    }
  }

  lemma AnswersStep(s: State, step: Step)
    requires AnswersAccounted(s)
    ensures AnswersAccounted(Apply(s, step))
  {
    match step {
      case Main => MainAnswers(s);
      case PollRead(bytes) => AnswersAppend(Gathering(s.inbox), Accepted(bytes));
      case PollEnd => AnswersAppend(s.inbox.published, Gathering(s.inbox));
      case _ =>
    }
  }

  lemma {:induction false} AnswersAlways(steps: seq<Step>)
    ensures AnswersAccounted(Exec(OPENED, steps))
  {
    if steps != [] {
      AnswersAlways(steps[..|steps| - 1]);
      AnswersStep(Exec(OPENED, steps[..|steps| - 1]), steps[|steps| - 1]);
    }
  }

  // ─── Runs against a device that answers what it has received ──────────────

  /** An answer is only delivered for a command that is wholly on the wire, and once. */
  predicate Honest(s: State, step: Step) {
    step.PollRead? && s.inbox.poll.Draining? ==>
      s.inbox.answersRead + Answers(Accepted(step.bytes)) <= s.link.written
  }

  ghost predicate HonestRun(steps: seq<Step>) {
    forall i :: 0 <= i < |steps| ==> Honest(Exec(OPENED, steps[..i]), steps[i])
  }

  lemma WrittenGrows(s: State, step: Step)
    ensures s.link.written <= Apply(s, step).link.written
  {
    if !step.Writer? && !(step.Main? && s.desk.pc.HandOff? && ChannelOpen(s.link)) {
      OthersTouchFlags(s, step);
    }
  }

  lemma HonestStep(s: State, step: Step)
    requires Honest(s, step) && s.inbox.answersRead <= s.link.written
    ensures Apply(s, step).inbox.answersRead <= Apply(s, step).link.written
  {
    WrittenGrows(s, step);
  }

  lemma HonestPrefix(steps: seq<Step>)
    requires HonestRun(steps) && steps != []
    ensures HonestRun(steps[..|steps| - 1])
    ensures Honest(Exec(OPENED, steps[..|steps| - 1]), steps[|steps| - 1])
  {
    var before := steps[..|steps| - 1];
    forall i | 0 <= i < |before|
      ensures Honest(Exec(OPENED, before[..i]), before[i])
    {
      assert before[..i] == steps[..i];
    }
  }

  lemma {:induction false} HonestAnswers(steps: seq<Step>)
    requires HonestRun(steps)
    ensures Exec(OPENED, steps).inbox.answersRead <= Exec(OPENED, steps).link.written
  {
    if steps != [] {
      var before := steps[..|steps| - 1];
      HonestPrefix(steps);
      HonestAnswers(before);
      HonestStep(Exec(OPENED, before), steps[|steps| - 1]);
    }
  }

  /**
   With such a device, every job not yet wholly on the wire beyond the first is
   paid for by a timeout or by a close of a current command.
   */
  lemma {:induction false} OutstandingBounded(steps: seq<Step>)
    requires HonestRun(steps)
    ensures var s := Exec(OPENED, steps);
      |s.link.handed| - s.link.written <= 1 + s.desk.ledger.timeouts + s.desk.ledger.closedCurrent
  {
    HandOffsBalanced(steps);
    AnswersAlways(steps);
    HonestAnswers(steps);
    PublishedHandledOnce(steps);
    var b := Exec(OPENED, steps).inbox;
    assert b.published == b.handled + b.published[|b.handled|..];
    AnswersAppend(b.handled, b.published[|b.handled|..]);
  }

  /** So without timeouts and closes at most one handed-off job is not fully on the wire. */
  lemma {:induction false} OneJobAtATime(steps: seq<Step>)
    requires HonestRun(steps)
    requires Exec(OPENED, steps).desk.ledger.timeouts == 0
    requires Exec(OPENED, steps).desk.ledger.closedCurrent == 0
    ensures var l := Exec(OPENED, steps).link; |l.handed| - l.written <= 1
  {
    OutstandingBounded(steps);
  }
}
