/**
 What a device's reports become: replies, however the device cuts them into packets, reach
 the reader whole and in order, the one that finishes a command reaches its callback, and
 the input reports set the input state. Packets and reports are written out in numbers.
 */
module Replies {
  import opened Bytes
  import opened Protocol
  import opened Framing
  import opened CommandQueue
  import opened Connection
  import P = Pipeline

  // ─── Replies as packets ───────────────────────────────────────────────────

  /** A reply in the pieces the device sends; `answers` when its last packet finishes a host command. */
  datatype Reply = Reply(chunks: seq<seq<byte>>, answers: bool)

  predicate Sendable(chunks: seq<seq<byte>>) {
    chunks != [] && forall i :: 0 <= i < |chunks| ==> |chunks[i]| <= 255
  }

  predicate AllSendable(replies: seq<Reply>) {
    forall i :: 0 <= i < |replies| ==> Sendable(replies[i].chunks)
  }

  /** Report 6: 4 starts a command, 1 ends it, 2 finishes the host's. */
  function ReplyPacket(chunk: seq<byte>, first: bool, last: bool, answers: bool): seq<byte>
    requires |chunk| <= 255
  {
    [6, (if first then 4 else 0) + (if last then 1 else 0) + (if last && answers then 2 else 0), |chunk|] + chunk
  }

  function PacketsFrom(chunks: seq<seq<byte>>, first: bool, answers: bool): seq<seq<byte>>
    requires Sendable(chunks)
    decreases |chunks|
  {
    if |chunks| == 1 then [ReplyPacket(chunks[0], first, true, answers)]
    else [ReplyPacket(chunks[0], first, false, answers)] + PacketsFrom(chunks[1..], false, answers)
  }

  function PacketsOf(replies: seq<Reply>): seq<seq<byte>>
    requires AllSendable(replies)
  {
    if replies == [] then []
    else PacketsFrom(replies[0].chunks, true, replies[0].answers) + PacketsOf(replies[1..])
  }

  /** The replies that are not empty, whole. */
  function Bodies(replies: seq<Reply>): seq<seq<byte>> {
    if replies == [] then [] else Whole(Concat(replies[0].chunks)) + Bodies(replies[1..])
  }

  function Whole(body: seq<byte>): seq<seq<byte>> {
    if body == [] then [] else [body]
  }

  // ─── One reply ────────────────────────────────────────────────────────────

  lemma ReplyParses(chunk: seq<byte>, first: bool, last: bool, answers: bool)
    requires |chunk| <= 255
    ensures ParseReport6(ReplyPacket(chunk, first, last, answers)) == Some(Fragment(chunk, first, last, last && answers))
  {
    var raw := ReplyPacket(chunk, first, last, answers);
    assert raw[3..3 + |chunk|] == chunk;
  }

  /** `bodies` are buffered; when `finished`, the current command ends and hears of the latest. */
  function Kept(h: Handle, bodies: seq<seq<byte>>, finished: bool): Handle {
    var buffers := h.readBuffers + h.reassembly.completed + bodies;
    var g := h.(reassembly := Reassembly([], []), readBuffers := buffers);
    if finished && h.current.Some? then
      var response := if buffers == [] then [] else buffers[|buffers| - 1];
      g.(current := None,
         callbacks := h.callbacks + if h.current.value.hasCallback then [CallbackRun(h.current.value.id, response)] else [])
    else g
  }

  /** A packet that ends a reply. */
  lemma LastKept(h: Handle, chunk: seq<byte>, first: bool, answers: bool)
    requires h.active && |chunk| <= 255
    ensures PacketHandled(h, ReplyPacket(chunk, first, true, answers))
         == Kept(h, Whole((if first then [] else h.reassembly.current) + chunk), answers)
  {
    var held := (if first then [] else h.reassembly.current) + chunk;
    var r := Pushed(h.reassembly, Fragment(chunk, first, true, answers));
    ReplyParses(chunk, first, true, answers);
    PushedLast(h.reassembly, chunk, first, answers);
    Assoc(h.readBuffers, h.reassembly.completed, Whole(held));
    FragmentTaken(h, r, ReplyPacket(chunk, first, true, answers), Fragment(chunk, first, true, answers), Whole(held));
  }

  lemma FragmentTaken(h: Handle, r: Reassembly, raw: seq<byte>, fragment: ParsedPacket, bodies: seq<seq<byte>>)
    requires h.active && fragment.Fragment? && ParseReport6(raw) == Some(fragment) && r == Pushed(h.reassembly, fragment)
    requires r.current == [] && h.readBuffers + r.completed == h.readBuffers + h.reassembly.completed + bodies
    ensures PacketHandled(h, raw) == Kept(h, bodies, fragment.hostCmdFinished)
  {
    BufferedResponse(h.readBuffers + h.reassembly.completed + bodies);
  }

  lemma PushedLast(r: Reassembly, chunk: seq<byte>, first: bool, answers: bool)
    ensures Pushed(r, Fragment(chunk, first, true, answers))
         == Reassembly([], r.completed + Whole((if first then [] else r.current) + chunk))
  {
  }

  lemma BufferedResponse(buffers: seq<seq<byte>>)
    ensures LastOrEmpty(buffers) == if buffers == [] then [] else buffers[|buffers| - 1]
  {
  }

  /** A packet that leaves the reply open. */
  lemma PieceHeld(h: Handle, chunk: seq<byte>, first: bool, answers: bool)
    requires h.active && |chunk| <= 255
    ensures PacketHandled(h, ReplyPacket(chunk, first, false, answers))
         == Kept(h, [], false).(reassembly := Reassembly((if first then [] else h.reassembly.current) + chunk, []))
  {
    ReplyParses(chunk, first, false, answers);
    var buffers := h.readBuffers + h.reassembly.completed;
    assert buffers + [] == buffers;
  }

  lemma {:induction false} HandledAppend(h: Handle, a: seq<seq<byte>>, b: seq<seq<byte>>)
    ensures AllHandled(h, a + b) == AllHandled(AllHandled(h, a), b)
    decreases |a|
  {
    if a == [] {
      assert a + b == b;
    } else {
      assert (a + b)[1..] == a[1..] + b;
      HandledAppend(PacketHandled(h, a[0]), a[1..], b);
    }
  }

  lemma HandledCons(h: Handle, p: seq<byte>, rest: seq<seq<byte>>)
    ensures AllHandled(h, [p] + rest) == AllHandled(PacketHandled(h, p), rest)
  {
    assert ([p] + rest)[1..] == rest;
  }

  /** The packets of one reply, the pieces before already held. */
  lemma {:induction false} ReplyKept(h: Handle, chunks: seq<seq<byte>>, first: bool, answers: bool)
    requires h.active && Sendable(chunks)
    ensures AllHandled(h, PacketsFrom(chunks, first, answers))
         == Kept(h, Whole((if first then [] else h.reassembly.current) + Concat(chunks)), answers)
    decreases |chunks|
  {
    var held := if first then [] else h.reassembly.current;
    if |chunks| == 1 {
      LastKept(h, chunks[0], first, answers);
      HandledCons(h, ReplyPacket(chunks[0], first, true, answers), []);
      assert Concat(chunks) == chunks[0];
    } else {
      PieceHeld(h, chunks[0], first, answers);
      var g := Kept(h, [], false).(reassembly := Reassembly(held + chunks[0], []));
      HandledCons(h, ReplyPacket(chunks[0], first, false, answers), PacketsFrom(chunks[1..], false, answers));
      ReplyKept(g, chunks[1..], false, answers);
      Assoc(held, chunks[0], Concat(chunks[1..]));
      KeptTwice(h, g, Whole(held + Concat(chunks)), answers);
    }
  }

  lemma KeptTwice(h: Handle, g: Handle, bodies: seq<seq<byte>>, finished: bool)
    requires g == Kept(h, [], false).(reassembly := g.reassembly) && g.reassembly.completed == []
    ensures Kept(g, bodies, finished) == Kept(h, bodies, finished)
  {
    var buffers := h.readBuffers + h.reassembly.completed;
    assert buffers + [] == buffers;
  }

  // ─── All replies ──────────────────────────────────────────────────────────

  predicate NoneAnswers(replies: seq<Reply>) {
    forall i :: 0 <= i < |replies| ==> !replies[i].answers
  }

  /** What the handler may hold back: the replies it has completed but not yet passed on. */
  function Waiting(h: Handle, replies: seq<Reply>): seq<seq<byte>> {
    if replies == [] then [] else h.reassembly.completed
  }

  /** `t` is `h` after `replies`. */
  predicate Read(h: Handle, replies: seq<Reply>, t: Handle) {
    && t.readBuffers == h.readBuffers + Waiting(h, replies) + Bodies(replies)
    && t.active && t.gotInfo == h.gotInfo && t.deviceInfo == h.deviceInfo && t.pending == h.pending
    && t.reassembly == (if replies == [] then h.reassembly else Reassembly([], []))
    && (NoneAnswers(replies) || h.current.None? ==> t.current == h.current && t.callbacks == h.callbacks)
  }

  lemma Regrouped(a: seq<seq<byte>>, b: seq<seq<byte>>, c: seq<seq<byte>>)
    ensures (a + b) + [] + c == a + (b + c)
  {
  }

  lemma ReadMore(h: Handle, replies: seq<Reply>, t: Handle)
    requires h.active && replies != []
    requires Read(Kept(h, Whole(Concat(replies[0].chunks)), replies[0].answers), replies[1..], t)
    ensures Read(h, replies, t)
  {
    var g := Kept(h, Whole(Concat(replies[0].chunks)), replies[0].answers);
    Regrouped(h.readBuffers + h.reassembly.completed, Whole(Concat(replies[0].chunks)), Bodies(replies[1..]));
    assert Waiting(g, replies[1..]) == [];
  }

  /**
   Whatever an active connection has buffered so far, the replies the device sends are added
   to it whole and in order, empty ones left out; without a finishing reply, or with no command
   current, no command ends and no callback runs.
   */
  lemma {:induction false} RepliesAreRead(h: Handle, replies: seq<Reply>)
    requires h.active && AllSendable(replies)
    ensures Read(h, replies, AllHandled(h, PacketsOf(replies)))
    decreases |replies|
  {
    if replies == [] {
      assert h.readBuffers + [] + [] == h.readBuffers;
    } else {
      var body := Concat(replies[0].chunks);
      ReplyKept(h, replies[0].chunks, true, replies[0].answers);
      assert [] + body == body;
      HandledAppend(h, PacketsFrom(replies[0].chunks, true, replies[0].answers), PacketsOf(replies[1..]));
      RepliesAreRead(Kept(h, Whole(body), replies[0].answers), replies[1..]);
      ReadMore(h, replies, AllHandled(h, PacketsOf(replies)));
    }
  }

  lemma AnswerCompletes(h: Handle, answer: Reply)
    requires h.active && h.current.Some? && Sendable(answer.chunks) && Concat(answer.chunks) != []
    ensures var t := AllHandled(h, PacketsFrom(answer.chunks, true, true));
      var c, body := h.current.value, Concat(answer.chunks);
      && t.current.None? && t.readBuffers == h.readBuffers + h.reassembly.completed + [body]
      && t.callbacks == h.callbacks + if c.hasCallback then [CallbackRun(c.id, body)] else []
  {
    ReplyKept(h, answer.chunks, true, true);
    assert [] + Concat(answer.chunks) == Concat(answer.chunks);
  }

  /**
   The reply that finishes a command reaches its callback: after any replies that finish none,
   a finishing one ends the current command and its callback runs with exactly that reply.
   */
  lemma AnswerReachesCallback(h: Handle, earlier: seq<Reply>, answer: Reply)
    requires h.active && h.current.Some? && AllSendable(earlier) && NoneAnswers(earlier)
    requires Sendable(answer.chunks) && answer.answers && Concat(answer.chunks) != []
    ensures var t := AllHandled(h, PacketsOf(earlier) + PacketsFrom(answer.chunks, true, true));
      var c, body := h.current.value, Concat(answer.chunks);
      && t.current.None? && t.readBuffers != [] && t.readBuffers[|t.readBuffers| - 1] == body
      && t.callbacks == h.callbacks + if c.hasCallback then [CallbackRun(c.id, body)] else []
  {
    var g := AllHandled(h, PacketsOf(earlier));
    HandledAppend(h, PacketsOf(earlier), PacketsFrom(answer.chunks, true, true));
    RepliesAreRead(h, earlier);
    AnswerCompletes(g, answer);
  }

  /** A connection that is not active yet ignores them all. */
  lemma {:induction false} InactiveIgnores(h: Handle, chunks: seq<seq<byte>>, first: bool, answers: bool)
    requires !h.active && Sendable(chunks)
    ensures AllHandled(h, PacketsFrom(chunks, first, answers)) == h
    decreases |chunks|
  {
    ReplyParses(chunks[0], first, |chunks| == 1, answers);
    if |chunks| == 1 {
      HandledCons(h, ReplyPacket(chunks[0], first, true, answers), []);
    } else {
      HandledCons(h, ReplyPacket(chunks[0], first, false, answers), PacketsFrom(chunks[1..], false, answers));
      InactiveIgnores(h, chunks[1..], false, answers);
    }
  }

  /** A command is taken back exactly when more than two seconds have passed since it was sent. */
  lemma RetriedWhenOverdue(h: Handle, now: nat)
    ensures Retried(h, now) != h <==>
      && h.current.Some? && h.current.value.sent && h.current.value.sentAt.Some?
      && now > h.current.value.sentAt.value + 2_000_000_000
    ensures Retried(h, now) != h ==>
      && Retried(h, now).current.None?
      && Retried(h, now).pending == [h.current.value.(sent := false, sentAt := None)] + h.pending
  {
  }

  // ─── Commands that never get a reply ──────────────────────────────────────

  /** The commands of the list that carry a callback. */
  function Callers(cmds: seq<Command>): seq<Command> {
    if cmds == [] then []
    else (if cmds[0].hasCallback then [cmds[0]] else []) + Callers(cmds[1..])
  }

  lemma {:induction false} CancelledInOrder(cmds: seq<Command>, i: nat)
    requires i < |Callers(cmds)|
    ensures |CancelRuns(cmds)| == |Callers(cmds)|
    ensures CancelRuns(cmds)[i] == CallbackRun(Callers(cmds)[i].id, [])
  {
    CancelledCount(cmds);
    var n := if cmds[0].hasCallback then 1 else 0;
    if i >= n {
      CancelledInOrder(cmds[1..], i - n);
    }
  }

  lemma {:induction false} CancelledCount(cmds: seq<Command>)
    ensures |CancelRuns(cmds)| == |Callers(cmds)|
  {
    if cmds != [] {
      CancelledCount(cmds[1..]);
    }
  }

  /**
   A close tells every command that waits, the current one first, then the pending ones in their
   order, with an empty reply; nothing is left.
   */
  lemma CloseTellsAll(h: Handle, i: nat)
    ensures var waiting := Callers((if h.current.Some? then [h.current.value] else []) + h.pending);
      var t := Closed(h);
      && t.current.None? && t.pending == [] && t.readBuffers == [] && !t.active && !t.gotInfo
      && |t.callbacks| == |h.callbacks| + |waiting| && h.callbacks <= t.callbacks
      && (i < |waiting| ==> t.callbacks[|h.callbacks| + i] == CallbackRun(waiting[i].id, []))
  {
    var line := AsSeq(h.current) + h.pending;
    CancelledCount(line);
    if i < |Callers(line)| {
      CancelledInOrder(line, i);
    }
  }

  /** A command that cannot be handed to the writer ends at once with an empty reply. */
  lemma FailedHandOverTells(h: Handle, writeInFlight: bool, now: nat)
    requires h.current.None? && h.pending != []
    ensures var t, c := AfterWrites(h, writeInFlight, false, now), h.pending[0];
      && t == h.(pending := h.pending[1..], callbacks := t.callbacks)
      && t.callbacks == h.callbacks + if c.hasCallback then [CallbackRun(c.id, [])] else []
  {
  }

  // ─── Requests as packets ──────────────────────────────────────────────────

  /** Every packet of a request is a Report 5 of 64 bytes; flag 0x80 asks for the information. */
  lemma RequestsAsPackets(r: Request, i: nat)
    requires i < |r.Packets()|
    ensures var p := r.Packets()[i];
      && |p| == 64 && p[0] == 5 && (p[1] >= 0x80 <==> r.InfoRequest?)
      && (r.InfoRequest? ==> |r.Packets()| == 1 && p[1] == 0x80 && forall k :: 2 <= k < 64 ==> p[k] == 0)
  {
    if !r.InfoRequest? {
      FragmentShape(r.body, true, i);
    }
  }

  // ─── The device information ───────────────────────────────────────────────

  /** The value of a hexadecimal digit. */
  function Digit(c: char): int {
    if '0' <= c <= '9' then c as int - '0' as int
    else if 'a' <= c <= 'f' then c as int - 'a' as int + 10
    else -1
  }

  lemma DigitsRead(n: nat)
    requires n < 16
    ensures Digit(HexDigit(n)) == n
  {
  }

  /** The text is two digits a byte, high one first. */
  lemma {:induction false} HexReads(bytes: seq<byte>, i: nat)
    requires i < |bytes|
    ensures |HexEncode(bytes)| == 2 * |bytes|
    ensures 16 * Digit(HexEncode(bytes)[2 * i]) + Digit(HexEncode(bytes)[2 * i + 1]) == bytes[i] as int
  {
    HexLength(bytes);
    DigitsRead(bytes[0] as int / 16);
    DigitsRead(bytes[0] as int % 16);
    if i > 0 {
      HexReads(bytes[1..], i - 1);
    }
  }

  lemma {:induction false} HexLength(bytes: seq<byte>)
    ensures |HexEncode(bytes)| == 2 * |bytes|
  {
    if bytes != [] {
      HexLength(bytes[1..]);
    }
  }

  /** What 23 bytes say: the player, a serial of 16 bytes in text, and the firmware, low byte first. */
  predicate Describes(info: DeviceInfoRecord, payload: seq<byte>)
    requires |payload| >= 23
  {
    && (info.isPlayer2 <==> payload[2] == 0x31)
    && info.firmwareVersion == payload[20] as int + 256 * payload[21] as int
    && |info.serial| == 32
    && forall i :: 0 <= i < 16 ==>
         16 * Digit(info.serial[2 * i]) + Digit(info.serial[2 * i + 1]) == payload[4 + i] as int
  }

  lemma InfoDescribes(payload: seq<byte>)
    requires |payload| >= 23
    ensures Describes(ParseDeviceInfo(payload), payload)
  {
    var serial := payload[4..20];
    HexLength(serial);
    forall i | 0 <= i < 16
      ensures 16 * Digit(HexEncode(serial)[2 * i]) + Digit(HexEncode(serial)[2 * i + 1]) == payload[4 + i] as int
    {
      HexReads(serial, i);
    }
  }

  /**
   The answer to the information request, Report 6 with flag 0x80, is taken in any state of the
   connection while that request is current, and by no other command.
   */
  lemma InfoAnswerTaken(h: Handle, payload: seq<byte>)
    requires |payload| <= 255
    ensures var t := PacketHandled(h, [6, 0x80, |payload|] + payload);
      if h.current.Some? && h.current.value.isDeviceInfo then
        && t == h.(deviceInfo := t.deviceInfo, gotInfo := true, current := None, callbacks := t.callbacks)
        && (|payload| >= 23 ==> Describes(t.deviceInfo, payload))
        && t.callbacks == h.callbacks
           + if h.current.value.hasCallback then [CallbackRun(h.current.value.id, payload)] else []
      else t == h
  {
    var raw := [6, 0x80, |payload|] + payload;
    assert raw[3..3 + |payload|] == payload;
    assert ParseReport6(raw) == Some(DeviceInfo(payload));
    if |payload| >= 23 {
      InfoDescribes(payload);
    }
  }

  // ─── From the reports on ──────────────────────────────────────────────────

  /** Every packet is a Report 6 as long as its header says. */
  lemma {:induction false} PacketsExact(chunks: seq<seq<byte>>, first: bool, answers: bool, i: nat)
    requires Sendable(chunks) && i < |PacketsFrom(chunks, first, answers)|
    ensures Exact(PacketsFrom(chunks, first, answers)[i]) && PacketsFrom(chunks, first, answers)[i][0] == 6
    decreases |chunks|
  {
    if i > 0 {
      PacketsExact(chunks[1..], false, answers, i - 1);
    }
  }

  lemma {:induction false} AllPacketsExact(replies: seq<Reply>, i: nat)
    requires AllSendable(replies) && i < |PacketsOf(replies)|
    ensures Exact(PacketsOf(replies)[i]) && PacketsOf(replies)[i][0] == 6
    decreases |replies|
  {
    var n := |PacketsFrom(replies[0].chunks, true, replies[0].answers)|;
    if i < n {
      PacketsExact(replies[0].chunks, true, replies[0].answers, i);
    } else {
      AllPacketsExact(replies[1..], i - n);
    }
  }

  /** In the byte buffer the packets of the replies are found again, and nothing is left over. */
  lemma RepliesInBuffer(replies: seq<Reply>)
    requires AllSendable(replies)
    ensures Frames(Concat(PacketsOf(replies))) == PacketsOf(replies)
    ensures Rest(Concat(PacketsOf(replies))) == []
  {
    forall i | 0 <= i < |PacketsOf(replies)|
      ensures Exact(PacketsOf(replies)[i])
    {
      AllPacketsExact(replies, i);
    }
    ExactFrames(PacketsOf(replies));
  }

  /** Reports that each hold one packet, filled up in any way. */
  predicate Reports(results: seq<ReadResult>, packets: seq<seq<byte>>) {
    && |results| == |packets|
    && forall i :: 0 <= i < |packets| ==> results[i].Data? && packets[i] <= results[i].bytes
  }

  /** A poll gathers from the reports exactly the packets in them. */
  lemma {:induction false} PacketsGathered(results: seq<ReadResult>, packets: seq<seq<byte>>)
    requires Reports(results, packets)
    requires forall i :: 0 <= i < |packets| ==> Exact(packets[i]) && packets[i][0] == 6
    ensures Gathered(results) == packets && !Fails(results)
    decreases |packets|
  {
    if packets != [] {
      var bytes := results[0].bytes;
      assert bytes[0] == packets[0][0] && bytes[2] == packets[0][2];
      assert bytes[..|packets[0]|] == packets[0];
      assert P.Accepted(bytes) == [packets[0]];
      PacketsGathered(results[1..], packets[1..]);
      assert packets == [packets[0]] + packets[1..];
    }
  }

  /** The answer and the replies before it, from the reports of one poll to the callback. */
  lemma AnswerIsHeard(h: Handle, results: seq<ReadResult>, earlier: seq<Reply>, answer: Reply)
    requires h.active && h.current.Some? && h.current.value.hasCallback
    requires AllSendable(earlier) && NoneAnswers(earlier)
    requires Sendable(answer.chunks) && answer.answers && Concat(answer.chunks) != []
    requires Reports(results, PacketsOf(earlier + [answer]))
    ensures AllHandled(h, Frames(Concat(Gathered(results)))).callbacks
         == h.callbacks + [CallbackRun(h.current.value.id, Concat(answer.chunks))]
  {
    var replies := earlier + [answer];
    forall i | 0 <= i < |PacketsOf(replies)|
      ensures Exact(PacketsOf(replies)[i]) && PacketsOf(replies)[i][0] == 6
    {
      AllPacketsExact(replies, i);
    }
    PacketsGathered(results, PacketsOf(replies));
    RepliesInBuffer(replies);
    PacketsAppend(earlier, answer);
    AnswerReachesCallback(h, earlier, answer);
  }

  lemma {:induction false} PacketsAppend(earlier: seq<Reply>, answer: Reply)
    requires AllSendable(earlier) && Sendable(answer.chunks)
    ensures PacketsOf(earlier + [answer]) == PacketsOf(earlier) + PacketsFrom(answer.chunks, true, answer.answers)
  {
    if earlier == [] {
      assert [answer][1..] == [];
    } else {
      assert (earlier + [answer])[1..] == earlier[1..] + [answer];
      PacketsAppend(earlier[1..], answer);
    }
  }

  // ─── The input state ──────────────────────────────────────────────────────

  /** The panel states that input reports, Report 3, tell of, low byte first. */
  function StatesIn(results: seq<ReadResult>): seq<nat> {
    if results == [] || !results[0].Data? || results[0].bytes == [] then []
    else
      var bytes := results[0].bytes;
      (if |bytes| >= 3 && bytes[0] == 3 then [bytes[1] as int + 256 * bytes[2] as int] else [])
      + StatesIn(results[1..])
  }

  /** The states that differ from the one before. */
  function Changes(from: nat, states: seq<nat>): seq<nat>
    decreases |states|
  {
    if states == [] then []
    else (if states[0] == from then [] else [states[0]]) + Changes(states[0], states[1..])
  }

  /** The input state is the last of `states`; the callback has run with each, or with each change. */
  predicate Follows(log: InputLog, always: bool, states: seq<nat>, after: InputLog) {
    && after.state == (if states == [] then log.state else states[|states| - 1])
    && after.calls == log.calls + if always then states else Changes(log.state, states)
  }

  lemma FollowsMore(log: InputLog, always: bool, state: nat, later: seq<nat>, after: InputLog)
    requires Follows(InputLog(state, log.calls + if state != log.state || always then [state] else []),
                     always, later, after)
    ensures Follows(log, always, [state] + later, after)
  {
    var first := if state != log.state || always then [state] else [];
    assert ([state] + later)[1..] == later;
    Assoc(log.calls, first, if always then later else Changes(state, later));
  }

  /**
   A poll leaves the last state reported, or the old one, and runs the input callback with each
   state reported, or with each change unless all are asked for.
   */
  lemma {:induction false} InputFollows(log: InputLog, always: bool, results: seq<ReadResult>)
    ensures Follows(log, always, StatesIn(results), InputAfter(log, always, results))
    decreases |results|
  {
    if results != [] && results[0].Data? && results[0].bytes != [] {
      var next, later := ReportSeen(log, always, results[0].bytes), StatesIn(results[1..]);
      InputFollows(next, always, results[1..]);
      if |results[0].bytes| >= 3 && results[0].bytes[0] == 3 {
        FollowsMore(log, always, next.state, later, InputAfter(log, always, results));
      } else {
        assert StatesIn(results) == [] + later == later;
      }
    } else {
      assert log.calls + [] == log.calls;
    }
  }
}
