/**
 One connection as a system of three interleaved threads. Every atomic access to
 something shared (a flag load or store, a channel operation, one packet write,
 one lock-protected buffer operation) is a step of its own; API calls on the
 command handle are single steps because they hold it exclusively.

 The state is split by who touches it: the main thread's desk, the inbox it
 shares with the poll thread and the link it shares with the writer thread.
 History fields record what the program itself does not keep; no step's decision
 reads them.
 */
module Pipeline {
  import opened Bytes
  import opened Protocol
  import opened Framing
  import opened CommandQueue

  // ─── The main thread's desk ───────────────────────────────────────────────

  /** Where the main thread is inside `update`. */
  datatype MainPc =
    | Idle
    | LoadWriteError
    | CheckTimeout
    | TakeBuffer
    | Reading(data: seq<byte>)
    | CheckWrites
    | HandOff(command: Command)
    | HandOffFailed(command: Command)
    | Gone

  /** History: every request in order, and where the ended ones went. */
  datatype Ledger = Ledger(
    queued: seq<Request>,
    finished: seq<Command>,        // ended by a response
    cancelled: seq<Command>,       // ended by close or a failed hand-off
    dropped: seq<Command>,         // lights removed by drop_queued_lights
    timeouts: nat,                 // retries after a timeout
    closedCurrent: nat)            // closes that found a current command

  datatype Desk = Desk(pc: MainPc, handle: Handle, ledger: Ledger)

  function Enqueued(d: Desk, r: Request, front: bool): Desk {
    var c := MakeCommand(|d.ledger.queued|, r);
    d.(handle := if front then QueuedFront(d.handle, c) else QueuedBack(d.handle, c),
       ledger := d.ledger.(queued := d.ledger.queued + [r]))
  }

  function LightsPurged(d: Desk): Desk {
    d.(handle := LightsDropped(d.handle),
       ledger := d.ledger.(dropped := d.ledger.dropped + OnlyLights(d.handle.pending)))
  }

  function ClosedDesk(d: Desk): Desk {
    d.(handle := Closed(d.handle),
       ledger := d.ledger.(
         cancelled := d.ledger.cancelled + (AsSeq(d.handle.current) + d.handle.pending),
         closedCurrent := d.ledger.closedCurrent + |AsSeq(d.handle.current)|))
  }

  function TimeoutChecked(d: Desk, now: nat): Desk {
    d.(pc := TakeBuffer,
       handle := Retried(d.handle, now),
       ledger := d.ledger.(timeouts := d.ledger.timeouts + if TimedOut(d.handle, now) then 1 else 0))
  }

  /** Handles the next whole packet of the data taken from the buffer. */
  function NextHandled(d: Desk): Desk
    requires d.pc.Reading? && HasFrame(d.pc.data)
  {
    var n := PacketLength(d.pc.data);
    var h := PacketHandled(d.handle, d.pc.data[..n]);
    var ended := d.handle.current.Some? && h.current.None?;
    d.(pc := Reading(d.pc.data[n..]),
       handle := h,
       ledger := if ended then d.ledger.(finished := d.ledger.finished + [d.handle.current.value]) else d.ledger)
  }

  /** `check_writes` takes the next command off the queue. */
  predicate PopsNext(d: Desk) {
    d.handle.current.None? && d.handle.pending != []
  }

  function WritesChecked(d: Desk, writeInFlight: bool, now: nat): Desk {
    if PopsNext(d) then
      d.(pc := HandOff(d.handle.pending[0]), handle := d.handle.(pending := d.handle.pending[1..]))
    else
      d.(pc := Idle, handle := Promoted(d.handle, writeInFlight, now))
  }

  function HandOffDone(d: Desk, accepted: bool): Desk
    requires d.pc.HandOff?
  {
    if accepted then d.(pc := Idle, handle := d.handle.(current := Some(d.pc.command)))
    else d.(pc := HandOffFailed(d.pc.command))
  }

  function HandOffAborted(d: Desk): Desk
    requires d.pc.HandOffFailed?
  {
    var c := d.pc.command;
    d.(pc := Idle,
       handle := d.handle.(callbacks := d.handle.callbacks + CallbackOf(c, [])),
       ledger := d.ledger.(cancelled := d.ledger.cancelled + [c]))
  }

  // ─── The link to the writer thread ────────────────────────────────────────

  /** The packets of one command on their way to the writer thread. */
  datatype Job = Job(id: nat, packets: seq<Packet>)

  datatype WriterPc =
    | Receiving
    | Writing(job: Job, next: nat)
    | FlagError
    | ClearInFlight
    | LoadError
    | Exited

  datatype Link = Link(
    writer: WriterPc,
    channel: seq<Job>,
    senderOpen: bool,
    receiverOpen: bool,
    writeError: bool,
    writeInFlight: bool,
    handed: seq<Job>,              // history: jobs accepted by the channel, in order
    wire: seq<Packet>,             // history: packets written, in order
    written: nat,                  // history: jobs wholly on the wire
    partial: nat)                  // history: packets of the next job on the wire

  predicate ChannelOpen(l: Link) {
    l.senderOpen && l.receiverOpen
  }

  function Sent(l: Link, job: Job): Link {
    l.(channel := l.channel + [job], handed := l.handed + [job])
  }

  /** One packet of the current job reached the wire. */
  function PacketWritten(l: Link): Link
    requires l.writer.Writing? && l.writer.next < |l.writer.job.packets|
  {
    var i := l.writer.next;
    var packet := l.writer.job.packets[i];
    if i + 1 == |l.writer.job.packets| then
      l.(writer := ClearInFlight, wire := l.wire + [packet], written := l.written + 1, partial := 0)
    else
      l.(writer := Writing(l.writer.job, i + 1), wire := l.wire + [packet], partial := i + 1)
  }

  /** The writer's next atomic step; `ok` is the result of a packet write. */
  function WriterStep(l: Link, ok: bool): Link {
    match l.writer
    case Receiving =>
      if l.channel != [] then
        l.(writer := Writing(l.channel[0], 0), channel := l.channel[1..])
      else if !l.senderOpen then
        l.(writer := Exited, receiverOpen := false)
      else
        l
    case Writing(job, next) =>
      if next >= |job.packets| then l.(writer := ClearInFlight)
      else if ok then PacketWritten(l)
      else l.(writer := FlagError)
    case FlagError => l.(writer := ClearInFlight, writeError := true)
    case ClearInFlight => l.(writer := LoadError, writeInFlight := false)
    case LoadError =>
      if l.writeError then l.(writer := Exited, receiverOpen := false, channel := [])
      else l.(writer := Receiving)
    case Exited => l
  }

  // ─── The inbox fed by the poll thread ─────────────────────────────────────

  /** `accepted` are the Report 6 packets gathered by the current call of `poll`. */
  datatype PollPc = Polling | Draining(accepted: seq<seq<byte>>)

  datatype Inbox = Inbox(
    poll: PollPc,
    buffer: seq<byte>,
    readError: bool,
    published: seq<seq<byte>>,     // history: packets appended to the shared buffer
    taken: nat,                    // history: how many of them the main thread has taken
    handled: seq<seq<byte>>,       // history: packets handled by the main thread
    answersRead: nat)              // history: answers the device delivered to a read

  /** The packet `poll` keeps of what one read returned. */
  function Accepted(bytes: seq<byte>): seq<seq<byte>> {
    if |bytes| >= 3 && bytes[0] == HID_REPORT_DATA && |bytes| >= PacketLength(bytes) then
      [bytes[..PacketLength(bytes)]]
    else
      []
  }

  /** The packet tells the host that a command is done. */
  predicate IsAnswer(raw: seq<byte>) {
    match ParseReport6(raw)
    case None => false
    case Some(DeviceInfo(_)) => true
    case Some(Fragment(_, _, _, hostCmdFinished)) => hostCmdFinished
  }

  function Answers(packets: seq<seq<byte>>): nat {
    if packets == [] then 0 else (if IsAnswer(packets[0]) then 1 else 0) + Answers(packets[1..])
  }

  /** A poll after a read error does nothing. */
  function PollBegun(b: Inbox): Inbox {
    if b.poll.Polling? && !b.readError then b.(poll := Draining([])) else b
  }

  function Gathered(b: Inbox, bytes: seq<byte>): Inbox {
    if b.poll.Draining? then
      b.(poll := Draining(b.poll.accepted + Accepted(bytes)),
         answersRead := b.answersRead + Answers(Accepted(bytes)))
    else
      b
  }

  function PollEnded(b: Inbox): Inbox {
    if b.poll.Draining? then
      b.(poll := Polling,
         buffer := b.buffer + Concat(b.poll.accepted),
         published := b.published + b.poll.accepted)
    else
      b
  }

  /** A read error throws away what this call of `poll` had gathered. */
  function PollFailed(b: Inbox): Inbox {
    if b.poll.Draining? then b.(poll := Polling, readError := true) else b
  }

  function BufferTaken(b: Inbox): Inbox {
    b.(buffer := [], taken := |b.published|)
  }

  function PutBack(b: Inbox, remainder: seq<byte>): Inbox {
    b.(buffer := remainder + b.buffer)
  }

  // ─── The whole connection ─────────────────────────────────────────────────

  datatype State = State(desk: Desk, inbox: Inbox, link: Link, now: nat)

  const INFO_REQUEST := InfoRequest(false)

  const EMPTY_INBOX := Inbox(Polling, [], false, [], 0, [], 0)
  const EMPTY_LINK := Link(Receiving, [], true, true, false, false, [], [], 0, 0)
  const OPENED_DESK :=
    Desk(Idle, QueuedBack(EMPTY_HANDLE, MakeCommand(0, INFO_REQUEST)), Ledger([INFO_REQUEST], [], [], [], 0, 0))

  /** A connection as `open_connection` leaves it: the device info request is queued. */
  const OPENED := State(OPENED_DESK, EMPTY_INBOX, EMPTY_LINK, 0)

  datatype Step =
    // Callers of the command handle.
    | Queue(request: Request, front: bool)
    | DropLights
    | ReadPacket
    | SetActive(active: bool)
    | Close
    | DropHandle
    // The main thread inside `update`.
    | Main
    // The writer thread.
    | Writer(ok: bool)
    // The poll thread.
    | PollBegin
    | PollRead(bytes: seq<byte>)
    | PollFail
    | PollEnd
    // Time passes.
    | Tick(elapsed: nat)

  /** What a caller does to the desk; only possible outside `update`. */
  function Called(d: Desk, step: Step): Desk {
    match step
    case Queue(r, front) => Enqueued(d, r, front)
    case DropLights => LightsPurged(d)
    case ReadPacket =>
      if d.handle.readBuffers == [] then d
      else d.(handle := d.handle.(readBuffers := d.handle.readBuffers[1..]))
    case SetActive(active) => d.(handle := d.handle.(active := active))
    case Close => ClosedDesk(d)
    case DropHandle => d.(pc := Gone)
    case _ => d
  }

  /** The next atomic step of `update`; from `Idle` it starts one. */
  function MainStep(s: State): State {
    match s.desk.pc
    case Idle =>
      if s.inbox.readError then s else s.(desk := s.desk.(pc := LoadWriteError))
    case LoadWriteError =>
      s.(desk := s.desk.(pc := if s.link.writeError then Idle else CheckTimeout))
    case CheckTimeout =>
      s.(desk := TimeoutChecked(s.desk, s.now))
    case TakeBuffer =>
      s.(desk := s.desk.(pc := Reading(s.inbox.buffer)), inbox := BufferTaken(s.inbox))
    case Reading(data) =>
      if HasFrame(data) then
        s.(desk := NextHandled(s.desk),
           inbox := s.inbox.(handled := s.inbox.handled + [data[..PacketLength(data)]]))
      else
        s.(desk := s.desk.(pc := CheckWrites), inbox := PutBack(s.inbox, data))
    case CheckWrites =>
      s.(desk := WritesChecked(s.desk, s.link.writeInFlight, s.now),
         link := if PopsNext(s.desk) then s.link.(writeInFlight := true) else s.link)
    case HandOff(c) =>
      s.(desk := HandOffDone(s.desk, ChannelOpen(s.link)),
         link := if ChannelOpen(s.link) then Sent(s.link, Job(c.id, c.packets)) else s.link)
    case HandOffFailed(_) =>
      s.(desk := HandOffAborted(s.desk), link := s.link.(writeInFlight := false))
    case Gone => s
  }

  /** The state after `step`; a step that is not possible in `s` leaves it as it is. */
  function Apply(s: State, step: Step): State {
    match step
    case Main => MainStep(s)
    case Writer(ok) => s.(link := WriterStep(s.link, ok))
    case PollBegin => s.(inbox := PollBegun(s.inbox))
    case PollRead(bytes) => s.(inbox := Gathered(s.inbox, bytes))
    case PollFail => s.(inbox := PollFailed(s.inbox))
    case PollEnd => s.(inbox := PollEnded(s.inbox))
    case Tick(elapsed) => s.(now := s.now + elapsed)
    case _ =>
      if !s.desk.pc.Idle? then s
      else s.(desk := Called(s.desk, step), link := if step.DropHandle? then s.link.(senderOpen := false) else s.link)
  }

  /** The state after a whole run, from a state onwards. */
  function Exec(s: State, steps: seq<Step>): State {
    if steps == [] then s else Apply(Exec(s, steps[..|steps| - 1]), steps[|steps| - 1])
  }
}
