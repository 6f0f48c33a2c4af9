/**
 The connection as it is written: three objects over shared state, each method
 proved against the value functions the step system is made of. Every method here
 runs without interruption; `Pipeline` cuts the same work into its atomic steps.
 */
module Connection {
  import opened Bytes
  import opened Protocol
  import opened Framing
  import opened CommandQueue
  import P = Pipeline

  /** What the three threads share. */
  class SharedState {
    var inputState: nat
    var alwaysFireInput: bool
    var hadReadError: bool
    var hadWriteError: bool
    var writeInFlight: bool
    var report6Buffer: seq<byte>

    constructor ()
      ensures inputState == 0 && !alwaysFireInput
      ensures !hadReadError && !hadWriteError && !writeInFlight && report6Buffer == []
    {
      inputState, alwaysFireInput := 0, false;
      hadReadError, hadWriteError, writeInFlight := false, false, false;
      report6Buffer := [];
    }
  }

  /** The channel that carries one command's packets per message to the writer thread. */
  class JobChannel {
    var jobs: seq<seq<Packet>>
    var senderOpen: bool
    var receiverOpen: bool

    constructor ()
      ensures jobs == [] && senderOpen && receiverOpen
    {
      jobs, senderOpen, receiverOpen := [], true, true;
    }

    predicate Open()
      reads this
    {
      senderOpen && receiverOpen
    }

    method Send(job: seq<Packet>) returns (accepted: bool)
      modifies this`jobs
      ensures accepted == Open()
      ensures jobs == if Open() then old(jobs) + [job] else old(jobs)
    {
      accepted := senderOpen && receiverOpen;
      if accepted {
        jobs := jobs + [job];
      }
    }
  }

  // ─── The main thread's side ───────────────────────────────────────────────

  /** The handle after `check_writes`, given what it finds in the flag and the channel. */
  function AfterWrites(h: Handle, writeInFlight: bool, channelOpen: bool, now: nat): Handle {
    if h.current.Some? || h.pending == [] then Promoted(h, writeInFlight, now)
    else if channelOpen then h.(current := Some(h.pending[0]), pending := h.pending[1..])
    else h.(pending := h.pending[1..], callbacks := h.callbacks + CallbackOf(h.pending[0], []))
  }

  predicate HandsOver(h: Handle) {
    h.current.None? && h.pending != []
  }

  lemma {:induction false} CancelRunsSplit(a: seq<Command>, b: seq<Command>)
    ensures CancelRuns(a + b) == CancelRuns(a) + CancelRuns(b)
  {
    if a == [] {
      assert a + b == b;
    } else {
      CancelRunsSplit(a[1..], b);
      assert (a + b)[1..] == a[1..] + b;
      Assoc(CallbackOf(a[0], []), CancelRuns(a[1..]), CancelRuns(b));
    }
  }

  class CommandHandle {
    const channel: JobChannel
    const shared: SharedState
    const path: string

    var active: bool
    var gotInfo: bool
    var deviceInfo: DeviceInfoRecord
    const reassembler: PacketReassembler
    var readBuffers: seq<seq<byte>>
    var pendingCommands: seq<Command>
    var currentCommand: Option<Command>

    var requests: nat                   // requests made so far, the next command's place
    var callbacks: seq<CallbackRun>     // callbacks run so far

    function View(): Handle
      reads this, reassembler
    {
      Handle(active, gotInfo, deviceInfo, reassembler.View(), readBuffers, pendingCommands, currentCommand, callbacks)
    }

    /** A new connection has queued the request for the device's information. */
    constructor (path: string, shared: SharedState, channel: JobChannel)
      ensures this.path == path && this.shared == shared && this.channel == channel
      ensures fresh(reassembler)
      ensures View() == P.OPENED_DESK.handle && requests == 1
    {
      this.path, this.shared, this.channel := path, shared, channel;
      active, gotInfo, deviceInfo := false, false, NO_DEVICE_INFO;
      reassembler := new PacketReassembler();
      readBuffers, pendingCommands, currentCommand := [], [], None;
      requests, callbacks := 0, [];
      new;
      RequestDeviceInfo(false);
    }

    method RequestDeviceInfo(callback: bool)
      modifies this
      ensures View() == QueuedBack(old(View()), MakeCommand(old(requests), InfoRequest(callback)))
      ensures requests == old(requests) + 1
    {
      var packet := DeviceInfoRequest();
      pendingCommands := pendingCommands + [Command(requests, [packet], callback, true, false, false, None)];
      requests := requests + 1;
    }

    method SendCommand(cmd: seq<byte>, callback: bool)
      modifies this
      ensures View() == QueuedBack(old(View()), MakeCommand(old(requests), PlainRequest(cmd, callback)))
      ensures requests == old(requests) + 1
    {
      var packets := BuildCommandPackets(cmd);
      pendingCommands := pendingCommands + [Command(requests, packets, callback, false, false, false, None)];
      requests := requests + 1;
    }

    method SendCommandPriority(cmd: seq<byte>, callback: bool)
      modifies this
      ensures View() == QueuedFront(old(View()), MakeCommand(old(requests), PlainRequest(cmd, callback)))
      ensures requests == old(requests) + 1
    {
      var packets := BuildCommandPackets(cmd);
      pendingCommands := [Command(requests, packets, callback, false, false, false, None)] + pendingCommands;
      requests := requests + 1;
    }

    method SendCommandLights(cmd: seq<byte>)
      modifies this
      ensures View() == QueuedBack(old(View()), MakeCommand(old(requests), LightsRequest(cmd)))
      ensures requests == old(requests) + 1
    {
      var packets := BuildCommandPackets(cmd);
      pendingCommands := pendingCommands + [Command(requests, packets, false, false, true, false, None)];
      requests := requests + 1;
    }

    method AnyUnsentLights() returns (any: bool)
      ensures any == HasUnsentLights(View())
    {
      for i := 0 to |pendingCommands|
        invariant forall k :: 0 <= k < i ==> !pendingCommands[k].isLights
      {
        if pendingCommands[i].isLights {
          return true;
        }
      }
      return false;
    }

    /** Keeps what is not a lights command, in order. */
    method DropQueuedLights()
      modifies this`pendingCommands
      ensures View() == LightsDropped(old(View()))
    {
      var kept := [];
      for i := 0 to |pendingCommands|
        invariant pendingCommands == old(pendingCommands)
        invariant kept + WithoutLights(pendingCommands[i..]) == WithoutLights(pendingCommands)
      {
        var c := pendingCommands[i];
        assert pendingCommands[i..][1..] == pendingCommands[i + 1..];
        if !c.isLights {
          Assoc(kept, [c], WithoutLights(pendingCommands[i + 1..]));
          kept := kept + [c];
        }
      }
      pendingCommands := kept;
    }

    method ReadPacket() returns (packet: Option<seq<byte>>)
      modifies this`readBuffers
      ensures old(readBuffers) == [] ==> packet.None? && readBuffers == []
      ensures old(readBuffers) != [] ==> packet.Some? && [packet.value] + readBuffers == old(readBuffers)
    {
      if readBuffers == [] {
        return None;
      }
      packet := Some(readBuffers[0]);
      readBuffers := readBuffers[1..];
    }

    method RunCallback(c: Command, response: seq<byte>)
      modifies this`callbacks
      ensures callbacks == old(callbacks) + CallbackOf(c, response)
    {
      if c.hasCallback {
        callbacks := callbacks + [CallbackRun(c.id, response)];
      }
    }

    method Close()
      modifies this
      ensures View() == Closed(old(View())) && requests == old(requests)
    {
      if currentCommand.Some? {
        RunCallback(currentCommand.value, []);
        currentCommand := None;
      }
      ghost var before := callbacks;
      assert before == old(callbacks) + CancelRuns(AsSeq(old(currentCommand)));
      var drained := pendingCommands;
      pendingCommands := [];
      for i := 0 to |drained|
        modifies this`callbacks
        invariant callbacks + CancelRuns(drained[i..]) == before + CancelRuns(drained)
      {
        assert drained[i..][1..] == drained[i + 1..];
        Assoc(callbacks, CallbackOf(drained[i], []), CancelRuns(drained[i + 1..]));
        RunCallback(drained[i], []);
      }
      CancelRunsSplit(AsSeq(old(currentCommand)), drained);
      Assoc(old(callbacks), CancelRuns(AsSeq(old(currentCommand))), CancelRuns(drained));
      readBuffers := [];
      active, gotInfo := false, false;
    }

    // ─── One pass of input and output ───────────────────────────────────────

    /** Sends a command back to the queue when its response is overdue. */
    method CheckTimeout(now: nat)
      modifies this
      ensures View() == Retried(old(View()), now) && requests == old(requests)
    {
      if currentCommand.Some? && currentCommand.value.sent && currentCommand.value.sentAt.Some?
         && now > currentCommand.value.sentAt.value + COMMAND_TIMEOUT
      {
        var cmd := currentCommand.value.(sent := false, sentAt := None);
        currentCommand := None;
        pendingCommands := [cmd] + pendingCommands;
      }
    }

    method HandlePacket(raw: seq<byte>)
      modifies this, reassembler
      ensures View() == PacketHandled(old(View()), raw) && requests == old(requests)
    {
      var parsed := ParseReport6(raw);
      if parsed.None? {
        return;
      }
      match parsed.value {
        case DeviceInfo(payload) =>
          if currentCommand.None? || !currentCommand.value.isDeviceInfo {
            return;
          }
          deviceInfo := ParseDeviceInfo(payload);
          gotInfo := true;
          RunCallback(currentCommand.value, payload);
          currentCommand := None;
        case Fragment(payload, startOfCommand, endOfCommand, hostCmdFinished) =>
          if !active {
            return;
          }
          var finished := reassembler.Push(parsed.value);
          var completed := reassembler.TakeCompleted();
          readBuffers := readBuffers + completed;
          if finished && currentCommand.Some? {
            RunCallback(currentCommand.value, LastOrEmpty(readBuffers));
            currentCommand := None;
          }
      }
    }

    /** Handles every whole packet of `data`, in order; `rest` is what no packet covers. */
    method HandleAll(data: seq<byte>) returns (rest: seq<byte>)
      modifies this, reassembler
      ensures View() == AllHandled(old(View()), Frames(data)) && requests == old(requests)
      ensures rest == Rest(data)
    {
      var offset := 0;
      while offset + 3 <= |data| && offset + PacketLength(data[offset..]) <= |data|
        invariant offset <= |data|
        invariant AllHandled(View(), Frames(data[offset..])) == AllHandled(old(View()), Frames(data))
        invariant Rest(data[offset..]) == Rest(data)
        invariant requests == old(requests)
      {
        var packetLen := PacketLength(data[offset..]);
        assert data[offset..offset + packetLen] == data[offset..][..packetLen];
        assert data[offset + packetLen..] == data[offset..][packetLen..];
        HandlePacket(data[offset..offset + packetLen]);
        offset := offset + packetLen;
      }
      rest := data[offset..];
    }

    /** Takes the buffer, handles its packets and puts the remainder back in front. */
    method CheckReads(now: nat)
      modifies this, reassembler, shared`report6Buffer
      ensures View() == AllHandled(Retried(old(View()), now), Frames(old(shared.report6Buffer)))
      ensures shared.report6Buffer == Rest(old(shared.report6Buffer))
      ensures requests == old(requests)
    {
      CheckTimeout(now);
      var data := shared.report6Buffer;
      shared.report6Buffer := [];
      var rest := HandleAll(data);
      if rest != [] {
        shared.report6Buffer := rest + shared.report6Buffer;
      }
    }

    /** Starts the timeout of the current command, or hands over the next one. */
    method CheckWrites(now: nat) returns (ok: bool)
      modifies this, shared`writeInFlight, channel`jobs
      ensures View() == AfterWrites(old(View()), old(shared.writeInFlight), channel.Open(), now)
      ensures requests == old(requests)
      ensures ok == (!HandsOver(old(View())) || channel.Open())
      ensures shared.writeInFlight ==
        if HandsOver(old(View())) then channel.Open() else old(shared.writeInFlight)
      ensures channel.jobs ==
        if HandsOver(old(View())) && channel.Open() then old(channel.jobs) + [old(pendingCommands[0].packets)]
        else old(channel.jobs)
    {
      if currentCommand.Some? {
        if !currentCommand.value.sent && !shared.writeInFlight {
          currentCommand := Some(currentCommand.value.(sent := true, sentAt := Some(now)));
        }
        return true;
      }
      if pendingCommands == [] {
        return true;
      }
      var cmd := pendingCommands[0];
      pendingCommands := pendingCommands[1..];
      shared.writeInFlight := true;
      var handedOff := channel.Send(cmd.packets);
      if !handedOff {
        shared.writeInFlight := false;
        RunCallback(cmd, []);
        return false;
      }
      currentCommand := Some(cmd);
      return true;
    }

    /** The handle's whole pass; false means the device should be disconnected. */
    method Update(now: nat) returns (ok: bool)
      modifies this, reassembler, shared`report6Buffer, shared`writeInFlight, channel`jobs
      ensures requests == old(requests)
      ensures old(shared.hadReadError || shared.hadWriteError) ==>
        !ok && View() == old(View()) && shared.report6Buffer == old(shared.report6Buffer)
        && shared.writeInFlight == old(shared.writeInFlight) && channel.jobs == old(channel.jobs)
      ensures !old(shared.hadReadError || shared.hadWriteError) ==>
        var read := AllHandled(Retried(old(View()), now), Frames(old(shared.report6Buffer)));
        && View() == AfterWrites(read, old(shared.writeInFlight), channel.Open(), now)
        && shared.report6Buffer == Rest(old(shared.report6Buffer))
        && ok == (!HandsOver(read) || channel.Open())
        && shared.writeInFlight == (if HandsOver(read) then channel.Open() else old(shared.writeInFlight))
        && channel.jobs == (if HandsOver(read) && channel.Open() then old(channel.jobs) + [read.pending[0].packets]
                            else old(channel.jobs))
    {
      if shared.hadReadError || shared.hadWriteError {
        return false;
      }
      CheckReads(now);
      ok := CheckWrites(now);
    }
  }

  // ─── The poll thread's side ───────────────────────────────────────────────

  /** What one read of the device gives. */
  datatype ReadResult = Data(bytes: seq<byte>) | NoData | ReadFailed

  /** The Report 6 packets of the reads before the first that gives nothing or fails. */
  function Gathered(results: seq<ReadResult>): seq<seq<byte>> {
    if results == [] || !results[0].Data? || results[0].bytes == [] then []
    else P.Accepted(results[0].bytes) + Gathered(results[1..])
  }

  predicate Fails(results: seq<ReadResult>) {
    results != [] && (results[0].ReadFailed? || (results[0].Data? && results[0].bytes != [] && Fails(results[1..])))
  }

  lemma GatherNext(local: seq<byte>, results: seq<ReadResult>)
    requires results != [] && results[0].Data? && results[0].bytes != []
    ensures local + Concat(Gathered(results))
         == (local + Concat(P.Accepted(results[0].bytes))) + Concat(Gathered(results[1..]))
  {
    ConcatAppend(P.Accepted(results[0].bytes), Gathered(results[1..]));
  }

  /** The pressed panels an input report carries. */
  function InputOf(bytes: seq<byte>): Option<nat> {
    if |bytes| >= 3 && bytes[0] == HID_REPORT_INPUT_STATE then Some(Word(bytes[1], bytes[2])) else None
  }

  function Word(low: byte, high: byte): nat {
    (low as int) + 256 * (high as int)
  }

  /** The input state and the values the input callback was run with. */
  datatype InputLog = InputLog(state: nat, calls: seq<nat>)

  function ReportSeen(log: InputLog, always: bool, bytes: seq<byte>): InputLog {
    match InputOf(bytes)
    case None => log
    case Some(next) => InputLog(next, log.calls + if next != log.state || always then [next] else [])
  }

  /** The same after the reads of one poll. */
  function InputAfter(log: InputLog, always: bool, results: seq<ReadResult>): InputLog
    decreases |results|
  {
    if results == [] || !results[0].Data? || results[0].bytes == [] then log
    else InputAfter(ReportSeen(log, always, results[0].bytes), always, results[1..])
  }

  class PollHandle {
    const shared: SharedState
    var inputCalls: seq<nat>            // values the input callback was run with

    constructor (shared: SharedState)
      ensures this.shared == shared && inputCalls == []
    {
      this.shared := shared;
      inputCalls := [];
    }

    function Input(): InputLog
      reads this, shared
    {
      InputLog(shared.inputState, inputCalls)
    }

    /** Takes in one report; a whole Report 6 packet is returned for the buffer. */
    method HandleReport(buf: seq<byte>) returns (data: seq<byte>)
      requires buf != []
      modifies this, shared`inputState
      ensures Input() == ReportSeen(old(Input()), shared.alwaysFireInput, buf)
      ensures data == Concat(P.Accepted(buf))
    {
      data := [];
      if buf[0] == HID_REPORT_INPUT_STATE {
        if |buf| < 3 {
          return;
        }
        var newState := Word(buf[1], buf[2]);
        var changed := shared.inputState != newState;
        if changed {
          shared.inputState := newState;
        }
        if changed || shared.alwaysFireInput {
          inputCalls := inputCalls + [newState];
        }
      } else if buf[0] == HID_REPORT_DATA {
        if |buf| < 3 || |buf| < PacketLength(buf) {
          return;
        }
        data := buf[..PacketLength(buf)];
        assert Concat([data]) == data;
      }
    }

    /**
     Drains the device: `results` are the results of the reads it makes, in order. The
     packets of an error-free poll are appended to the buffer; a failed one publishes none.
     */
    method Poll(results: seq<ReadResult>) returns (any: bool)
      modifies this, shared`inputState, shared`hadReadError, shared`report6Buffer
      ensures old(shared.hadReadError) ==>
        !any && Input() == old(Input()) && shared.report6Buffer == old(shared.report6Buffer) && shared.hadReadError
      ensures !old(shared.hadReadError) ==>
        && shared.hadReadError == Fails(results)
        && shared.report6Buffer == old(shared.report6Buffer) + (if Fails(results) then [] else Concat(Gathered(results)))
        && any == (!Fails(results) && Concat(Gathered(results)) != [])
        && Input() == InputAfter(old(Input()), shared.alwaysFireInput, results)
    {
      if shared.hadReadError {
        return false;
      }
      var report6Local := [];
      var i := 0;
      while i < |results| && results[i].Data? && results[i].bytes != []
        modifies this, shared`inputState
        invariant i <= |results|
        invariant report6Local + Concat(Gathered(results[i..])) == Concat(Gathered(results))
        invariant Fails(results[i..]) == Fails(results)
        invariant InputAfter(Input(), shared.alwaysFireInput, results[i..])
               == InputAfter(old(Input()), shared.alwaysFireInput, results)
        decreases |results| - i
      {
        assert results[i..][1..] == results[i + 1..];
        GatherNext(report6Local, results[i..]);
        var data := HandleReport(results[i].bytes);
        report6Local := report6Local + data;
        i := i + 1;
      }
      if i < |results| && results[i].ReadFailed? {
        shared.hadReadError := true;
        return false;
      }
      if report6Local == [] {
        return false;
      }
      shared.report6Buffer := shared.report6Buffer + report6Local;
      return true;
    }
  }

  // ─── The writer thread's side ─────────────────────────────────────────────

  /** How many packets reach the wire when write `i` succeeds exactly if `oks[i]`. */
  function Reached(oks: seq<bool>): (n: nat)
    ensures n <= |oks|
    ensures n < |oks| ==> !oks[n]
    ensures forall i :: 0 <= i < n ==> oks[i]
  {
    if oks == [] || !oks[0] then 0 else 1 + Reached(oks[1..])
  }

  class Writer {
    const channel: JobChannel
    const shared: SharedState
    var wire: seq<Packet>               // packets written so far

    constructor (channel: JobChannel, shared: SharedState)
      ensures this.channel == channel && this.shared == shared && wire == []
    {
      this.channel, this.shared := channel, shared;
      wire := [];
    }

    /** Writes the next job of the channel; `oks` are the results of its packet writes. */
    method WriteJob(oks: seq<bool>) returns (more: bool)
      requires channel.jobs != [] && |oks| == |channel.jobs[0]|
      modifies this, channel`jobs, channel`receiverOpen, shared`hadWriteError, shared`writeInFlight
      ensures wire == old(wire) + old(channel.jobs[0])[..Reached(oks)]
      ensures !shared.writeInFlight
      ensures shared.hadWriteError == (old(shared.hadWriteError) || Reached(oks) < |oks|)
      ensures more == !shared.hadWriteError
      ensures channel.jobs == if more then old(channel.jobs)[1..] else []
      ensures channel.receiverOpen == (old(channel.receiverOpen) && more)
    {
      var packets := channel.jobs[0];
      channel.jobs := channel.jobs[1..];
      var i := 0;
      while i < |packets|
        invariant i <= |packets| && i <= Reached(oks)
        invariant wire == old(wire) + packets[..i]
        invariant shared.hadWriteError == old(shared.hadWriteError)
        invariant channel.jobs == old(channel.jobs)[1..] && channel.receiverOpen == old(channel.receiverOpen)
      {
        if !oks[i] {
          shared.hadWriteError := true;
          break;
        }
        wire := wire + [packets[i]];
        i := i + 1;
      }
      shared.writeInFlight := false;
      if shared.hadWriteError {
        channel.receiverOpen := false;
        channel.jobs := [];
        return false;
      }
      return true;
    }
  }

  // ─── An uninterrupted update is a run of the step system ──────────────────

  function MainSteps(s: P.State, k: nat): P.State {
    if k == 0 then s else P.MainStep(MainSteps(s, k - 1))
  }

  lemma {:induction false} MainStepsAdd(s: P.State, j: nat, k: nat)
    ensures MainSteps(MainSteps(s, j), k) == MainSteps(s, j + k)
  {
    if k > 0 {
      MainStepsAdd(s, j, k - 1);
    }
  }

  /** The commands that end while `packets` are handled. */
  function EndedBy(h: Handle, packets: seq<seq<byte>>): seq<Command>
    decreases |packets|
  {
    if packets == [] then []
    else
      var g := PacketHandled(h, packets[0]);
      (if h.current.Some? && g.current.None? then [h.current.value] else []) + EndedBy(g, packets[1..])
  }

  function LedgerAfterReads(l: P.Ledger, h: Handle, packets: seq<seq<byte>>, now: nat): P.Ledger {
    l.(timeouts := l.timeouts + (if TimedOut(h, now) then 1 else 0),
       finished := l.finished + EndedBy(Retried(h, now), packets))
  }

  function LedgerAfterWrites(l: P.Ledger, h: Handle, channelOpen: bool): P.Ledger {
    if HandsOver(h) && !channelOpen then l.(cancelled := l.cancelled + [h.pending[0]]) else l
  }

  /** The link after the check of the writes with handle `h`. */
  function LinkAfterWrites(l: P.Link, h: Handle): P.Link {
    if !HandsOver(h) then l
    else if P.ChannelOpen(l) then P.Sent(l.(writeInFlight := true), P.Job(h.pending[0].id, h.pending[0].packets))
    else l.(writeInFlight := false)
  }

  /** The state after the reads of an update. */
  function AfterReads(s: P.State): P.State {
    var packets := Frames(s.inbox.buffer);
    s.(desk := P.Desk(P.CheckWrites, AllHandled(Retried(s.desk.handle, s.now), packets),
                      LedgerAfterReads(s.desk.ledger, s.desk.handle, packets, s.now)),
       inbox := s.inbox.(buffer := Rest(s.inbox.buffer), taken := |s.inbox.published|,
                         handled := s.inbox.handled + packets))
  }

  function AfterCheckWrites(s: P.State): P.State {
    var h, open := s.desk.handle, P.ChannelOpen(s.link);
    s.(desk := P.Desk(P.Idle, AfterWrites(h, s.link.writeInFlight, open, s.now),
                      LedgerAfterWrites(s.desk.ledger, h, open)),
       link := LinkAfterWrites(s.link, h))
  }

  /** The state after a whole update, as `CommandHandle.Update` is proved to leave it. */
  function AfterUpdate(s: P.State): P.State {
    if s.inbox.readError || s.link.writeError then s else AfterCheckWrites(AfterReads(s))
  }

  /** Loading the flags, checking the timeout and taking the buffer. */
  lemma TakingSteps(s: P.State)
    requires s.desk.pc == P.Idle && !s.inbox.readError && !s.link.writeError
    ensures MainSteps(s, 4)
      == s.(desk := P.Desk(P.Reading(s.inbox.buffer), Retried(s.desk.handle, s.now),
                           LedgerAfterReads(s.desk.ledger, s.desk.handle, [], s.now)),
            inbox := P.BufferTaken(s.inbox))
  {
    assert MainSteps(s, 1) == P.MainStep(s);
    assert MainSteps(s, 2) == P.MainStep(MainSteps(s, 1));
    assert MainSteps(s, 3) == P.MainStep(MainSteps(s, 2));
    assert s.desk.ledger.finished + [] == s.desk.ledger.finished;
  }

  /** The state after everything that was taken is handled. */
  function AfterReading(s: P.State): P.State
    requires s.desk.pc.Reading?
  {
    var data, d := s.desk.pc.data, s.desk;
    s.(desk := P.Desk(P.CheckWrites, AllHandled(d.handle, Frames(data)),
                      d.ledger.(finished := d.ledger.finished + EndedBy(d.handle, Frames(data)))),
       inbox := s.inbox.(buffer := Rest(data) + s.inbox.buffer, handled := s.inbox.handled + Frames(data)))
  }

  lemma OnePacketRead(s: P.State)
    requires s.desk.pc.Reading? && HasFrame(s.desk.pc.data)
    ensures P.MainStep(s).desk.pc.Reading? && AfterReading(P.MainStep(s)) == AfterReading(s)
  {
    var h, packets := s.desk.handle, Frames(s.desk.pc.data);
    var g := PacketHandled(h, packets[0]);
    Assoc(s.desk.ledger.finished, if h.current.Some? && g.current.None? then [h.current.value] else [],
          EndedBy(g, packets[1..]));
    assert s.desk.ledger.finished + [] == s.desk.ledger.finished;
    Assoc(s.inbox.handled, [packets[0]], packets[1..]);
  }

  /** Handling everything that was taken, one atomic step a packet. */
  lemma {:induction false} ReadingSteps(s: P.State)
    requires s.desk.pc.Reading?
    ensures MainSteps(s, |Frames(s.desk.pc.data)| + 1) == AfterReading(s)
    decreases |s.desk.pc.data|
  {
    assert MainSteps(s, 1) == P.MainStep(s);
    if HasFrame(s.desk.pc.data) {
      OnePacketRead(s);
      ReadingSteps(P.MainStep(s));
      MainStepsAdd(s, 1, |Frames(s.desk.pc.data)|);
    } else {
      assert s.desk.ledger.finished + [] == s.desk.ledger.finished && s.inbox.handled + [] == s.inbox.handled;
    }
  }

  /** Everything up to the check of the writes. */
  lemma ReadSteps(s: P.State) returns (k: nat)
    requires s.desk.pc == P.Idle && !s.inbox.readError && !s.link.writeError
    ensures k > 0 && MainSteps(s, k) == AfterReads(s)
  {
    TakingSteps(s);
    var n := |Frames(s.inbox.buffer)| + 1;
    ReadingSteps(MainSteps(s, 4));
    MainStepsAdd(s, 4, n);
    k := 4 + n;
    assert Rest(s.inbox.buffer) + [] == Rest(s.inbox.buffer);
    assert s.desk.ledger.finished + [] == s.desk.ledger.finished;
  }

  /** The check of the writes, from start to end. */
  lemma WritingSteps(s: P.State) returns (k: nat)
    requires s.desk.pc == P.CheckWrites
    ensures MainSteps(s, k) == AfterCheckWrites(s)
  {
    var one := P.MainStep(s);
    assert MainSteps(s, 1) == one;
    if HandsOver(s.desk.handle) {
      var two := P.MainStep(one);
      assert MainSteps(s, 2) == two;
      if P.ChannelOpen(s.link) {
        k := 2;
      } else {
        k := 3;
        assert MainSteps(s, 3) == P.MainStep(two);
      }
    } else {
      k := 1;
    }
  }

  /** After an error an update only looks at the flags. */
  lemma RefusedSteps(s: P.State) returns (k: nat)
    requires s.desk.pc == P.Idle && (s.inbox.readError || s.link.writeError)
    ensures k > 0 && MainSteps(s, k) == s
  {
    assert MainSteps(s, 1) == P.MainStep(s);
    if s.inbox.readError {
      k := 1;
    } else {
      k := 2;
      assert MainSteps(s, 2) == P.MainStep(P.MainStep(s));
    }
  }

  /**
   With no other thread in between, the main thread's atomic steps lead from any state
   outside `update` to the state that `CommandHandle.Update` is proved to leave.
   */
  lemma UpdateIsItsSteps(s: P.State) returns (k: nat)
    requires s.desk.pc == P.Idle
    ensures k > 0 && MainSteps(s, k) == AfterUpdate(s)
  {
    if s.inbox.readError || s.link.writeError {
      k := RefusedSteps(s);
    } else {
      var n := ReadSteps(s);
      var m := WritingSteps(AfterReads(s));
      MainStepsAdd(s, n, m);
      k := n + m;
    }
  }

  // ─── So are an uninterrupted poll and an uninterrupted job ────────────────

  function InboxAfterReads(b: P.Inbox, results: seq<ReadResult>): P.Inbox
    decreases |results|
  {
    if results == [] || !results[0].Data? || results[0].bytes == [] then b
    else InboxAfterReads(P.Gathered(b, results[0].bytes), results[1..])
  }

  lemma {:induction false} ReadsGather(b: P.Inbox, results: seq<ReadResult>)
    ensures var t := InboxAfterReads(b, results);
      if b.poll.Draining? then
        t == b.(poll := P.Draining(b.poll.accepted + Gathered(results)), answersRead := t.answersRead)
      else t == b
    decreases |results|
  {
    if results != [] && results[0].Data? && results[0].bytes != [] {
      ReadsGather(P.Gathered(b, results[0].bytes), results[1..]);
      if b.poll.Draining? {
        Assoc(b.poll.accepted, P.Accepted(results[0].bytes), Gathered(results[1..]));
      }
    } else if b.poll.Draining? {
      assert b.poll.accepted + [] == b.poll.accepted;
    }
  }

  /** The inbox after a whole poll, step by step. */
  function AfterPoll(b: P.Inbox, results: seq<ReadResult>): P.Inbox {
    var drained := InboxAfterReads(P.PollBegun(b), results);
    if Fails(results) then P.PollFailed(drained) else P.PollEnded(drained)
  }

  /** The poll thread's atomic steps do to the buffer and the error flag what `PollHandle.Poll` does. */
  lemma PollIsItsSteps(b: P.Inbox, results: seq<ReadResult>)
    requires b.poll.Polling?
    ensures var t := AfterPoll(b, results);
      t == if b.readError then b
           else if Fails(results) then b.(readError := true, answersRead := t.answersRead)
           else b.(buffer := b.buffer + Concat(Gathered(results)), published := b.published + Gathered(results),
                   answersRead := t.answersRead)
  {
    ReadsGather(P.PollBegun(b), results);
    assert [] + Gathered(results) == Gathered(results);
  }

  function WriterRun(l: P.Link, oks: seq<bool>): P.Link
    decreases |oks|
  {
    if oks == [] then l else WriterRun(P.WriterStep(l, oks[0]), oks[1..])
  }

  lemma {:induction false} WriterRunAppend(l: P.Link, a: seq<bool>, b: seq<bool>)
    ensures WriterRun(WriterRun(l, a), b) == WriterRun(l, a + b)
    decreases |a|
  {
    if a == [] {
      assert a + b == b;
    } else {
      WriterRunAppend(P.WriterStep(l, a[0]), a[1..], b);
      assert (a + b)[1..] == a[1..] + b;
    }
  }

  lemma RunFirst(l: P.Link, ok: bool, oks: seq<bool>)
    ensures WriterRun(l, [ok] + oks) == WriterRun(P.WriterStep(l, ok), oks)
  {
    assert ([ok] + oks)[1..] == oks;
  }

  /** `t` has stopped writing the job of `l`, `n` more of its packets on the wire. */
  predicate WroteMore(l: P.Link, t: P.Link, n: nat, failed: bool)
    requires l.writer.Writing? && l.writer.next + n <= |l.writer.job.packets|
  {
    && t.writer == P.ClearInFlight
    && t.wire == l.wire + l.writer.job.packets[l.writer.next..l.writer.next + n]
    && t.writeError == (l.writeError || failed)
    && t.channel == l.channel && t.receiverOpen == l.receiverOpen
  }

  lemma WroteOneMore(l: P.Link, t: P.Link, n: nat, failed: bool)
    requires l.writer.Writing? && l.writer.next + 1 < |l.writer.job.packets|
    requires l.writer.next + 1 + n <= |l.writer.job.packets|
    requires WroteMore(P.WriterStep(l, true), t, n, failed)
    ensures WroteMore(l, t, 1 + n, failed)
  {
    var packets, next := l.writer.job.packets, l.writer.next;
    assert packets[next..next + 1 + n] == [packets[next]] + packets[next + 1..next + 1 + n];
    Assoc(l.wire, [packets[next]], packets[next + 1..next + 1 + n]);
  }

  lemma {:induction false} WritingRun(l: P.Link, oks: seq<bool>) returns (ks: seq<bool>)
    requires l.writer.Writing? && l.writer.next <= |l.writer.job.packets|
    requires |oks| == |l.writer.job.packets| - l.writer.next
    ensures WroteMore(l, WriterRun(l, ks), Reached(oks), Reached(oks) < |oks|)
    decreases |oks|
  {
    if |oks| >= 2 && oks[0] {
      var more := WritingRun(P.WriterStep(l, true), oks[1..]);
      ks := [true] + more;
      RunFirst(l, true, more);
      WroteOneMore(l, WriterRun(l, ks), Reached(oks[1..]), Reached(oks) < |oks|);
    } else {
      ks := if oks == [] || oks[0] then [true] else [false, true];
      StopsWriting(l, oks);
    }
  }

  /** At the end of the job or at a failing write. */
  lemma StopsWriting(l: P.Link, oks: seq<bool>)
    requires l.writer.Writing? && l.writer.next <= |l.writer.job.packets|
    requires |oks| == |l.writer.job.packets| - l.writer.next
    requires |oks| < 2 || !oks[0]
    ensures WroteMore(l, WriterRun(l, if oks == [] || oks[0] then [true] else [false, true]),
                      Reached(oks), Reached(oks) < |oks|)
  {
    if oks == [] || oks[0] {
      RunFirst(l, true, []);
      assert [true] + [] == [true];
    } else {
      RunFirst(l, false, [true]);
      RunFirst(P.WriterStep(l, false), true, []);
      assert [true] + [] == [true] && [false] + [true] == [false, true];
    }
  }

  /** The writer's atomic steps do to the wire, the flags and the channel what `Writer.WriteJob` does. */
  lemma JobIsItsSteps(l: P.Link, oks: seq<bool>) returns (ks: seq<bool>)
    requires l.writer == P.Receiving && l.channel != [] && |oks| == |l.channel[0].packets|
    ensures var t := WriterRun(l, ks);
      && t.wire == l.wire + l.channel[0].packets[..Reached(oks)]
      && !t.writeInFlight
      && t.writeError == (l.writeError || Reached(oks) < |oks|)
      && t.writer == (if t.writeError then P.Exited else P.Receiving)
      && t.channel == (if t.writeError then [] else l.channel[1..])
      && t.receiverOpen == (l.receiverOpen && !t.writeError)
  {
    var began := P.WriterStep(l, true);
    var during := WritingRun(began, oks);
    var wrote := WriterRun(began, during);
    var cleared := P.WriterStep(wrote, true);
    var done := P.WriterStep(cleared, true);
    assert WriterRun(wrote, [true, true]) == done by {
      assert [true, true][1..] == [true] && [true][1..] == [];
      assert WriterRun(cleared, [true]) == done;
    }
    WriterRunAppend(began, during, [true, true]);
    ks := [true] + (during + [true, true]);
    assert ks[1..] == during + [true, true];
  }
}
