/**
 What the command side of one connection holds and how one operation changes it,
 as functions on values. `Connection` proves its classes against these functions
 and `Pipeline` interleaves them with the other threads.
 */
module CommandQueue {
  import opened Bytes
  import opened Protocol

  const NANOS_PER_SECOND: nat := 1_000_000_000
  const COMMAND_TIMEOUT: nat := 2 * NANOS_PER_SECOND
  const DEVICE_INFO_SIZE := 23
  const SERIAL_SIZE := 16

  // ─── Device information ───────────────────────────────────────────────────

  datatype DeviceInfoRecord = DeviceInfoRecord(isPlayer2: bool, serial: string, firmwareVersion: nat)

  const NO_DEVICE_INFO := DeviceInfoRecord(false, "", 0)

  function HexDigit(n: nat): char
    requires n < 16
  {
    "0123456789abcdef"[n]
  }

  function HexEncode(bytes: seq<byte>): string {
    if bytes == [] then "" else [HexDigit(bytes[0] as int / 16), HexDigit(bytes[0] as int % 16)] + HexEncode(bytes[1..])
  }

  /** The wire record: cmd, size, player, unused, 16 serial bytes, firmware (little endian), unused. */
  function ParseDeviceInfo(payload: seq<byte>): DeviceInfoRecord {
    if |payload| < DEVICE_INFO_SIZE then
      NO_DEVICE_INFO
    else
      DeviceInfoRecord(payload[2] == 0x31,
                       HexEncode(payload[4..4 + SERIAL_SIZE]),
                       payload[20] as int + 256 * payload[21] as int)
  }

  // ─── Commands ─────────────────────────────────────────────────────────────

  /** What a caller asked to send; only plain commands and info requests can carry a callback. */
  datatype Request =
    | InfoRequest(infoCallback: bool)
    | PlainRequest(body: seq<byte>, plainCallback: bool)
    | LightsRequest(body: seq<byte>)
  {
    predicate HasCallback() {
      match this
      case InfoRequest(callback) => callback
      case PlainRequest(_, callback) => callback
      case LightsRequest(_) => false
    }

    function Packets(): (ps: seq<Packet>)
      ensures ps != []
    {
      if InfoRequest? then [DeviceInfoRequest()] else Fragments(body)
    }
  }

  /** A queued command; `id` is its place in the order of all requests of the connection. */
  datatype Command = Command(
    id: nat,
    packets: seq<Packet>,
    hasCallback: bool,
    isDeviceInfo: bool,
    isLights: bool,
    sent: bool,
    sentAt: Option<nat>)

  function MakeCommand(id: nat, r: Request): Command {
    Command(id, r.Packets(), r.HasCallback(), r.InfoRequest?, r.LightsRequest?, false, None)
  }

  /** How many of `cmds` are the request `id`. */
  function Count(cmds: seq<Command>, id: nat): nat {
    if cmds == [] then 0 else (if cmds[0].id == id then 1 else 0) + Count(cmds[1..], id)
  }

  /** One call of a completion callback. */
  datatype CallbackRun = CallbackRun(id: nat, response: seq<byte>)

  // ─── The command handle ───────────────────────────────────────────────────

  datatype Handle = Handle(
    active: bool,
    gotInfo: bool,
    deviceInfo: DeviceInfoRecord,
    reassembly: Reassembly,
    readBuffers: seq<seq<byte>>,
    pending: seq<Command>,
    current: Option<Command>,
    callbacks: seq<CallbackRun>)

  const EMPTY_HANDLE := Handle(false, false, NO_DEVICE_INFO, EMPTY_REASSEMBLY, [], [], None, [])

  function QueuedBack(h: Handle, c: Command): Handle {
    h.(pending := h.pending + [c])
  }

  function QueuedFront(h: Handle, c: Command): Handle {
    h.(pending := [c] + h.pending)
  }

  function WithoutLights(cmds: seq<Command>): seq<Command> {
    if cmds == [] then []
    else if cmds[0].isLights then WithoutLights(cmds[1..])
    else [cmds[0]] + WithoutLights(cmds[1..])
  }

  function OnlyLights(cmds: seq<Command>): seq<Command> {
    if cmds == [] then []
    else if cmds[0].isLights then [cmds[0]] + OnlyLights(cmds[1..])
    else OnlyLights(cmds[1..])
  }

  function LightsDropped(h: Handle): Handle {
    h.(pending := WithoutLights(h.pending))
  }

  predicate HasUnsentLights(h: Handle) {
    exists i :: 0 <= i < |h.pending| && h.pending[i].isLights
  }

  /** Running `c`'s callback with `response`, if it has one. */
  function CallbackOf(c: Command, response: seq<byte>): seq<CallbackRun> {
    if c.hasCallback then [CallbackRun(c.id, response)] else []
  }

  /** The current command leaves, its callback runs with `response`. */
  function Completed(h: Handle, response: seq<byte>): Handle
    requires h.current.Some?
  {
    h.(current := None, callbacks := h.callbacks + CallbackOf(h.current.value, response))
  }

  predicate TimedOut(h: Handle, now: nat) {
    && h.current.Some?
    && h.current.value.sent
    && h.current.value.sentAt.Some?
    && now > h.current.value.sentAt.value + COMMAND_TIMEOUT
  }

  /** A command whose response never came goes back to the front of the queue. */
  function Retried(h: Handle, now: nat): Handle {
    if TimedOut(h, now) then
      h.(current := None,
         pending := [h.current.value.(sent := false, sentAt := None)] + h.pending)
    else
      h
  }

  function LastOrEmpty(packets: seq<seq<byte>>): seq<byte> {
    if packets == [] then [] else packets[|packets| - 1]
  }

  function PacketHandled(h: Handle, raw: seq<byte>): Handle {
    match ParseReport6(raw)
    case None => h
    case Some(DeviceInfo(payload)) =>
      if h.current.Some? && h.current.value.isDeviceInfo then
        Completed(h.(deviceInfo := ParseDeviceInfo(payload), gotInfo := true), payload)
      else
        h
    case Some(Fragment(payload, startOfCommand, endOfCommand, hostCmdFinished)) =>
      if !h.active then
        h
      else
        var r := Pushed(h.reassembly, Fragment(payload, startOfCommand, endOfCommand, hostCmdFinished));
        var g := h.(reassembly := r.(completed := []), readBuffers := h.readBuffers + r.completed);
        if hostCmdFinished && g.current.Some? then Completed(g, LastOrEmpty(g.readBuffers)) else g
  }

  function AllHandled(h: Handle, packets: seq<seq<byte>>): Handle
    decreases |packets|
  {
    if packets == [] then h else AllHandled(PacketHandled(h, packets[0]), packets[1..])
  }

  /** All packets of the current command are on the wire: its response timeout starts. */
  function Promoted(h: Handle, writeInFlight: bool, now: nat): Handle {
    if h.current.Some? && !h.current.value.sent && !writeInFlight then
      h.(current := Some(h.current.value.(sent := true, sentAt := Some(now))))
    else
      h
  }

  function CancelRuns(cmds: seq<Command>): seq<CallbackRun> {
    if cmds == [] then [] else CallbackOf(cmds[0], []) + CancelRuns(cmds[1..])
  }

  function AsSeq(c: Option<Command>): seq<Command> {
    if c.Some? then [c.value] else []
  }

  function Closed(h: Handle): Handle {
    h.(active := false,
       gotInfo := false,
       readBuffers := [],
       pending := [],
       current := None,
       callbacks := h.callbacks + CancelRuns(AsSeq(h.current) + h.pending))
  }

  // ─── Facts about filtering ────────────────────────────────────────────────

  lemma {:induction false} CountAppend(a: seq<Command>, b: seq<Command>, id: nat)
    ensures Count(a + b, id) == Count(a, id) + Count(b, id)
  {
    if a == [] {
      assert a + b == b;
    } else {
      CountAppend(a[1..], b, id);
      assert (a + b)[1..] == a[1..] + b;
    }
  }

  lemma {:induction false} LightsSplit(cmds: seq<Command>, id: nat)
    ensures Count(cmds, id) == Count(WithoutLights(cmds), id) + Count(OnlyLights(cmds), id)
  {
    if cmds != [] {
      LightsSplit(cmds[1..], id);
      if cmds[0].isLights {
        CountAppend([cmds[0]], OnlyLights(cmds[1..]), id);
      } else {
        CountAppend([cmds[0]], WithoutLights(cmds[1..]), id);
      }
    }
  }

  lemma {:induction false} WithoutLightsMembers(cmds: seq<Command>, c: Command)
    ensures c in WithoutLights(cmds) <==> c in cmds && !c.isLights
  {
    if cmds != [] {
      assert cmds == [cmds[0]] + cmds[1..];
      WithoutLightsMembers(cmds[1..], c);
    }
  }

  lemma {:induction false} OnlyLightsMembers(cmds: seq<Command>, c: Command)
    ensures c in OnlyLights(cmds) <==> c in cmds && c.isLights
  {
    if cmds != [] {
      assert cmds == [cmds[0]] + cmds[1..];
      OnlyLightsMembers(cmds[1..], c);
    }
  }
}
