/**
 One device: its configuration, its sensor test state and what an update does with
 the connection. The functions describe each part of an update; the class does the
 same work in place, on a `CommandHandle`.

 `log` and `sets` of a device are history: the commands it has queued and the
 configurations it has accepted, over all its connections.
 */
module Device {
  import opened Bytes
  import opened Protocol
  import opened Framing
  import opened CommandQueue
  import opened Connection
  import L = LegacyConfig
  import S = SensorCodec

  type Config = c: seq<byte> | |c| == 250 witness Zeros(250)

  const CONFIG_WRITE_RATE_LIMIT: nat := NANOS_PER_SECOND
  const FIRST_NEW_FIRMWARE := 5

  datatype Mode = Off | Uncalibrated | Calibrated | Noise | Tare

  function ModeByte(mode: Mode): byte {
    match mode
    case Off => 0
    case Uncalibrated => 0x30
    case Calibrated => 0x31
    case Noise => 0x32
    case Tare => 0x33
  }

  function ModeOf(b: byte): Option<Mode> {
    if b == 0x30 then Some(Uncalibrated)
    else if b == 0x31 then Some(Calibrated)
    else if b == 0x32 then Some(Noise)
    else if b == 0x33 then Some(Tare)
    else None
  }

  /** What the update callback is run with; `mode` of a sample is history. */
  datatype Event =
    | ConfigUpdated
    | SensorTestData(mode: Mode, data: seq<S.Reading>)
    | Disconnected

  /** Why the device queued a command. */
  datatype Purpose =
    | Activate
    | WriteConfig(config: Config, raw: seq<byte>, firmware: nat, sets: nat)
    | ReadBack(firmware: nat)
    | RequestSensors(mode: Mode)

  datatype Queued = Queued(at: nat, purpose: Purpose, body: seq<byte>)

  datatype Device = Device(
    config: Config,
    wanted: Config,
    rawOld: seq<byte>,
    haveConfig: bool,
    sendConfig: bool,
    delayConfigUntil: Option<nat>,
    testMode: Mode,
    waiting: Mode,
    requestSentAt: Option<nat>,
    testData: Option<seq<S.Reading>>,
    events: seq<Event>,
    log: seq<Queued>,
    sets: seq<Config>)

  const ZEROED: Config := Zeros(250)
  const NEW_DEVICE := Device(ZEROED, ZEROED, [], false, false, None, Off, Off, None, None, [], [], [])

  /** A connection as the device sees it: the handle and how many requests it has taken. */
  datatype Conn = Conn(handle: Handle, requests: nat)

  datatype Unit = Unit(device: Device, conn: Conn)

  // ─── Commands of a device ─────────────────────────────────────────────────

  function ReadBackBody(firmware: nat): seq<byte> {
    if firmware >= FIRST_NEW_FIRMWARE then [0x47] else [0x67, 0x0A]
  }

  function WriteBody(firmware: nat, config: Config, raw: seq<byte>): seq<byte> {
    if firmware >= FIRST_NEW_FIRMWARE then [0x57, 250] + config
    else
      var legacy := L.OldFromNew(config, raw);
      [0x77, |legacy| % 256] + legacy
  }

  function SensorBody(mode: Mode): seq<byte> {
    [0x79, ModeByte(mode), 0x0A]
  }

  function Firmware(u: Unit): nat {
    u.conn.handle.deviceInfo.firmwareVersion
  }

  /** Queues a command of the device at the back, or ahead of what is waiting. */
  function Issued(u: Unit, purpose: Purpose, body: seq<byte>, front: bool, now: nat): Unit {
    var c := MakeCommand(u.conn.requests, PlainRequest(body, false));
    Unit(u.device.(log := u.device.log + [Queued(now, purpose, body)]),
         Conn(if front then QueuedFront(u.conn.handle, c) else QueuedBack(u.conn.handle, c), u.conn.requests + 1))
  }

  // ─── The parts of an update ───────────────────────────────────────────────

  predicate IsConnected(d: Device, h: Handle) {
    h.gotInfo && d.haveConfig
  }

  /** `set_config`: ignored unless the device is fully connected. */
  function ConfigSet(d: Device, conn: Option<Conn>, config: Config): Device {
    if conn.None? || !IsConnected(d, conn.value.handle) then d
    else d.(wanted := config, sendConfig := true, sets := d.sets + [config])
  }

  /** `get_config`. */
  function ConfigGot(d: Device, conn: Option<Conn>): Option<Config> {
    if conn.None? || !IsConnected(d, conn.value.handle) then None
    else Some(if d.sendConfig then d.wanted else d.config)
  }

  function ActiveChecked(u: Unit, now: nat): Unit {
    if !u.conn.handle.gotInfo || u.conn.handle.active then u
    else
      var v := u.(conn := u.conn.(handle := u.conn.handle.(active := true)));
      Issued(v, Activate, ReadBackBody(Firmware(u)), false, now)
  }

  predicate WritesConfig(u: Unit, now: nat) {
    && IsConnected(u.device, u.conn.handle) && u.device.sendConfig
    && (u.device.delayConfigUntil.Some? ==> now >= u.device.delayConfigUntil.value)
  }

  /** The write, immediately followed by the request that reads it back. */
  function ConfigSent(u: Unit, now: nat): Unit {
    if !WritesConfig(u, now) then u
    else
      var fw := Firmware(u);
      var d := u.device;
      var v := Issued(u.(device := d.(delayConfigUntil := Some(now + CONFIG_WRITE_RATE_LIMIT))),
                      WriteConfig(d.wanted, d.rawOld, fw, |d.sets|), WriteBody(fw, d.wanted, d.rawOld), false, now);
      Issued(v.(device := v.device.(sendConfig := false, config := d.wanted)),
             ReadBack(fw), ReadBackBody(fw), false, now)
  }

  /** Less than 1/30 s, or less than 2 s while a request is unanswered. */
  predicate TooSoon(waiting: Mode, elapsed: nat) {
    if waiting != Off then elapsed < 2 * NANOS_PER_SECOND else 30 * elapsed < NANOS_PER_SECOND
  }

  function Elapsed(since: nat, now: nat): nat {
    if now >= since then now - since else 0
  }

  predicate RequestsSensors(d: Device, now: nat) {
    && d.testMode != Off
    && !(d.requestSentAt.Some? && TooSoon(d.waiting, Elapsed(d.requestSentAt.value, now)))
  }

  function SensorsRequested(u: Unit, now: nat): Unit {
    if !RequestsSensors(u.device, now) then u
    else
      var mode := u.device.testMode;
      Issued(u.(device := u.device.(waiting := mode, requestSentAt := Some(now))),
             RequestSensors(mode), SensorBody(mode), true, now)
  }

  // ─── Replies ──────────────────────────────────────────────────────────────

  /** The configuration a reply gives, in the legacy or the current layout. */
  function ConfigFrom(payload: seq<byte>, legacy: bool, config: Config): Config {
    if legacy then L.NewFromOld(L.Padded(payload), config)
    else payload[..Min(|payload|, 250)] + config[Min(|payload|, 250)..]
  }

  function ConfigReceived(d: Device, buf: seq<byte>): Device {
    if |buf| < 2 || |buf| < (buf[1] as int) + 2 then d
    else
      var size := buf[1] as int;
      var payload := buf[2..2 + size];
      d.(rawOld := if buf[0] == 0x67 then payload else d.rawOld,
         config := ConfigFrom(payload, buf[0] == 0x67, d.config),
         haveConfig := true,
         events := d.events + [ConfigUpdated])
  }

  function Words(bytes: seq<byte>, n: nat): (data: seq<S.word>)
    requires |bytes| >= 2 * n
    ensures |data| == n
  {
    seq(n, i requires 0 <= i < n => (bytes[2 * i] as int) + 256 * (bytes[2 * i + 1] as int))
  }

  /** The reply answers the request that is waited for. */
  predicate Answered(d: Device, buf: seq<byte>) {
    && |buf| >= 3 && |buf| >= 2 * (buf[2] as int) + 3
    && ModeOf(buf[1]).Some? && d.waiting != Off && ModeOf(buf[1]).value == d.waiting
  }

  function SensorsReceived(d: Device, firmware: nat, buf: seq<byte>): Device {
    if !Answered(d, buf) then d
    else if d.waiting != d.testMode then d.(waiting := Off)
    else
      var data := S.Parsed(Words(buf[3..], buf[2] as int), firmware);
      d.(waiting := Off, testData := Some(data), events := d.events + [SensorTestData(d.testMode, data)])
  }

  function Received(d: Device, firmware: nat, buf: seq<byte>): Device {
    if buf == [] then d
    else if buf[0] == 0x79 then SensorsReceived(d, firmware, buf)
    else if buf[0] == 0x67 || buf[0] == 0x47 then ConfigReceived(d, buf)
    else d
  }

  function AllReceived(d: Device, firmware: nat, bufs: seq<seq<byte>>): Device
    decreases |bufs|
  {
    if bufs == [] then d
    else AllReceived(Received(d, firmware, bufs[0]), firmware, bufs[1..])
  }

  // ─── A whole update ───────────────────────────────────────────────────────

  /** What the connection's own update finds outside the handle. */
  datatype Io = Io(errored: bool, buffer: seq<byte>, writeInFlight: bool, channelOpen: bool)

  function IoHandle(h: Handle, io: Io, now: nat): Handle {
    if io.errored then h
    else AfterWrites(AllHandled(Retried(h, now), Frames(io.buffer)), io.writeInFlight, io.channelOpen, now)
  }

  predicate IoOk(h: Handle, io: Io, now: nat) {
    !io.errored && (io.channelOpen || !HandsOver(AllHandled(Retried(h, now), Frames(io.buffer))))
  }

  /** What the connection's own update leaves outside the handle. */
  function IoAfter(h: Handle, io: Io, now: nat): Io {
    if io.errored then io
    else
      var read := AllHandled(Retried(h, now), Frames(io.buffer));
      io.(buffer := Rest(io.buffer), writeInFlight := if HandsOver(read) then io.channelOpen else io.writeInFlight)
  }

  function JobsAfter(h: Handle, io: Io, jobs: seq<seq<Packet>>, now: nat): seq<seq<Packet>> {
    var read := AllHandled(Retried(h, now), Frames(io.buffer));
    if !io.errored && HandsOver(read) && io.channelOpen then jobs + [read.pending[0].packets] else jobs
  }

  /** The handle that the connection's own update starts from. */
  function IssuedHandle(u: Unit, now: nat): Handle {
    if u.conn.handle.gotInfo then Issuing(u, now).conn.handle else u.conn.handle
  }

  function Issuing(u: Unit, now: nat): Unit {
    SensorsRequested(ConfigSent(ActiveChecked(u, now), now), now)
  }

  function IoDone(u: Unit, io: Io, now: nat): Unit {
    u.(conn := u.conn.(handle := IoHandle(u.conn.handle, io, now)))
  }

  function RepliesHandled(u: Unit): Unit {
    Unit(AllReceived(u.device, Firmware(u), u.conn.handle.readBuffers),
         u.conn.(handle := u.conn.handle.(readBuffers := [])))
  }

  function Updated(u: Unit, io: Io, now: nat): Unit {
    if !u.conn.handle.gotInfo then IoDone(u, io, now)
    else
      var v := Issuing(u, now);
      var w := IoDone(v, io, now);
      if IoOk(v.conn.handle, io, now) then RepliesHandled(w) else w
  }

  function ClosedDevice(d: Device): Device {
    d.(haveConfig := false, events := d.events + [Disconnected])
  }

  /** Nanoseconds until the next request in thirds, so that 1/30 s is a whole number; None when the mode is off. */
  function UntilNextRequest(d: Device, now: nat): Option<nat> {
    if d.testMode == Off then None
    else if d.requestSentAt.None? then Some(0)
    else
      var target := if d.waiting != Off then 6 * NANOS_PER_SECOND else NANOS_PER_SECOND / 10;
      Some(Max(target - 3 * Elapsed(d.requestSentAt.value, now), 0))
  }

  // ─── The device as an object ──────────────────────────────────────────────

  method ReadConfig(payload: seq<byte>, legacy: bool, config: Config) returns (out: Config)
    ensures out == ConfigFrom(payload, legacy, config)
  {
    if !legacy {
      out := Overlay(config, payload);
      return out;
    }
    var bytes := new byte[250](i requires 0 <= i < 250 => config[i]);
    assert bytes[..] == config;
    L.ConvertToNewConfig(L.Padded(payload), bytes);
    out := bytes[..];
  }

  method EncodeWrite(firmware: nat, config: Config, raw: seq<byte>) returns (cmd: seq<byte>)
    ensures cmd == WriteBody(firmware, config, raw)
  {
    if firmware >= FIRST_NEW_FIRMWARE {
      cmd := [0x57, 250] + config;
    } else {
      var oldData := L.ConvertToOldConfig(config, raw);
      cmd := [0x77, |oldData| % 256] + oldData;
    }
  }

  /** Copies as much of `payload` as fits over the start of `config`. */
  method Overlay(config: Config, payload: seq<byte>) returns (out: Config)
    ensures out == payload[..Min(|payload|, 250)] + config[Min(|payload|, 250)..]
  {
    out := config;
    for i := 0 to Min(|payload|, 250)
      invariant out == payload[..i] + config[i..]
    {
      out := out[i := payload[i]];
    }
  }

  class SmxDevice {
    var connection: CommandHandle?
    var config: Config
    var wantedConfig: Config
    var rawOldConfig: seq<byte>
    var haveConfig: bool
    var sendConfig: bool
    var delayConfigUntil: Option<nat>
    var sensorTestMode: Mode
    var waitingForSensorResponse: Mode
    var sensorRequestSentAt: Option<nat>
    var sensorTestData: Option<seq<S.Reading>>
    var events: seq<Event>              // the update callback's runs so far
    var log: seq<Queued>
    var sets: seq<Config>

    function View(): Device
      reads this
    {
      Device(config, wantedConfig, rawOldConfig, haveConfig, sendConfig, delayConfigUntil, sensorTestMode,
             waitingForSensorResponse, sensorRequestSentAt, sensorTestData, events, log, sets)
    }

    function ConnView(): Conn
      requires connection != null
      reads this, connection, connection.reassembler
    {
      Conn(connection.View(), connection.requests)
    }

    function UnitView(): Unit
      requires connection != null
      reads this, connection, connection.reassembler
    {
      Unit(View(), ConnView())
    }

    constructor ()
      ensures View() == NEW_DEVICE && connection == null
    {
      connection := null;
      config, wantedConfig, rawOldConfig := ZEROED, ZEROED, [];
      haveConfig, sendConfig, delayConfigUntil := false, false, None;
      sensorTestMode, waitingForSensorResponse, sensorRequestSentAt := Off, Off, None;
      sensorTestData, events, log, sets := None, [], [], [];
    }

    method SetConfig(newConfig: Config)
      modifies this
      ensures connection == old(connection)
      ensures View() == ConfigSet(old(View()), if connection == null then None else Some(ConnView()), newConfig)
    {
      if connection == null || !connection.gotInfo || !haveConfig {
        return;
      }
      wantedConfig := newConfig;
      sendConfig := true;
      sets := sets + [newConfig];
    }

    /** One command to the back of the connection's queue. */
    method Send(purpose: Purpose, body: seq<byte>, now: nat)
      requires connection != null
      modifies this`log, connection
      ensures UnitView() == Issued(old(UnitView()), purpose, body, false, now)
    {
      connection.SendCommand(body, false);
      log := log + [Queued(now, purpose, body)];
    }

    /** One command ahead of the connection's queue. */
    method SendAhead(purpose: Purpose, body: seq<byte>, now: nat)
      requires connection != null
      modifies this`log, connection
      ensures UnitView() == Issued(old(UnitView()), purpose, body, true, now)
    {
      connection.SendCommandPriority(body, false);
      log := log + [Queued(now, purpose, body)];
    }

    method CheckActive(now: nat)
      requires connection != null
      modifies this`log, connection
      ensures UnitView() == ActiveChecked(old(UnitView()), now)
    {
      if !connection.gotInfo || connection.active {
        return;
      }
      connection.active := true;
      Send(Activate, ReadBackBody(connection.deviceInfo.firmwareVersion), now);
    }

    method SendConfigIfNeeded(now: nat)
      requires connection != null
      modifies this, connection
      ensures connection == old(connection)
      ensures UnitView() == ConfigSent(old(UnitView()), now)
    {
      if !(connection.gotInfo && haveConfig) || !sendConfig {
        return;
      }
      if delayConfigUntil.Some? && now < delayConfigUntil.value {
        return;
      }
      WriteConfiguration(now);
    }

    /** The write and its read-back, when they are due. */
    method WriteConfiguration(now: nat)
      requires connection != null && WritesConfig(UnitView(), now)
      modifies this, connection
      ensures connection == old(connection)
      ensures UnitView() == ConfigSent(old(UnitView()), now)
    {
      delayConfigUntil := Some(now + CONFIG_WRITE_RATE_LIMIT);
      var fw := connection.deviceInfo.firmwareVersion;
      var cmdData := EncodeWrite(fw, wantedConfig, rawOldConfig);
      Send(WriteConfig(wantedConfig, rawOldConfig, fw, |sets|), cmdData, now);
      sendConfig := false;
      config := wantedConfig;
      Send(ReadBack(fw), ReadBackBody(fw), now);
    }

    method UpdateSensorTestMode(now: nat)
      requires connection != null
      modifies this, connection
      ensures connection == old(connection)
      ensures UnitView() == SensorsRequested(old(UnitView()), now)
    {
      if sensorTestMode == Off {
        return;
      }
      if sensorRequestSentAt.Some? {
        var elapsed := Elapsed(sensorRequestSentAt.value, now);
        if waitingForSensorResponse != Off {
          if elapsed < 2 * NANOS_PER_SECOND {
            return;
          }
        } else if 30 * elapsed < NANOS_PER_SECOND {
          return;
        }
      }
      waitingForSensorResponse := sensorTestMode;
      sensorRequestSentAt := Some(now);
      var cmd := [0x79, ModeByte(sensorTestMode), 0x0A];
      SendAhead(RequestSensors(sensorTestMode), cmd, now);
    }

    method HandleConfigPacket(buf: seq<byte>)
      requires buf != []
      modifies this
      ensures connection == old(connection)
      ensures View() == ConfigReceived(old(View()), buf)
    {
      if |buf| < 2 {
        return;
      }
      var size := buf[1] as int;
      if |buf| < size + 2 {
        return;
      }
      var payload := buf[2..2 + size];
      if buf[0] == 0x67 {
        rawOldConfig := payload;
      }
      config := ReadConfig(payload, buf[0] == 0x67, config);
      haveConfig := true;
      events := events + [ConfigUpdated];
    }

    method HandleSensorTestResponse(firmware: nat, buf: seq<byte>)
      modifies this
      ensures connection == old(connection)
      ensures View() == SensorsReceived(old(View()), firmware, buf)
    {
      if |buf| < 3 {
        return;
      }
      var size := buf[2] as int;
      if |buf| < size * 2 + 3 {
        return;
      }
      var mode := ModeOf(buf[1]);
      if mode.None? || waitingForSensorResponse == Off || mode.value != waitingForSensorResponse {
        return;
      }
      waitingForSensorResponse := Off;
      if mode.value != sensorTestMode {
        return;
      }
      var data: seq<S.word> := [];
      for i := 0 to size
        invariant data == Words(buf[3..], size)[..i]
      {
        data := data + [(buf[3 + 2 * i] as int) + 256 * (buf[3 + 2 * i + 1] as int)];
      }
      var readings := S.ParseSensorTestData(data, firmware);
      assert data == Words(buf[3..], size);
      sensorTestData := Some(readings);
      events := events + [SensorTestData(sensorTestMode, readings)];
    }

    /** Takes all replies off the connection first, then handles them in order. */
    method HandlePackets()
      requires connection != null
      modifies this, connection
      ensures connection == old(connection)
      ensures UnitView() == RepliesHandled(old(UnitView()))
    {
      var packets := TakeReplies();
      var firmware := connection.deviceInfo.firmwareVersion;
      for i := 0 to |packets|
        modifies this
        invariant connection == old(connection)
        invariant AllReceived(View(), firmware, packets[i..]) == AllReceived(old(View()), firmware, packets)
      {
        assert packets[i..][1..] == packets[i + 1..];
        var buf := packets[i];
        if buf != [] {
          if buf[0] == 0x79 {
            HandleSensorTestResponse(firmware, buf);
          } else if buf[0] == 0x67 || buf[0] == 0x47 {
            HandleConfigPacket(buf);
          }
        }
      }
    }

    method TakeReplies() returns (packets: seq<seq<byte>>)
      requires connection != null
      modifies connection`readBuffers
      ensures packets == old(connection.readBuffers)
      ensures ConnView() == old(ConnView()).(handle := old(ConnView()).handle.(readBuffers := []))
    {
      packets := [];
      while connection.readBuffers != []
        modifies connection`readBuffers
        invariant packets + connection.readBuffers == old(connection.readBuffers)
        decreases |connection.readBuffers|
      {
        var packet := connection.ReadPacket();
        packets := packets + [packet.value];
      }
    }

    /** One pass; false means the device should be disconnected. */
    method Update(now: nat) returns (ok: bool)
      modifies this, connection
      modifies if connection == null then {} else {connection.reassembler, connection.shared, connection.channel}
      ensures connection == old(connection)
      ensures connection == null ==> ok && View() == old(View())
      ensures connection != null ==>
        && UnitView() == Updated(old(UnitView()), old(IoView()), now)
        && ok == IoOk(IssuedHandle(old(UnitView()), now), old(IoView()), now)
        && IoView() == IoAfter(IssuedHandle(old(UnitView()), now), old(IoView()), now)
        && connection.channel.jobs
           == JobsAfter(IssuedHandle(old(UnitView()), now), old(IoView()), old(connection.channel.jobs), now)
    {
      if connection == null {
        return true;
      }
      if !connection.gotInfo {
        ok := connection.Update(now);
        return ok;
      }
      IssueCommands(now);
      ok := RunConnection(now);
    }

    /** The connection's own update, and the replies if it went well. */
    method RunConnection(now: nat) returns (ok: bool)
      requires connection != null
      modifies this, connection, connection.reassembler, connection.shared, connection.channel
      ensures connection == old(connection)
      ensures ok == IoOk(old(ConnView()).handle, old(IoView()), now)
      ensures IoView() == IoAfter(old(ConnView()).handle, old(IoView()), now)
      ensures connection.channel.jobs
           == JobsAfter(old(ConnView()).handle, old(IoView()), old(connection.channel.jobs), now)
      ensures UnitView() ==
        if ok then RepliesHandled(IoDone(old(UnitView()), old(IoView()), now))
        else IoDone(old(UnitView()), old(IoView()), now)
    {
      ok := connection.Update(now);
      assert UnitView() == IoDone(old(UnitView()), old(IoView()), now);
      if ok {
        HandlePackets();
      }
    }

    /** Activation, configuration and sensor request, as far as each is due. */
    method IssueCommands(now: nat)
      requires connection != null
      modifies this, connection
      ensures connection == old(connection)
      ensures UnitView() == Issuing(old(UnitView()), now)
    {
      CheckActive(now);
      SendConfigIfNeeded(now);
      UpdateSensorTestMode(now);
    }

    function IoView(): Io
      requires connection != null
      reads this, connection, connection.shared, connection.channel
    {
      Io(connection.shared.hadReadError || connection.shared.hadWriteError, connection.shared.report6Buffer,
         connection.shared.writeInFlight, connection.channel.Open())
    }

    method Close()
      modifies this, connection
      ensures connection == null && View() == ClosedDevice(old(View()))
      ensures old(connection) != null ==> old(connection).View() == Closed(old(connection.View()))
    {
      if connection != null {
        connection.Close();
      }
      connection := null;
      haveConfig := false;
      events := events + [Disconnected];
    }
  }
}
