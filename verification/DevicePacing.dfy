/**
 A device over whole runs: configurations set, modes changed, connections lost and
 regained, updates at any time with anything the connection may find, and anything
 other code may do to the connection in between.
 */
module DevicePacing {
  import opened Bytes
  import opened CommandQueue
  import opened Device
  import opened ConfigEcho

  datatype World = World(device: Device, conn: Option<Conn>, now: nat)

  const STARTED := World(NEW_DEVICE, None, 0)

  datatype DeviceStep =
    | SetConfig(config: Config)
    | SetMode(mode: Mode)
    | Attach(conn: Conn)           // a connection in any state
    | Elsewhere(conn: Conn)        // other code and other threads change the connection
    | Close
    | Pass(io: Io)
    | Tick(elapsed: nat)

  function Stepped(w: World, step: DeviceStep): World {
    match step
    case SetConfig(config) => w.(device := ConfigSet(w.device, w.conn, config))
    case SetMode(mode) => w.(device := w.device.(testMode := mode))
    case Attach(conn) => w.(conn := Some(conn))
    case Elsewhere(conn) => if w.conn.Some? then w.(conn := Some(conn)) else w
    case Close => World(ClosedDevice(w.device), None, w.now)
    case Pass(io) =>
      if w.conn.None? then w
      else
        var u := Updated(Unit(w.device, w.conn.value), io, w.now);
        World(u.device, Some(u.conn), w.now)
    case Tick(elapsed) => w.(now := w.now + elapsed)
  }

  function DeviceRun(steps: seq<DeviceStep>): World {
    if steps == [] then STARTED else Stepped(DeviceRun(steps[..|steps| - 1]), steps[|steps| - 1])
  }

  // ─── Configuration writes ─────────────────────────────────────────────────

  predicate IsWrite(q: Queued) {
    q.purpose.WriteConfig?
  }

  /** A write is followed at once, at the same time, by the request to read it back. */
  predicate ReadBackAfter(log: seq<Queued>, i: nat)
    requires i < |log| && IsWrite(log[i])
  {
    && i + 1 < |log|
    && log[i + 1] == Queued(log[i].at, ReadBack(log[i].purpose.firmware), ReadBackBody(log[i].purpose.firmware))
  }

  /** A write carries the last of the configurations that were set before it. */
  predicate CarriesSet(q: Queued, sets: seq<Config>)
    requires IsWrite(q)
  {
    && 0 < q.purpose.sets <= |sets|
    && q.purpose.config == sets[q.purpose.sets - 1]
    && q.body == WriteBody(q.purpose.firmware, q.purpose.config, q.purpose.raw)
  }

  predicate WritesSpaced(log: seq<Queued>) {
    forall i, j :: 0 <= i < j < |log| && IsWrite(log[i]) && IsWrite(log[j]) ==>
      log[i].at + CONFIG_WRITE_RATE_LIMIT <= log[j].at
  }

  predicate WritesComplete(log: seq<Queued>, sets: seq<Config>) {
    forall i :: 0 <= i < |log| && IsWrite(log[i]) ==> ReadBackAfter(log, i) && CarriesSet(log[i], sets)
  }

  predicate WritesBefore(log: seq<Queued>, until: Option<nat>) {
    forall i :: 0 <= i < |log| && IsWrite(log[i]) ==> until.Some? && log[i].at + CONFIG_WRITE_RATE_LIMIT <= until.value
  }

  predicate WritesPaced(d: Device) {
    && WritesSpaced(d.log) && WritesComplete(d.log, d.sets) && WritesBefore(d.log, d.delayConfigUntil)
    && (d.sendConfig ==> d.sets != [] && d.wanted == d.sets[|d.sets| - 1])
  }

  /** Queuing anything but a write. */
  lemma OtherQueued(log: seq<Queued>, sets: seq<Config>, until: Option<nat>, q: Queued)
    requires WritesSpaced(log) && WritesComplete(log, sets) && WritesBefore(log, until) && !IsWrite(q)
    ensures WritesSpaced(log + [q]) && WritesComplete(log + [q], sets) && WritesBefore(log + [q], until)
  {
    forall i | 0 <= i < |log + [q]| && IsWrite((log + [q])[i])
      ensures ReadBackAfter(log + [q], i) && CarriesSet((log + [q])[i], sets)
    {
      assert ReadBackAfter(log, i);
    }
  }

  /** Queuing a write and its read-back no earlier than the limit allows. */
  lemma WriteQueued(log: seq<Queued>, sets: seq<Config>, until: Option<nat>, q: Queued, back: Queued)
    requires WritesSpaced(log) && WritesComplete(log, sets) && WritesBefore(log, until)
    requires IsWrite(q) && !IsWrite(back) && CarriesSet(q, sets)
    requires until.Some? ==> q.at >= until.value
    requires back == Queued(q.at, ReadBack(q.purpose.firmware), ReadBackBody(q.purpose.firmware))
    ensures WritesSpaced(log + [q] + [back]) && WritesComplete(log + [q] + [back], sets)
    ensures WritesBefore(log + [q] + [back], Some(q.at + CONFIG_WRITE_RATE_LIMIT))
  {
    var all := log + [q] + [back];
    forall i | 0 <= i < |all| && IsWrite(all[i])
      ensures ReadBackAfter(all, i) && CarriesSet(all[i], sets)
    {
      if i < |log| {
        assert all[i] == log[i] && ReadBackAfter(log, i);
      }
    }
  }

  lemma MoreSets(log: seq<Queued>, sets: seq<Config>, config: Config)
    requires WritesComplete(log, sets)
    ensures WritesComplete(log, sets + [config])
  {
  }

  lemma ConfigSentPaced(u: Unit, now: nat)
    requires WritesPaced(u.device)
    ensures WritesPaced(ConfigSent(u, now).device)
  {
    if WritesConfig(u, now) {
      var d, fw := u.device, Firmware(u);
      var q := Queued(now, WriteConfig(d.wanted, d.rawOld, fw, |d.sets|), WriteBody(fw, d.wanted, d.rawOld));
      var back := Queued(now, ReadBack(fw), ReadBackBody(fw));
      WriteQueued(d.log, d.sets, d.delayConfigUntil, q, back);
      assert ConfigSent(u, now).device.log == d.log + [q] + [back];
    }
  }

  // ─── Sensor requests ──────────────────────────────────────────────────────

  predicate IsRequest(q: Queued) {
    q.purpose.RequestSensors?
  }

  function RequestCount(log: seq<Queued>): nat {
    if log == [] then 0
    else RequestCount(log[..|log| - 1]) + if IsRequest(log[|log| - 1]) then 1 else 0
  }

  function SampleCount(events: seq<Event>): nat {
    if events == [] then 0
    else SampleCount(events[..|events| - 1]) + if events[|events| - 1].SensorTestData? then 1 else 0
  }

  /** The mode of the latest request. */
  function LatestMode(log: seq<Queued>): Mode {
    if log == [] then Off
    else if IsRequest(log[|log| - 1]) then log[|log| - 1].purpose.mode
    else LatestMode(log[..|log| - 1])
  }

  predicate RequestsSpaced(log: seq<Queued>) {
    forall i, j :: 0 <= i < j < |log| && IsRequest(log[i]) && IsRequest(log[j]) ==>
      30 * (log[j].at - log[i].at) >= NANOS_PER_SECOND
  }

  predicate RequestsBefore(log: seq<Queued>, last: Option<nat>) {
    forall i :: 0 <= i < |log| && IsRequest(log[i]) ==> last.Some? && log[i].at <= last.value
  }

  /** Requests are apart, and every sample and the awaited reply have a request of their own. */
  predicate RequestsPaced(d: Device, now: nat) {
    && RequestsSpaced(d.log) && RequestsBefore(d.log, d.requestSentAt)
    && (d.requestSentAt.Some? ==> d.requestSentAt.value <= now)
    && SampleCount(d.events) + (if d.waiting != Off then 1 else 0) <= RequestCount(d.log)
    && (d.waiting != Off ==> LatestMode(d.log) == d.waiting)
  }

  lemma QueuedMore(log: seq<Queued>, q: Queued)
    ensures RequestCount(log + [q]) == RequestCount(log) + if IsRequest(q) then 1 else 0
    ensures LatestMode(log + [q]) == if IsRequest(q) then q.purpose.mode else LatestMode(log)
  {
    assert (log + [q])[..|log|] == log;
  }

  lemma EventMore(events: seq<Event>, e: Event)
    ensures SampleCount(events + [e]) == SampleCount(events) + if e.SensorTestData? then 1 else 0
  {
    assert (events + [e])[..|events|] == events;
  }

  lemma {:induction false} SensorsRequestedPaced(u: Unit, now: nat)
    requires WritesPaced(u.device) && RequestsPaced(u.device, now)
    ensures WritesPaced(SensorsRequested(u, now).device) && RequestsPaced(SensorsRequested(u, now).device, now)
  {
    if RequestsSensors(u.device, now) {
      var d := u.device;
      var q := Queued(now, RequestSensors(d.testMode), SensorBody(d.testMode));
      OtherQueued(d.log, d.sets, d.delayConfigUntil, q);
      QueuedMore(d.log, q);
    }
  }

  lemma ConfigSentKeepsRequests(u: Unit, now: nat)
    requires RequestsPaced(u.device, now)
    ensures RequestsPaced(ConfigSent(u, now).device, now)
  {
    if WritesConfig(u, now) {
      var d, fw := u.device, Firmware(u);
      var q := Queued(now, WriteConfig(d.wanted, d.rawOld, fw, |d.sets|), WriteBody(fw, d.wanted, d.rawOld));
      var back := Queued(now, ReadBack(fw), ReadBackBody(fw));
      QueuedMore(d.log, q);
      QueuedMore(d.log + [q], back);
    }
  }

  /** Queuing something that is neither a write nor a request. */
  lemma AsidePaced(d: Device, e: Device, q: Queued, now: nat)
    requires WritesPaced(d) && RequestsPaced(d, now) && !IsWrite(q) && !IsRequest(q)
    requires e == d.(log := d.log + [q])
    ensures WritesPaced(e) && RequestsPaced(e, now)
  {
    OtherQueued(d.log, d.sets, d.delayConfigUntil, q);
    QueuedMore(d.log, q);
  }

  // ─── Every step keeps both ────────────────────────────────────────────────

  predicate Paced(w: World) {
    WritesPaced(w.device) && RequestsPaced(w.device, w.now)
  }

  lemma SensorsReceivedPaced(d: Device, firmware: nat, buf: seq<byte>, now: nat)
    requires WritesPaced(d) && RequestsPaced(d, now)
    ensures WritesPaced(SensorsReceived(d, firmware, buf)) && RequestsPaced(SensorsReceived(d, firmware, buf), now)
  {
    var events := SensorsReceived(d, firmware, buf).events;
    if |events| > |d.events| {
      EventMore(d.events, events[|d.events|]);
    }
  }

  lemma ConfigReceivedPaced(d: Device, buf: seq<byte>, now: nat)
    requires WritesPaced(d) && RequestsPaced(d, now)
    ensures WritesPaced(ConfigReceived(d, buf)) && RequestsPaced(ConfigReceived(d, buf), now)
  {
    EventMore(d.events, ConfigUpdated);
  }

  lemma {:induction false} ReceivedPaced(d: Device, firmware: nat, buf: seq<byte>, now: nat)
    requires WritesPaced(d) && RequestsPaced(d, now)
    ensures WritesPaced(Received(d, firmware, buf)) && RequestsPaced(Received(d, firmware, buf), now)
  {
    if buf != [] && buf[0] == 0x79 {
      SensorsReceivedPaced(d, firmware, buf, now);
    } else if buf != [] && (buf[0] == 0x67 || buf[0] == 0x47) {
      ConfigReceivedPaced(d, buf, now);
    }
  }

  lemma {:induction false} AllReceivedPaced(d: Device, firmware: nat, bufs: seq<seq<byte>>, now: nat)
    requires WritesPaced(d) && RequestsPaced(d, now)
    ensures WritesPaced(AllReceived(d, firmware, bufs)) && RequestsPaced(AllReceived(d, firmware, bufs), now)
    decreases |bufs|
  {
    if bufs != [] {
      ReceivedPaced(d, firmware, bufs[0], now);
      AllReceivedPaced(Received(d, firmware, bufs[0]), firmware, bufs[1..], now);
    }
  }

  lemma {:induction false} IssuingPaced(u: Unit, now: nat)
    requires WritesPaced(u.device) && RequestsPaced(u.device, now)
    ensures WritesPaced(Issuing(u, now).device) && RequestsPaced(Issuing(u, now).device, now)
  {
    var active := ActiveChecked(u, now);
    if u.conn.handle.gotInfo && !u.conn.handle.active {
      AsidePaced(u.device, active.device, Queued(now, Activate, ReadBackBody(Firmware(u))), now);
    }
    ConfigSentPaced(active, now);
    ConfigSentKeepsRequests(active, now);
    SensorsRequestedPaced(ConfigSent(active, now), now);
  }

  lemma PassPaced(u: Unit, io: Io, now: nat)
    requires WritesPaced(u.device) && RequestsPaced(u.device, now)
    ensures WritesPaced(Updated(u, io, now).device) && RequestsPaced(Updated(u, io, now).device, now)
  {
    if u.conn.handle.gotInfo {
      IssuingPaced(u, now);
      var w := IoDone(Issuing(u, now), io, now);
      AllReceivedPaced(w.device, Firmware(w), w.conn.handle.readBuffers, now);
    }
  }

  lemma StepPaced(w: World, step: DeviceStep)
    requires Paced(w)
    ensures Paced(Stepped(w, step))
  {
    match step {
      case SetConfig(config) => MoreSets(w.device.log, w.device.sets, config);
      case Close => EventMore(w.device.events, Disconnected);
      case Pass(io) =>
        if w.conn.Some? {
          PassPaced(Unit(w.device, w.conn.value), io, w.now);
        }
      case _ =>
    }
  }

  lemma {:induction false} PacedAlways(steps: seq<DeviceStep>)
    ensures Paced(DeviceRun(steps))
  {
    if steps != [] {
      PacedAlways(steps[..|steps| - 1]);
      StepPaced(DeviceRun(steps[..|steps| - 1]), steps[|steps| - 1]);
    }
  }

  // ─── The results ──────────────────────────────────────────────────────────

  /**
   In every run, reconnects included, configuration writes are at least one second apart
   and each is followed at once by its read-back.
   */
  lemma ConfigWritesPaced(steps: seq<DeviceStep>, i: nat, j: nat)
    requires var log := DeviceRun(steps).device.log; i < j < |log| && IsWrite(log[i]) && IsWrite(log[j])
    ensures var log := DeviceRun(steps).device.log;
      log[i].at + 1_000_000_000 <= log[j].at && ReadBackAfter(log, i) && ReadBackAfter(log, j)
  {
    PacedAlways(steps);
  }

  lemma {:induction false} AllReceivedKeepsLog(d: Device, firmware: nat, bufs: seq<seq<byte>>)
    ensures AllReceived(d, firmware, bufs).log == d.log
    decreases |bufs|
  {
    if bufs != [] {
      AllReceivedKeepsLog(Received(d, firmware, bufs[0]), firmware, bufs[1..]);
    }
  }

  lemma RepliesKeepLog(u: Unit)
    ensures RepliesHandled(u).device.log == u.device.log
  {
    AllReceivedKeepsLog(u.device, Firmware(u), u.conn.handle.readBuffers);
  }

  /** A legacy reply that is kept fits its size byte. */
  predicate RawShort(d: Device) {
    |d.rawOld| <= 255
  }

  lemma {:induction false} RepliesKeepRawShort(d: Device, firmware: nat, bufs: seq<seq<byte>>)
    requires RawShort(d)
    ensures RawShort(AllReceived(d, firmware, bufs))
    decreases |bufs|
  {
    if bufs != [] {
      RepliesKeepRawShort(Received(d, firmware, bufs[0]), firmware, bufs[1..]);
    }
  }

  lemma PassKeepsRawShort(u: Unit, io: Io, now: nat)
    requires RawShort(u.device)
    ensures RawShort(Updated(u, io, now).device)
  {
    if u.conn.handle.gotInfo {
      var w := IoDone(Issuing(u, now), io, now);
      assert w.device.rawOld == ActiveChecked(u, now).device.rawOld == u.device.rawOld;
      RepliesKeepRawShort(w.device, Firmware(w), w.conn.handle.readBuffers);
    }
  }

  lemma {:induction false} RawShortAlways(steps: seq<DeviceStep>)
    ensures RawShort(DeviceRun(steps).device)
  {
    if steps != [] {
      var w, step := DeviceRun(steps[..|steps| - 1]), steps[|steps| - 1];
      RawShortAlways(steps[..|steps| - 1]);
      if step.Pass? && w.conn.Some? {
        PassKeepsRawShort(Unit(w.device, w.conn.value), step.io, w.now);
      }
    }
  }

  /** The command writes the configuration set last on `d`, so that its echo gives that back. */
  ghost predicate CarriesLast(q: Queued, d: Device, firmware: nat) {
    d.sets != [] && Writes(q.body, firmware, d.sets[|d.sets| - 1])
  }

  lemma OneWriteQueued(u: Unit, now: nat, i: nat)
    requires WritesPaced(u.device) && RawShort(u.device)
    requires |u.device.log| <= i < |Issuing(u, now).device.log| && IsWrite(Issuing(u, now).device.log[i])
    ensures CarriesLast(Issuing(u, now).device.log[i], u.device, Firmware(u))
  {
    var v := ActiveChecked(u, now);
    assert v.device == u.device.(log := v.device.log);
    WriteEchoes(Firmware(u), u.device.wanted, u.device.rawOld);
  }

  lemma UpdatedLog(u: Unit, io: Io, now: nat)
    requires u.conn.handle.gotInfo
    ensures Updated(u, io, now).device.log == Issuing(u, now).device.log
  {
    RepliesKeepLog(IoDone(Issuing(u, now), io, now));
  }

  /** The write an update queues carries the configuration set last. */
  lemma UpdateCarriesLatest(u: Unit, io: Io, now: nat, i: nat)
    requires WritesPaced(u.device) && RawShort(u.device)
    requires |u.device.log| <= i < |Updated(u, io, now).device.log| && IsWrite(Updated(u, io, now).device.log[i])
    ensures CarriesLast(Updated(u, io, now).device.log[i], u.device, Firmware(u))
  {
    if u.conn.handle.gotInfo {
      UpdatedLog(u, io, now);
      OneWriteQueued(u, now, i);
    }
  }

  /** Every write a step queues carries the configuration set last, in the layout of the pad's firmware. */
  lemma WritesCarryLatestSet(steps: seq<DeviceStep>, step: DeviceStep, i: nat)
    requires var log := Stepped(DeviceRun(steps), step).device.log;
      |DeviceRun(steps).device.log| <= i < |log| && IsWrite(log[i])
    ensures var w := DeviceRun(steps);
      && w.conn.Some?
      && CarriesLast(Stepped(w, step).device.log[i], w.device, w.conn.value.handle.deviceInfo.firmwareVersion)
  {
    PacedAlways(steps);
    RawShortAlways(steps);
    var w := DeviceRun(steps);
    if step.Pass? && w.conn.Some? {
      UpdateCarriesLatest(Unit(w.device, w.conn.value), step.io, w.now, i);
    }
  }

  /** In every run, reconnects and mode changes included, sensor requests are at least 1/30 s apart. */
  lemma SensorRequestsPaced(steps: seq<DeviceStep>, i: nat, j: nat)
    requires var log := DeviceRun(steps).device.log; i < j < |log| && IsRequest(log[i]) && IsRequest(log[j])
    ensures var log := DeviceRun(steps).device.log; 30 * (log[j].at - log[i].at) >= 1_000_000_000
  {
    PacedAlways(steps);
  }

  /** In every run, published samples never outnumber requests. */
  lemma SamplesNeverOutnumberRequests(steps: seq<DeviceStep>)
    ensures SampleCount(DeviceRun(steps).device.events) <= RequestCount(DeviceRun(steps).device.log)
  {
    PacedAlways(steps);
  }

  /**
   A reply publishes a sample exactly when it is whole and in the mode that is both awaited
   and current; that is the mode of the latest request.
   */
  lemma SampleMatchesModes(d: Device, firmware: nat, buf: seq<byte>, now: nat)
    requires RequestsPaced(d, now) && buf != []
    ensures SampleCount(Received(d, firmware, buf).events) == SampleCount(d.events)
      + if buf[0] == 0x79 && Answered(d, buf) && ModeOf(buf[1]) == Some(d.testMode) then 1 else 0
    ensures buf[0] == 0x79 && Answered(d, buf) ==>
      ModeOf(buf[1]) == Some(LatestMode(d.log)) && Received(d, firmware, buf).waiting == Off
  {
    var events := Received(d, firmware, buf).events;
    if |events| > |d.events| {
      EventMore(d.events, events[|d.events|]);
    }
  }

  /** The reported time is exact: a request is due at `later` just when that much time has passed. */
  lemma NextRequestIsExact(d: Device, now: nat, later: nat)
    requires d.testMode != Off && now <= later && (d.requestSentAt.Some? ==> d.requestSentAt.value <= now)
    ensures RequestsSensors(d, later) <==> 3 * (later - now) >= UntilNextRequest(d, now).value
  {
  }

  /** The two devices are due for a request at the same times. */
  predicate SameSensorState(d: Device, e: Device) {
    d.testMode == e.testMode && d.waiting == e.waiting && d.requestSentAt == e.requestSentAt
  }

  lemma ActiveCheckedCounts(u: Unit, now: nat)
    ensures SameSensorState(u.device, ActiveChecked(u, now).device)
    ensures RequestCount(ActiveChecked(u, now).device.log) == RequestCount(u.device.log)
  {
    QueuedMore(u.device.log, Queued(now, Activate, ReadBackBody(Firmware(u))));
  }

  lemma ConfigSentCounts(u: Unit, now: nat)
    ensures SameSensorState(u.device, ConfigSent(u, now).device)
    ensures RequestCount(ConfigSent(u, now).device.log) == RequestCount(u.device.log)
  {
    if WritesConfig(u, now) {
      var d, fw := u.device, Firmware(u);
      var q := Queued(now, WriteConfig(d.wanted, d.rawOld, fw, |d.sets|), WriteBody(fw, d.wanted, d.rawOld));
      QueuedMore(d.log, q);
      QueuedMore(d.log + [q], Queued(now, ReadBack(fw), ReadBackBody(fw)));
    }
  }

  lemma SensorsRequestedCounts(u: Unit, now: nat)
    ensures RequestCount(SensorsRequested(u, now).device.log) == RequestCount(u.device.log)
      + if RequestsSensors(u.device, now) then 1 else 0
  {
    QueuedMore(u.device.log, Queued(now, RequestSensors(u.device.testMode), SensorBody(u.device.testMode)));
  }

  lemma StillDue(d: Device, e: Device, now: nat)
    requires SameSensorState(d, e)
    ensures RequestsSensors(d, now) == RequestsSensors(e, now)
  {
  }

  lemma IssuingCounts(u: Unit, v: Unit, x: Unit, now: nat)
    requires v == ActiveChecked(u, now) && x == ConfigSent(v, now)
    ensures RequestCount(SensorsRequested(x, now).device.log) == RequestCount(u.device.log)
      + if RequestsSensors(u.device, now) then 1 else 0
  {
    ActiveCheckedCounts(u, now);
    ConfigSentCounts(v, now);
    SensorsRequestedCounts(x, now);
    StillDue(u.device, v.device, now);
    StillDue(v.device, x.device, now);
  }

  lemma DueAtZero(d: Device, now: nat)
    ensures RequestsSensors(d, now) <==> UntilNextRequest(d, now) == Some(0)
  {
  }

  lemma InformedUpdateSends(u: Unit, io: Io, now: nat)
    requires u.conn.handle.gotInfo
    ensures RequestCount(Updated(u, io, now).device.log) == RequestCount(u.device.log)
      + if UntilNextRequest(u.device, now) == Some(0) then 1 else 0
  {
    UpdatedLog(u, io, now);
    var v := ActiveChecked(u, now);
    IssuingCounts(u, v, ConfigSent(v, now), now);
    DueAtZero(u.device, now);
  }

  /** The pad is there and has told who it is. */
  predicate Informed(w: World) {
    w.conn.Some? && w.conn.value.handle.gotInfo
  }

  /** An update queues a sensor request exactly when the device is informed and the reported time is zero. */
  lemma SendsExactly(w: World, io: Io)
    ensures RequestCount(Stepped(w, Pass(io)).device.log) == RequestCount(w.device.log)
      + if Informed(w) && UntilNextRequest(w.device, w.now) == Some(0) then 1 else 0
  {
    if Informed(w) {
      InformedUpdateSends(Unit(w.device, w.conn.value), io, w.now);
    }
  }

  /** An update at this moment sends a request just when the reported time is zero. */
  predicate ReportHolds(w: World, io: Io) {
    (RequestCount(Stepped(w, Pass(io)).device.log) > RequestCount(w.device.log))
    == (UntilNextRequest(w.device, w.now) == Some(0))
  }

  /** The same at every later moment, whatever the connection finds then. */
  ghost predicate ReportAlwaysHolds(w: World) {
    forall elapsed: nat, io: Io :: ReportHolds(Stepped(w, Tick(elapsed)), io)
  }

  /** With no pad connected and a test mode set, the reported time is zero and an update does nothing. */
  lemma ZeroYetNothingSent(io: Io)
    ensures var w := DeviceRun([SetMode(Calibrated)]);
      && UntilNextRequest(w.device, w.now) == Some(0)
      && Stepped(w, Pass(io)) == w
      && !ReportHolds(w, io)
  {
    assert [SetMode(Calibrated)][..0] == [];
    assert DeviceRun([SetMode(Calibrated)]) == Stepped(STARTED, SetMode(Calibrated));
  }

  lemma DueInTheEnd(d: Device, now: nat) returns (elapsed: nat)
    requires d.testMode != Off
    ensures UntilNextRequest(d, now + elapsed) == Some(0)
  {
    elapsed := if d.requestSentAt.Some? then d.requestSentAt.value + 2 * NANOS_PER_SECOND else 0;
  }

  /**
   The reported time is zero exactly when an update would send, now and later, if and only if
   the device is informed or its test mode is off.
   */
  lemma ZeroExactlyWhenSending(w: World)
    ensures ReportAlwaysHolds(w) <==> Informed(w) || w.device.testMode == Off
  {
    if Informed(w) || w.device.testMode == Off {
      forall elapsed: nat, io: Io
        ensures ReportHolds(Stepped(w, Tick(elapsed)), io)
      {
        SendsExactly(Stepped(w, Tick(elapsed)), io);
      }
    } else {
      var elapsed := DueInTheEnd(w.device, w.now);
      var io := Io(false, [], false, false);
      SendsExactly(Stepped(w, Tick(elapsed)), io);
      assert !ReportHolds(Stepped(w, Tick(elapsed)), io);
    }
  }

  /** A configuration that was set is what is read, before and after it is sent. */
  lemma SetConfigIsRead(d: Device, conn: Conn, config: Config, now: nat)
    requires IsConnected(d, conn.handle)
    ensures ConfigGot(ConfigSet(d, Some(conn), config), Some(conn)) == Some(config)
    ensures var u := Issuing(Unit(ConfigSet(d, Some(conn), config), conn), now);
      ConfigGot(u.device, Some(u.conn)) == Some(config)
  {
    var u := Unit(ConfigSet(d, Some(conn), config), conn);
    var v := ActiveChecked(u, now);
    assert v.device.wanted == config && v.device.sendConfig && v.conn.handle.gotInfo;
    var w := ConfigSent(v, now);
    assert ConfigGot(w.device, Some(w.conn)) == Some(config);
  }
}
