/**
 What the commands of a device mean to the pad: a configuration written is the one a reply
 with the same bytes gives back, a sensor request names the mode whose answer is published,
 and each command stands in the queue where it should. Command letters are written out.
 */
module ConfigEcho {
  import opened Bytes
  import P = Protocol
  import opened CommandQueue
  import opened Replies
  import opened Device
  import L = LegacyConfig
  import S = SensorCodec

  // ─── Writing a configuration ──────────────────────────────────────────────

  /** The reply of a pad that keeps what the write command carries: 'G', or 'g' below firmware 5. */
  function Echo(body: seq<byte>, firmware: nat): seq<byte>
    requires body != []
  {
    [if firmware >= 5 then 0x47 else 0x67] + body[1..]
  }

  /** After the reply `config` is known again, below firmware 5 the carried fields of it. */
  predicate Restores(d: Device, body: seq<byte>, firmware: nat, config: Config)
    requires body != []
  {
    var e := Received(d, firmware, Echo(body, firmware));
    && e.haveConfig
    && (firmware >= 5 ==> e.config == config)
    && (firmware < 5 && 3 <= config[1] <= 254 ==> L.SameCarried(e.config, config))
  }

  /** The command writes `config`: 'W' and all 250 bytes, or 'w' and a legacy record. */
  ghost predicate Writes(body: seq<byte>, firmware: nat, config: Config) {
    && |body| >= 2
    && body[0] == (if firmware >= 5 then 0x57 else 0x77)
    && (firmware >= 5 ==> body == [0x57, 250] + config)
    && body[1] as int == |body| - 2
    && forall d: Device :: Restores(d, body, firmware, config)
  }

  lemma NewLayoutRestores(d: Device, firmware: nat, config: Config, raw: seq<byte>)
    requires firmware >= 5
    ensures Restores(d, WriteBody(firmware, config, raw), firmware, config)
  {
    var body := WriteBody(firmware, config, raw);
    var buf := Echo(body, firmware);
    assert body == [0x57, 250] + config;
    assert buf == [0x47, 250] + config && buf[2..252] == config;
    assert config[..250] + d.config[250..] == config;
  }

  lemma LegacyRestores(d: Device, firmware: nat, config: Config, raw: seq<byte>)
    requires firmware < 5 && |raw| <= 255
    ensures Restores(d, WriteBody(firmware, config, raw), firmware, config)
  {
    var legacy := L.OldFromNew(config, raw);
    var buf := Echo(WriteBody(firmware, config, raw), firmware);
    assert buf == [0x67, |legacy|] + legacy && buf[2..2 + |legacy|] == legacy;
    if 3 <= config[1] <= 254 {
      L.AllSurvive(config, raw, d.config);
    }
  }

  /** The echo law: what is written is what is read back, whatever the device held. */
  lemma WriteEchoes(firmware: nat, config: Config, raw: seq<byte>)
    requires |raw| <= 255
    ensures Writes(WriteBody(firmware, config, raw), firmware, config)
  {
    forall d: Device
      ensures Restores(d, WriteBody(firmware, config, raw), firmware, config)
    {
      if firmware >= 5 {
        NewLayoutRestores(d, firmware, config, raw);
      } else {
        LegacyRestores(d, firmware, config, raw);
      }
    }
  }

  // ─── Reading a configuration ──────────────────────────────────────────────

  /**
   A reply 'G' with `n` bytes stands for the first `n` of the current layout; a reply 'g' for a
   legacy record, which is kept as it is for later writes. A shorter reply than announced does
   nothing.
   */
  lemma ConfigReplyRead(d: Device, firmware: nat, letter: byte, payload: seq<byte>, extra: seq<byte>, i: nat)
    requires letter in {0x47, 0x67} && |payload| <= 255 && i < 250
    ensures var e := Received(d, firmware, [letter, |payload|] + payload + extra);
      && e == d.(config := e.config, rawOld := e.rawOld, haveConfig := true, events := d.events + [ConfigUpdated])
      && e.rawOld == (if letter == 0x67 then payload else d.rawOld)
      && (letter == 0x47 ==> e.config[i] == if i < |payload| then payload[i] else d.config[i])
      && (letter == 0x67 ==> e.config == L.NewFromOld(L.Padded(payload), d.config))
  {
    var buf := [letter, |payload|] + payload + extra;
    assert buf[2..2 + |payload|] == payload;
  }

  /** Neither a configuration shorter than it says nor a reply of any other letter does anything. */
  lemma OtherRepliesIgnored(d: Device, firmware: nat, buf: seq<byte>)
    requires buf != [] ==>
      || buf[0] !in {0x47, 0x67, 0x79}
      || (buf[0] in {0x47, 0x67} && (|buf| < 2 || |buf| < buf[1] as int + 2))
    ensures Received(d, firmware, buf) == d
  {
  }

  // ─── Where the commands are queued ────────────────────────────────────────

  /** A plain command without callback. */
  function Plain(id: nat, body: seq<byte>): Command {
    Command(id, P.Fragments(body), false, false, false, false, None)
  }

  /** The command that asks for the configuration: "G", or "g\n" below firmware 5. */
  function AskConfig(firmware: nat): seq<byte> {
    if firmware >= 5 then [0x47] else [0x67, 0x0A]
  }

  /**
   When a write is due, and only then, the write of the wanted configuration and the command
   that reads it back go to the back of the queue, next to each other.
   */
  lemma WriteQueuesBoth(u: Unit, now: nat)
    requires |u.device.rawOld| <= 255
    ensures var v, fw, n := ConfigSent(u, now), u.conn.handle.deviceInfo.firmwareVersion, u.conn.requests;
      var due := u.conn.handle.gotInfo && u.device.haveConfig && u.device.sendConfig
        && (u.device.delayConfigUntil.Some? ==> now >= u.device.delayConfigUntil.value);
      if due then
        && |v.device.log| == |u.device.log| + 2
        && var body := v.device.log[|u.device.log|].body;
        && Writes(body, fw, u.device.wanted)
        && v.conn.handle.pending == u.conn.handle.pending + [Plain(n, body), Plain(n + 1, AskConfig(fw))]
        && v.device.config == u.device.wanted && !v.device.sendConfig
        && v.device.delayConfigUntil == Some(now + 1_000_000_000)
      else v == u
  {
    if WritesConfig(u, now) {
      var fw := u.conn.handle.deviceInfo.firmwareVersion;
      WriteEchoes(fw, u.device.wanted, u.device.rawOld);
      var body := WriteBody(fw, u.device.wanted, u.device.rawOld);
      Assoc(u.conn.handle.pending, [Plain(u.conn.requests, body)], [Plain(u.conn.requests + 1, AskConfig(fw))]);
    }
  }

  /** A device that has its info becomes active once, and then asks for its configuration. */
  lemma ActivationAsks(u: Unit, now: nat)
    ensures var v, fw := ActiveChecked(u, now), u.conn.handle.deviceInfo.firmwareVersion;
      if u.conn.handle.gotInfo && !u.conn.handle.active then
        v.conn.handle == u.conn.handle.(active := true,
                                        pending := u.conn.handle.pending + [Plain(u.conn.requests, AskConfig(fw))])
      else v == u
  {
  }

  // ─── Sensor requests ──────────────────────────────────────────────────────

  /** The text digit of a mode. */
  function DigitOf(mode: Mode): byte {
    match mode
    case Off => 0
    case Uncalibrated => 0x30
    case Calibrated => 0x31
    case Noise => 0x32
    case Tare => 0x33
  }

  /** The words of a reply, low byte first. */
  predicate WordsOf(words: seq<S.word>, data: seq<byte>) {
    && |data| == 2 * |words|
    && forall i :: 0 <= i < |words| ==> words[i] == data[2 * i] as int + 256 * data[2 * i + 1] as int
  }

  /**
   A due request "y", the mode's digit and a line end goes ahead of everything pending; the reply
   that repeats the digit publishes its sensor words as a sample of that mode and ends the wait.
   */
  lemma RequestIsAnswered(u: Unit, now: nat, words: seq<S.word>, data: seq<byte>)
    requires RequestsSensors(u.device, now) && |words| <= 255 && WordsOf(words, data)
    ensures var v, digit := SensorsRequested(u, now), DigitOf(u.device.testMode);
      && v.conn.handle.pending == [Plain(u.conn.requests, [0x79, digit, 0x0A])] + u.conn.handle.pending
      && v.device.waiting == u.device.testMode && v.device.requestSentAt == Some(now)
      && var fw := u.conn.handle.deviceInfo.firmwareVersion;
         var e := Received(v.device, fw, [0x79, digit, |words|] + data);
         && e.waiting == Off && e.testData == Some(S.Parsed(words, fw))
         && e.events == u.device.events + [SensorTestData(u.device.testMode, S.Parsed(words, fw))]
  {
    var buf := [0x79, DigitOf(u.device.testMode), |words|] + data;
    assert buf[3..] == data;
    assert Words(data, |words|) == words;
  }

  /** A request is due in a test mode, a thirtieth of a second after the last, or two while that is unanswered. */
  lemma RequestDueInNumbers(d: Device, now: nat)
    requires d.requestSentAt.Some? ==> d.requestSentAt.value <= now
    ensures RequestsSensors(d, now) <==>
      && d.testMode != Off
      && (d.requestSentAt.Some? ==>
            if d.waiting != Off then now - d.requestSentAt.value >= 2_000_000_000
            else 30 * (now - d.requestSentAt.value) >= 1_000_000_000)
    ensures !RequestsSensors(d, now) ==> forall conn: Conn :: SensorsRequested(Unit(d, conn), now) == Unit(d, conn)
  {
  }

  // ─── Setting a configuration ──────────────────────────────────────────────

  /** Without a connection, its info or a configuration, one that is set is ignored and none is read. */
  lemma SetNeedsAll(d: Device, conn: Option<Conn>, config: Config)
    ensures var all := conn.Some? && conn.value.handle.gotInfo && d.haveConfig;
      && (!all ==> ConfigSet(d, conn, config) == d && ConfigGot(d, conn).None?)
      && (all ==> ConfigSet(d, conn, config).wanted == config && ConfigSet(d, conn, config).sendConfig)
      && ConfigSet(d, conn, config).config == d.config
  {
  }

  // ─── From the pad to the device ───────────────────────────────────────────

  lemma IssuingKeepsReading(u: Unit, now: nat)
    requires u.conn.handle.gotInfo
    ensures var h, g := u.conn.handle, Issuing(u, now).conn.handle;
      && g.active && g.gotInfo && g.deviceInfo == h.deviceInfo
      && g.readBuffers == h.readBuffers && g.reassembly == h.reassembly
  {
    var v := ActiveChecked(u, now);
    var x := ConfigSent(v, now);
    assert x.conn.handle == v.conn.handle.(pending := x.conn.handle.pending);
  }

  lemma IoReads(h: Handle, io: Io, now: nat, replies: seq<Reply>)
    requires h.active && IoOk(h, io, now) && AllSendable(replies) && io.buffer == Concat(PacketsOf(replies))
    ensures var g := IoHandle(h, io, now);
      g.readBuffers == h.readBuffers + Waiting(h, replies) + Bodies(replies) && g.deviceInfo == h.deviceInfo
  {
    RepliesInBuffer(replies);
    RepliesAreRead(Retried(h, now), replies);
  }

  /**
   An update passes every reply the pad has sent, whole and in order, to the device, and leaves
   none behind.
   */
  lemma RepliesReachDevice(u: Unit, io: Io, now: nat, replies: seq<Reply>)
    requires u.conn.handle.gotInfo && IoOk(Issuing(u, now).conn.handle, io, now)
    requires AllSendable(replies) && io.buffer == Concat(PacketsOf(replies))
    ensures var v, fw := Updated(u, io, now), u.conn.handle.deviceInfo.firmwareVersion;
      && v.device == AllReceived(Issuing(u, now).device, fw,
                                 u.conn.handle.readBuffers + Waiting(u.conn.handle, replies) + Bodies(replies))
      && v.conn.handle.readBuffers == []
  {
    IssuingKeepsReading(u, now);
    IoReads(Issuing(u, now).conn.handle, io, now, replies);
  }

  /** An update that finds the connection broken handles no reply; one without device info does nothing else. */
  lemma BrokenUpdateReadsNothing(u: Unit, io: Io, now: nat)
    ensures u.conn.handle.gotInfo && io.errored ==>
      Updated(u, io, now).device == Issuing(u, now).device
      && Updated(u, io, now).conn.handle == Issuing(u, now).conn.handle
    ensures !u.conn.handle.gotInfo ==> Updated(u, io, now).device == u.device
  {
  }

  /** In whatever pieces the pad sends it back, a configuration written is known again after the update. */
  lemma WrittenConfigComesBack(u: Unit, io: Io, now: nat, config: Config, raw: seq<byte>, reply: Reply)
    requires u.conn.handle.gotInfo && IoOk(Issuing(u, now).conn.handle, io, now) && |raw| <= 255
    requires u.conn.handle.readBuffers == [] && u.conn.handle.reassembly.completed == []
    requires Sendable(reply.chunks) && io.buffer == Concat(PacketsOf([reply]))
    requires var fw := u.conn.handle.deviceInfo.firmwareVersion;
      Concat(reply.chunks) == Echo(WriteBody(fw, config, raw), fw)
    ensures var d, fw := Updated(u, io, now).device, u.conn.handle.deviceInfo.firmwareVersion;
      && d.haveConfig
      && (fw >= 5 ==> d.config == config)
      && (fw < 5 && 3 <= config[1] <= 254 ==> L.SameCarried(d.config, config))
  {
    var fw := u.conn.handle.deviceInfo.firmwareVersion;
    var body := WriteBody(fw, config, raw);
    RepliesReachDevice(u, io, now, [reply]);
    assert [] + [] + Bodies([reply]) == [Echo(body, fw)];
    WriteEchoes(fw, config, raw);
    assert Restores(Issuing(u, now).device, body, fw, config);
    assert [Echo(body, fw)][1..] == [];
  }
}
