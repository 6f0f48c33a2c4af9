/**
 Packet framing: how a command becomes 64-byte HID packets, how one incoming
 Report 6 packet is parsed, and how fragments are put back together.
 */
module Protocol {
  import opened Bytes

  const FLAG_END_OF_COMMAND := 0x01
  const FLAG_HOST_CMD_FINISHED := 0x02
  const FLAG_START_OF_COMMAND := 0x04
  const FLAG_DEVICE_INFO := 0x80

  const HID_REPORT_INPUT_STATE: byte := 0x03
  const HID_REPORT_COMMAND: byte := 0x05
  const HID_REPORT_DATA: byte := 0x06

  const HID_PACKET_SIZE := 64
  const HID_MAX_PAYLOAD_SIZE := 61

  type Packet = p: seq<byte> | |p| == HID_PACKET_SIZE witness Zeros(HID_PACKET_SIZE)

  // ─── Fragmenting a command ────────────────────────────────────────────────

  /** One packet: header, chunk, zero padding. The two flag bits are disjoint, so OR is a sum. */
  function FragmentPacket(chunk: seq<byte>, first: bool, last: bool): (p: Packet)
    requires |chunk| <= HID_MAX_PAYLOAD_SIZE
  {
    var flags: byte := (if first then FLAG_START_OF_COMMAND else 0) + (if last then FLAG_END_OF_COMMAND else 0);
    [HID_REPORT_COMMAND, flags, |chunk| as byte] + chunk + Zeros(HID_MAX_PAYLOAD_SIZE - |chunk|)
  }

  /** The packets for the rest of a command, `first` when nothing of it was sent yet. */
  function FragmentsFrom(rest: seq<byte>, first: bool): (ps: seq<Packet>)
    ensures ps != []
    decreases |rest|
  {
    if |rest| <= HID_MAX_PAYLOAD_SIZE then
      [FragmentPacket(rest, first, true)]
    else
      [FragmentPacket(rest[..HID_MAX_PAYLOAD_SIZE], first, false)]
      + FragmentsFrom(rest[HID_MAX_PAYLOAD_SIZE..], false)
  }

  function Fragments(cmd: seq<byte>): (ps: seq<Packet>)
    ensures ps != []
  {
    FragmentsFrom(cmd, true)
  }

  function DeviceInfoRequest(): Packet {
    [HID_REPORT_COMMAND, FLAG_DEVICE_INFO, 0] + Zeros(HID_MAX_PAYLOAD_SIZE)
  }

  /** Fills one zeroed 64-byte buffer. */
  method FillPacket(chunk: seq<byte>, first: bool, last: bool) returns (p: Packet)
    requires |chunk| <= HID_MAX_PAYLOAD_SIZE
    ensures p == FragmentPacket(chunk, first, last)
  {
    var packet := new byte[HID_PACKET_SIZE](_ => 0);
    packet[0] := HID_REPORT_COMMAND;
    var flags := 0;
    if first {
      flags := flags + FLAG_START_OF_COMMAND;
    }
    if last {
      flags := flags + FLAG_END_OF_COMMAND;
    }
    packet[1] := flags;
    packet[2] := |chunk|;
    forall k | 0 <= k < |chunk| {
      packet[3 + k] := chunk[k];
    }
    p := packet[..];
    assert p == FragmentPacket(chunk, first, last);
  }

  method BuildCommandPackets(cmd: seq<byte>) returns (packets: seq<Packet>)
    ensures packets == Fragments(cmd)
  {
    if cmd == [] {
      var packet := FillPacket([], true, true);
      assert cmd == [];
      return [packet];
    }
    var numPackets := (|cmd| + HID_MAX_PAYLOAD_SIZE - 1) / HID_MAX_PAYLOAD_SIZE;
    packets := [];
    var i := 0;
    while i < numPackets
      invariant 0 <= i <= numPackets
      invariant i == 0 ==> packets == []
      invariant i < numPackets ==>
        packets + FragmentsFrom(cmd[HID_MAX_PAYLOAD_SIZE * i..], i == 0) == Fragments(cmd)
      invariant i == numPackets ==> packets == Fragments(cmd)
    {
      var start := HID_MAX_PAYLOAD_SIZE * i;
      var rest := cmd[start..];
      var end := Min(start + HID_MAX_PAYLOAD_SIZE, |cmd|);
      var packet := FillPacket(cmd[start..end], i == 0, i == numPackets - 1);
      ghost var before := packets;
      packets := packets + [packet];
      if i < numPackets - 1 {
        assert cmd[start..end] == rest[..HID_MAX_PAYLOAD_SIZE];
        assert cmd[start + HID_MAX_PAYLOAD_SIZE..] == rest[HID_MAX_PAYLOAD_SIZE..];
        assert before + FragmentsFrom(rest, i == 0)
            == packets + FragmentsFrom(rest[HID_MAX_PAYLOAD_SIZE..], false);
      } else {
        assert cmd[start..end] == rest;
      }
      i := i + 1;
    }
  }

  // ─── Parsing one Report 6 packet ──────────────────────────────────────────

  datatype ParsedPacket =
    | DeviceInfo(payload: seq<byte>)
    | Fragment(payload: seq<byte>, startOfCommand: bool, endOfCommand: bool, hostCmdFinished: bool)

  /** Header and payload bytes a packet starting with `raw` announces. */
  function PacketLength(raw: seq<byte>): nat
    requires |raw| >= 3
  {
    3 + raw[2] as int
  }

  function ParseReport6(raw: seq<byte>): Option<ParsedPacket> {
    if |raw| < 3 || raw[0] != HID_REPORT_DATA then
      None
    else if |raw| < PacketLength(raw) then
      None
    else
      var flags := raw[1];
      var payload := raw[3..PacketLength(raw)];
      if HasFlag(flags, FLAG_DEVICE_INFO) then
        Some(DeviceInfo(payload))
      else
        Some(Fragment(payload,
                      HasFlag(flags, FLAG_START_OF_COMMAND),
                      HasFlag(flags, FLAG_END_OF_COMMAND),
                      HasFlag(flags, FLAG_HOST_CMD_FINISHED)))
  }

  // ─── Reassembly ───────────────────────────────────────────────────────────

  datatype Reassembly = Reassembly(current: seq<byte>, completed: seq<seq<byte>>)

  const EMPTY_REASSEMBLY := Reassembly([], [])

  function Pushed(r: Reassembly, fragment: ParsedPacket): Reassembly {
    match fragment
    case DeviceInfo(_) => r
    case Fragment(payload, startOfCommand, endOfCommand, _) =>
      var partial := (if startOfCommand then [] else r.current) + payload;
      if !endOfCommand then
        Reassembly(partial, r.completed)
      else if partial == [] then
        Reassembly([], r.completed)
      else
        Reassembly([], r.completed + [partial])
  }

  class PacketReassembler {
    var current: seq<byte>
    var completed: seq<seq<byte>>

    constructor ()
      ensures View() == EMPTY_REASSEMBLY
    {
      current, completed := [], [];
    }

    function View(): Reassembly
      reads this
    {
      Reassembly(current, completed)
    }

    method Push(fragment: ParsedPacket) returns (finished: bool)
      modifies this
      ensures View() == Pushed(old(View()), fragment)
      ensures finished <==> fragment.Fragment? && fragment.hostCmdFinished
    {
      match fragment {
        case DeviceInfo(_) =>
          return false;
        case Fragment(payload, startOfCommand, endOfCommand, hostCmdFinished) =>
          if startOfCommand && current != [] {
            current := [];
          }
          current := current + payload;
          if endOfCommand {
            var complete := current;
            current := [];
            if complete != [] {
              completed := completed + [complete];
            }
          }
          return hostCmdFinished;
      }
    }

    method TakeCompleted() returns (packets: seq<seq<byte>>)
      modifies this
      ensures packets == old(completed)
      ensures View() == old(View()).(completed := [])
    {
      packets := completed;
      completed := [];
    }
  }

  // ─── Round trip ───────────────────────────────────────────────────────────

  /** The packet as the other side would carry it: the same bytes under report id 0x06. */
  function Relabel(p: Packet): Packet {
    p[0 := HID_REPORT_DATA]
  }

  /** Parse one packet and push it, ignoring what does not parse. */
  function PushedPacket(r: Reassembly, raw: seq<byte>): Reassembly {
    match ParseReport6(raw)
    case None => r
    case Some(parsed) => Pushed(r, parsed)
  }

  /** The reassembler after the relabelled packets `ps`, in order. */
  function Received(r: Reassembly, ps: seq<Packet>): Reassembly
    decreases |ps|
  {
    if ps == [] then r else Received(PushedPacket(r, Relabel(ps[0])), ps[1..])
  }

  lemma {:induction false} ReceivedAppend(r: Reassembly, a: seq<Packet>, b: seq<Packet>)
    ensures Received(r, a + b) == Received(Received(r, a), b)
    decreases |a|
  {
    if a == [] {
      assert a + b == b;
    } else {
      assert (a + b)[1..] == a[1..] + b;
      ReceivedAppend(PushedPacket(r, Relabel(a[0])), a[1..], b);
    }
  }

  lemma FragmentParses(chunk: seq<byte>, first: bool, last: bool)
    requires |chunk| <= HID_MAX_PAYLOAD_SIZE
    ensures ParseReport6(Relabel(FragmentPacket(chunk, first, last)))
         == Some(Fragment(chunk, first, last, false))
  {
    var raw := Relabel(FragmentPacket(chunk, first, last));
    assert raw[3..PacketLength(raw)] == chunk;
  }

  /** One fragment reaching a reassembler. */
  lemma FragmentReceived(r: Reassembly, chunk: seq<byte>, first: bool, last: bool)
    requires |chunk| <= HID_MAX_PAYLOAD_SIZE
    ensures PushedPacket(r, Relabel(FragmentPacket(chunk, first, last)))
         == if last then Reassembly([], Finished(r.completed, Held(r, first) + chunk))
            else Reassembly(Held(r, first) + chunk, r.completed)
  {
    FragmentParses(chunk, first, last);
  }

  lemma ReceivedCons(r: Reassembly, p: Packet, ps: seq<Packet>)
    ensures Received(r, [p] + ps) == Received(PushedPacket(r, Relabel(p)), ps)
  {
    assert ([p] + ps)[1..] == ps;
  }

  /** Bytes a reassembler in state `r` already holds of the command `rest` continues. */
  function Held(r: Reassembly, first: bool): seq<byte> {
    if first then [] else r.current
  }

  function Finished(completed: seq<seq<byte>>, cmd: seq<byte>): seq<seq<byte>> {
    if cmd == [] then completed else completed + [cmd]
  }

  lemma {:induction false} FragmentsReassemble(r: Reassembly, rest: seq<byte>, first: bool)
    ensures Received(r, FragmentsFrom(rest, first))
         == Reassembly([], Finished(r.completed, Held(r, first) + rest))
    decreases |rest|
  {
    if |rest| <= HID_MAX_PAYLOAD_SIZE {
      var p := FragmentPacket(rest, first, true);
      FragmentReceived(r, rest, first, true);
      ReceivedCons(r, p, []);
      assert FragmentsFrom(rest, first) == [p] + [];
    } else {
      var head, tail := rest[..HID_MAX_PAYLOAD_SIZE], rest[HID_MAX_PAYLOAD_SIZE..];
      FragmentReceived(r, head, first, false);
      ReceivedCons(r, FragmentPacket(head, first, false), FragmentsFrom(tail, false));
      FragmentsReassemble(Reassembly(Held(r, first) + head, r.completed), tail, false);
      assert Held(r, first) + head + tail == Held(r, first) + rest;
    }
  }

  /** Only part of a command arrived: its bytes so far are held and nothing completes. */
  lemma {:induction false} PartialReassembles(r: Reassembly, rest: seq<byte>, first: bool, k: nat)
    requires 0 < k < |FragmentsFrom(rest, first)|
    ensures HID_MAX_PAYLOAD_SIZE * k < |rest|
    ensures Received(r, FragmentsFrom(rest, first)[..k])
         == Reassembly(Held(r, first) + rest[..HID_MAX_PAYLOAD_SIZE * k], r.completed)
    decreases |rest|
  {
    var head, tail := rest[..HID_MAX_PAYLOAD_SIZE], rest[HID_MAX_PAYLOAD_SIZE..];
    var next := Reassembly(Held(r, first) + head, r.completed);
    var later := FragmentsFrom(tail, false)[..k - 1];
    FragmentReceived(r, head, first, false);
    ReceivedCons(r, FragmentPacket(head, first, false), later);
    assert FragmentsFrom(rest, first)[..k] == [FragmentPacket(head, first, false)] + later;
    if k > 1 {
      PartialReassembles(next, tail, false, k - 1);
      assert Held(r, first) + head + tail[..HID_MAX_PAYLOAD_SIZE * (k - 1)]
          == Held(r, first) + rest[..HID_MAX_PAYLOAD_SIZE * k];
    }
  }

  function NonEmpty(cmds: seq<seq<byte>>): seq<seq<byte>> {
    if cmds == [] then [] else (if cmds[0] == [] then [] else [cmds[0]]) + NonEmpty(cmds[1..])
  }

  function AllFragments(cmds: seq<seq<byte>>): seq<Packet> {
    if cmds == [] then [] else Fragments(cmds[0]) + AllFragments(cmds[1..])
  }

  /** Fragmenting any list of commands and reassembling gives back the non-empty ones. */
  lemma {:induction false} FragmentsRoundTrip(r: Reassembly, cmds: seq<seq<byte>>)
    ensures Received(r, AllFragments(cmds)).completed == r.completed + NonEmpty(cmds)
    ensures cmds != [] ==> Received(r, AllFragments(cmds)).current == []
    decreases |cmds|
  {
    if cmds != [] {
      var next := Reassembly([], Finished(r.completed, cmds[0]));
      ReceivedAppend(r, Fragments(cmds[0]), AllFragments(cmds[1..]));
      FragmentsReassemble(r, cmds[0], true);
      assert [] + cmds[0] == cmds[0];
      FragmentsRoundTrip(next, cmds[1..]);
    }
  }

  /** The size and padding rules of every packet of a command. */
  lemma {:induction false} FragmentShape(rest: seq<byte>, first: bool, i: nat)
    requires i < |FragmentsFrom(rest, first)|
    ensures var p := FragmentsFrom(rest, first)[i];
      && |p| == 64 && p[0] == 5 && p[2] <= 61
      && p[1] as int == (if first && i == 0 then 4 else 0) + (if i == |FragmentsFrom(rest, first)| - 1 then 1 else 0)
      && (forall k :: 3 + p[2] as int <= k < 64 ==> p[k] == 0)
    decreases |rest|
  {
    if i > 0 {
      FragmentShape(rest[HID_MAX_PAYLOAD_SIZE..], false, i - 1);
    }
  }
}
