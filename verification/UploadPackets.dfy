/**
 Addressed writes: cutting a block of data into upload packets, and the memory a
 list of upload commands leaves behind.
 */
module UploadPackets {
  import opened Bytes

  const MAX_DATA_PER_PACKET := 240
  const HEADER_SIZE := 7
  const UPLOAD_COMMAND: byte := 0x6D   // 'm'
  const ADDRESS_LIMIT := 0x1_0000

  /** Packet format: 'm', panel, animation index, final flag, offset (little endian), size, data. */
  function MakePacket(panel: byte, anim: byte, offset: nat, data: seq<byte>): (pkt: seq<byte>)
    requires offset < ADDRESS_LIMIT && |data| <= MAX_DATA_PER_PACKET
    ensures |pkt| == HEADER_SIZE + |data|
  {
    [UPLOAD_COMMAND, panel, anim, 0, (offset % 256) as byte, (offset / 256) as byte, |data| as byte] + data
  }

  /** The packets of a block that starts at address `start`. */
  function BlockPackets(data: seq<byte>, start: nat, panel: byte, anim: byte): seq<seq<byte>>
    requires start + |data| <= ADDRESS_LIMIT
    decreases |data|
  {
    if data == [] then []
    else
      var n := Min(MAX_DATA_PER_PACKET, |data|);
      [MakePacket(panel, anim, start, data[..n])] + BlockPackets(data[n..], start + n, panel, anim)
  }

  method CreateUploadPackets(packets: seq<seq<byte>>, data: seq<byte>, start: nat, panel: byte, anim: byte)
    returns (more: seq<seq<byte>>)
    requires start + |data| <= ADDRESS_LIMIT
    ensures more == packets + BlockPackets(data, start, panel, anim)
  {
    more := packets;
    var offset := 0;
    while offset < |data|
      invariant 0 <= offset <= |data|
      invariant more + BlockPackets(data[offset..], start + offset, panel, anim)
             == packets + BlockPackets(data, start, panel, anim)
    {
      var chunkSize := Min(MAX_DATA_PER_PACKET, |data| - offset);
      var pkt := MakePacket(panel, anim, start + offset, data[offset..offset + chunkSize]);
      ghost var rest := data[offset..];
      assert rest[..chunkSize] == data[offset..offset + chunkSize];
      assert rest[chunkSize..] == data[offset + chunkSize..];
      Assoc(more, [pkt], BlockPackets(rest[chunkSize..], start + offset + chunkSize, panel, anim));
      more := more + [pkt];
      offset := offset + chunkSize;
    }
    assert data[offset..] == [];
  }

  // ─── Memory ───────────────────────────────────────────────────────────────

  /** Where a byte goes: the panel and animation index of its packet, and its address. */
  datatype Key = Key(panel: byte, anim: byte, offset: nat)

  datatype Command = Packet(pkt: seq<byte>) | Delay(ms: nat)

  // How a pad reads a packet, in numbers.

  predicate WellFormed(pkt: seq<byte>) {
    && |pkt| >= 7
    && pkt[0] == 0x6D
    && |pkt| == 7 + pkt[6] as int
  }

  function Address(pkt: seq<byte>): nat
    requires WellFormed(pkt)
  {
    pkt[4] as int + 256 * pkt[5] as int
  }

  /** The size field; 0 for something too short to have one. */
  function Size(pkt: seq<byte>): nat {
    if |pkt| >= 7 then pkt[6] as int else 0
  }

  /** The panel a packet is for; -1 for something too short to have one. */
  function PanelOf(pkt: seq<byte>): int {
    if |pkt| >= 7 then pkt[1] as int else -1
  }

  /** What a packet writes at `key`, if anything. */
  function Written(pkt: seq<byte>, key: Key): Option<byte> {
    if WellFormed(pkt) && key.panel == pkt[1] && key.anim == pkt[2]
       && Address(pkt) <= key.offset < Address(pkt) + Size(pkt)
    then Some(pkt[7 + key.offset - Address(pkt)])
    else None
  }

  /** The byte at `key` after the commands, starting from `before`. */
  function After(cmds: seq<Command>, key: Key, before: Option<byte>): Option<byte> {
    if cmds == [] then before
    else
      var c := cmds[|cmds| - 1];
      if c.Packet? && Written(c.pkt, key).Some? then Written(c.pkt, key)
      else After(cmds[..|cmds| - 1], key, before)
  }

  /** What a packet writes at `offset` of a panel's memory, whatever its animation index. */
  function FlatWritten(pkt: seq<byte>, panel: byte, offset: nat): Option<byte> {
    if |pkt| >= 7 then Written(pkt, Key(panel, pkt[2], offset)) else None
  }

  /** The same memory without the animation index in its keys. */
  function FlatAfter(cmds: seq<Command>, panel: byte, offset: nat, before: Option<byte>): Option<byte> {
    if cmds == [] then before
    else
      var c := cmds[|cmds| - 1];
      if c.Packet? && FlatWritten(c.pkt, panel, offset).Some? then FlatWritten(c.pkt, panel, offset)
      else FlatAfter(cmds[..|cmds| - 1], panel, offset, before)
  }

  predicate FlatCovered(cmds: seq<Command>, panel: byte, offset: nat) {
    exists i :: 0 <= i < |cmds| && cmds[i].Packet? && FlatWritten(cmds[i].pkt, panel, offset).Some?
  }

  lemma {:induction false} FlatAgreeing(cmds: seq<Command>, panel: byte, offset: nat,
                                        intended: Option<byte>, before: Option<byte>)
    requires forall i :: 0 <= i < |cmds| && cmds[i].Packet? && FlatWritten(cmds[i].pkt, panel, offset).Some? ==>
      FlatWritten(cmds[i].pkt, panel, offset) == intended
    ensures FlatAfter(cmds, panel, offset, before) == if FlatCovered(cmds, panel, offset) then intended else before
  {
    if cmds != [] {
      FlatAgreeing(cmds[..|cmds| - 1], panel, offset, intended, before);
    }
  }

  /** Some packet of the list writes `key`. */
  predicate Covered(cmds: seq<Command>, key: Key) {
    exists i :: 0 <= i < |cmds| && cmds[i].Packet? && Written(cmds[i].pkt, key).Some?
  }

  /** All packets of the list that write `key` write the same, `intended`, byte. */
  predicate Agree(cmds: seq<Command>, key: Key, intended: Option<byte>) {
    forall i :: 0 <= i < |cmds| && cmds[i].Packet? && Written(cmds[i].pkt, key).Some? ==>
      Written(cmds[i].pkt, key) == intended
  }

  /** Then order, repetition and interleaving do not matter. */
  lemma {:induction false} AgreeingWrites(cmds: seq<Command>, key: Key, intended: Option<byte>, before: Option<byte>)
    requires Agree(cmds, key, intended)
    ensures After(cmds, key, before) == if Covered(cmds, key) then intended else before
  {
    if cmds != [] {
      AgreeingWrites(cmds[..|cmds| - 1], key, intended, before);
    }
  }

  // ─── What the packets of a block write ────────────────────────────────────

  /** The byte a block puts at `key`, if any. */
  function BlockByte(data: seq<byte>, start: nat, panel: byte, anim: byte, key: Key): Option<byte> {
    if key.panel == panel && key.anim == anim && start <= key.offset < start + |data|
    then Some(data[key.offset - start])
    else None
  }

  lemma PacketWrites(panel: byte, anim: byte, offset: nat, data: seq<byte>, key: Key)
    requires offset < ADDRESS_LIMIT && |data| <= MAX_DATA_PER_PACKET
    ensures WellFormed(MakePacket(panel, anim, offset, data))
    ensures Written(MakePacket(panel, anim, offset, data), key) == BlockByte(data, offset, panel, anim, key)
  {
    var pkt := MakePacket(panel, anim, offset, data);
    assert pkt[0] == UPLOAD_COMMAND && pkt[1] == panel && pkt[2] == anim && pkt[6] == |data|;
    assert pkt[4] == offset % 256 && pkt[5] == offset / 256;
    assert Address(pkt) == offset;
    assert pkt[HEADER_SIZE..] == data;
  }

  predicate SomeWrites(pkts: seq<seq<byte>>, key: Key) {
    exists i :: 0 <= i < |pkts| && Written(pkts[i], key).Some?
  }

  predicate AllWrite(pkts: seq<seq<byte>>, key: Key, intended: Option<byte>) {
    forall i :: 0 <= i < |pkts| && Written(pkts[i], key).Some? ==> Written(pkts[i], key) == intended
  }

  lemma WritesCons(first: seq<byte>, rest: seq<seq<byte>>, key: Key, intended: Option<byte>)
    ensures SomeWrites([first] + rest, key) <==> Written(first, key).Some? || SomeWrites(rest, key)
    ensures AllWrite([first] + rest, key, intended)
      <==> (Written(first, key).Some? ==> Written(first, key) == intended) && AllWrite(rest, key, intended)
  {
    var all := [first] + rest;
    assert all[0] == first && forall i :: 0 <= i < |rest| ==> all[i + 1] == rest[i];
  }

  /** The packets of a block write exactly the block, byte for byte. */
  lemma {:induction false} BlockWrites(data: seq<byte>, start: nat, panel: byte, anim: byte, key: Key)
    requires start + |data| <= ADDRESS_LIMIT
    ensures AllWrite(BlockPackets(data, start, panel, anim), key, BlockByte(data, start, panel, anim, key))
    ensures SomeWrites(BlockPackets(data, start, panel, anim), key)
      <==> BlockByte(data, start, panel, anim, key).Some?
    decreases |data|
  {
    if data != [] {
      var n := Min(MAX_DATA_PER_PACKET, |data|);
      var first := MakePacket(panel, anim, start, data[..n]);
      var rest := BlockPackets(data[n..], start + n, panel, anim);
      var all := BlockPackets(data, start, panel, anim);
      PacketWrites(panel, anim, start, data[..n], key);
      BlockWrites(data[n..], start + n, panel, anim, key);
      assert all == [first] + rest;
      WritesCons(first, rest, key, BlockByte(data, start, panel, anim, key));
    }
  }

  /** Every packet of a block carries the block's panel and at least one byte, unmarked. */
  lemma {:induction false} BlockPacketShape(data: seq<byte>, start: nat, panel: byte, anim: byte, i: nat)
    requires start + |data| <= ADDRESS_LIMIT
    requires i < |BlockPackets(data, start, panel, anim)|
    ensures var pkt := BlockPackets(data, start, panel, anim)[i];
      WellFormed(pkt) && pkt[1] == panel && pkt[2] == anim && pkt[3] == 0 && 0 < Size(pkt) <= 240
    decreases |data|
  {
    var n := Min(MAX_DATA_PER_PACKET, |data|);
    if i > 0 {
      BlockPacketShape(data[n..], start + n, panel, anim, i - 1);
    }
  }

  /** A block that fits one packet is one packet. */
  lemma OnePacket(data: seq<byte>, start: nat, panel: byte, anim: byte)
    requires 0 < |data| <= MAX_DATA_PER_PACKET && start + |data| <= ADDRESS_LIMIT
    ensures BlockPackets(data, start, panel, anim) == [MakePacket(panel, anim, start, data)]
  {
    assert data[..|data|] == data && data[|data|..] == [];
  }

  /** Addresses go up from packet to packet. */
  predicate Ascending(pkts: seq<seq<byte>>) {
    && (forall i :: 0 <= i < |pkts| ==> WellFormed(pkts[i]))
    && (forall i, j :: 0 <= i < j < |pkts| ==> Address(pkts[i]) < Address(pkts[j]))
  }

  predicate Within(pkts: seq<seq<byte>>, lo: nat, hi: nat) {
    forall i :: 0 <= i < |pkts| ==> WellFormed(pkts[i]) && lo <= Address(pkts[i]) < hi
  }

  /** The packets of a block ascend within the block. */
  lemma {:induction false} BlockAscends(data: seq<byte>, start: nat, panel: byte, anim: byte)
    requires start + |data| <= ADDRESS_LIMIT
    ensures Ascending(BlockPackets(data, start, panel, anim))
    ensures Within(BlockPackets(data, start, panel, anim), start, start + |data|)
    decreases |data|
  {
    if data != [] {
      var n := Min(MAX_DATA_PER_PACKET, |data|);
      var first := MakePacket(panel, anim, start, data[..n]);
      BlockAscends(data[n..], start + n, panel, anim);
      PacketWrites(panel, anim, start, data[..n], Key(panel, anim, start));
      assert Address(first) == start;
    }
  }

  lemma AscendingAppend(a: seq<seq<byte>>, b: seq<seq<byte>>, lo: nat, mid: nat, from: nat, hi: nat)
    requires Ascending(a) && Ascending(b) && Within(a, lo, mid) && Within(b, from, hi) && mid <= from
    ensures Ascending(a + b)
  {
  }
}
