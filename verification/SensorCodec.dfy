/**
 The sensor test reply: nine 80-bit panel records sent side by side, one bit of every
 panel in each 16-bit word.
 */
module SensorCodec {
  import opened Bytes

  type bit = x: int | 0 <= x <= 1
  type word = x: int | 0 <= x < 65536

  const PANELS := 9
  const RECORD_SIZE := 10
  const RECORD_BITS := 80

  // ─── Bits ─────────────────────────────────────────────────────────────────

  function Two(n: nat): (p: nat)
    ensures p > 0
  {
    if n == 0 then 1 else 2 * Two(n - 1)
  }

  /** Bit `k` of `w`, counted from the least significant one. */
  function Bit(w: nat, k: nat): bit {
    if k == 0 then w % 2 else Bit(w / 2, k - 1)
  }

  /** The number with the given bits, least significant first. */
  function FromBits(bits: seq<bit>): (n: nat)
    ensures n < Two(|bits|)
    decreases |bits|
  {
    if bits == [] then 0 else bits[0] + 2 * FromBits(bits[1..])
  }

  lemma {:induction false} BitOfBits(bits: seq<bit>, k: nat)
    ensures Bit(FromBits(bits), k) == if k < |bits| then bits[k] else 0
    decreases k
  {
    if bits == [] {
      ZeroBits(k);
    } else if k > 0 {
      BitOfBits(bits[1..], k - 1);
    }
  }

  lemma {:induction false} ZeroBits(k: nat)
    ensures Bit(0, k) == 0
  {
    if k > 0 {
      ZeroBits(k - 1);
    }
  }

  function BitsOf(w: nat, n: nat): (bits: seq<bit>)
    ensures |bits| == n
    ensures forall j :: 0 <= j < n ==> bits[j] == Bit(w, j)
  {
    seq(n, j requires j >= 0 => Bit(w, j))
  }

  lemma {:induction false} BitsDetermine(w: nat, n: nat)
    requires w < Two(n)
    ensures FromBits(BitsOf(w, n)) == w
  {
    if n > 0 {
      BitsDetermine(w / 2, n - 1);
      assert BitsOf(w, n)[1..] == BitsOf(w / 2, n - 1);
    }
  }

  function Shifted(b: bit, j: nat): nat {
    if b == 0 then 0 else Two(j)
  }

  lemma {:induction false} BitsSnoc(bits: seq<bit>, b: bit)
    ensures FromBits(bits + [b]) == FromBits(bits) + Shifted(b, |bits|)
    decreases |bits|
  {
    if bits != [] {
      BitsSnoc(bits[1..], b);
      assert (bits + [b])[0] == bits[0] && (bits + [b])[1..] == bits[1..] + [b];
    } else {
      assert bits + [b] == [b];
      assert [b][1..] == [];
    }
  }

  // ─── Untangling the panels ────────────────────────────────────────────────

  /** Bit `b` of a panel's record; a word that is missing reads as zero. */
  function BitAt(data: seq<word>, panel: nat, b: nat): bit {
    if b < |data| then Bit(data[b], panel) else 0
  }

  function ByteBits(data: seq<word>, panel: nat, i: nat, n: nat): (bits: seq<bit>)
    ensures |bits| == n
  {
    seq<bit>(n, j requires j >= 0 => BitAt(data, panel, 8 * i + j))
  }

  function RecordByte(data: seq<word>, panel: nat, i: nat): byte {
    assert Two(8) == 256;
    FromBits(ByteBits(data, panel, i, 8))
  }

  function RecordOf(data: seq<word>, panel: nat): (r: seq<byte>)
    ensures |r| == RECORD_SIZE
  {
    seq(RECORD_SIZE, i requires i >= 0 => RecordByte(data, panel, i))
  }

  /** The firmware's side: word `b` holds bit `b` of every panel's record. */
  function WordAt(records: seq<seq<byte>>, b: nat): word
    requires |records| == PANELS && b < RECORD_BITS
    requires forall p :: 0 <= p < PANELS ==> |records[p]| == RECORD_SIZE
  {
    var bits: seq<bit> := seq(PANELS, p requires 0 <= p < PANELS => Bit(records[p][b / 8], b % 8));
    assert Two(9) == 512;
    FromBits(bits)
  }

  function Transposed(records: seq<seq<byte>>): (data: seq<word>)
    requires |records| == PANELS
    requires forall p :: 0 <= p < PANELS ==> |records[p]| == RECORD_SIZE
    ensures |data| == RECORD_BITS
  {
    seq(RECORD_BITS, b requires 0 <= b < RECORD_BITS => WordAt(records, b))
  }

  /** Untangling gives back every panel's record. */
  lemma RecordRecovered(records: seq<seq<byte>>, panel: nat)
    requires |records| == PANELS && panel < PANELS
    requires forall p :: 0 <= p < PANELS ==> |records[p]| == RECORD_SIZE
    ensures RecordOf(Transposed(records), panel) == records[panel]
  {
    var data := Transposed(records);
    forall i | 0 <= i < RECORD_SIZE
      ensures RecordByte(data, panel, i) == records[panel][i]
    {
      forall j | 0 <= j < 8
        ensures BitAt(data, panel, 8 * i + j) == Bit(records[panel][i], j)
      {
        var b := 8 * i + j;
        var bits: seq<bit> := seq(PANELS, p requires 0 <= p < PANELS => Bit(records[p][b / 8], b % 8));
        BitOfBits(bits, panel);
      }
      assert ByteBits(data, panel, i, 8) == BitsOf(records[panel][i], 8);
      assert Two(8) == 256;
      BitsDetermine(records[panel][i], 8);
    }
  }

  // ─── One panel's record ───────────────────────────────────────────────────

  /** What is reported of one panel. */
  datatype Reading = Reading(
    have: bool,
    level: seq<int>,
    bad: seq<bool>,
    dip: nat,
    jumper: seq<bool>)

  const NO_READING := Reading(false, [0, 0, 0, 0], FOUR_FALSE, 0, FOUR_FALSE)
  const FOUR_FALSE := [false, false, false, false]

  function Signed16(lo: byte, hi: byte): int {
    var v := lo + 256 * hi;
    if v >= 32768 then v - 65536 else v
  }

  predicate Signed(r: seq<byte>)
    requires |r| == RECORD_SIZE
  {
    Bit(r[0], 0) == 0 && Bit(r[0], 1) == 1 && Bit(r[0], 2) == 0
  }

  function Decoded(r: seq<byte>, firmware: nat): Reading
    requires |r| == RECORD_SIZE
  {
    if !Signed(r) then NO_READING
    else Reading(
      true,
      [Signed16(r[1], r[2]), Signed16(r[3], r[4]), Signed16(r[5], r[6]), Signed16(r[7], r[8])],
      if firmware >= 5 then FOUR_FALSE
      else [Bit(r[0], 3) != 0, Bit(r[0], 4) != 0, Bit(r[0], 5) != 0, Bit(r[0], 6) != 0],
      r[9] % 16,
      [Bit(r[9], 4) != 0, Bit(r[9], 5) != 0, Bit(r[9], 6) != 0, Bit(r[9], 7) != 0])
  }

  /** What a panel sends: a three-bit signature, the readings and a spare bit. */
  datatype Detail = Detail(
    signature: seq<bit>,
    bad: seq<bool>,
    spare: bit,
    level: seq<int>,
    dip: nat,
    jumper: seq<bool>)

  predicate WellFormed(d: Detail) {
    && |d.signature| == 3 && |d.bad| == 4 && |d.level| == 4 && |d.jumper| == 4
    && d.dip < 16
    && (forall s :: 0 <= s < 4 ==> -32768 <= d.level[s] < 32768)
  }

  function OfBool(b: bool): bit {
    if b then 1 else 0
  }

  function Low(level: int): byte {
    level % 256
  }

  function High(level: int): byte
    requires -32768 <= level < 32768
  {
    (level / 256) % 256
  }

  function FlagBits(d: Detail): (bits: seq<bit>)
    requires WellFormed(d)
    ensures |bits| == 8
  {
    d.signature + [OfBool(d.bad[0]), OfBool(d.bad[1]), OfBool(d.bad[2]), OfBool(d.bad[3])] + [d.spare]
  }

  function JumperBits(d: Detail): (bits: seq<bit>)
    requires WellFormed(d)
    ensures |bits| == 4
  {
    [OfBool(d.jumper[0]), OfBool(d.jumper[1]), OfBool(d.jumper[2]), OfBool(d.jumper[3])]
  }

  function Flags(d: Detail): byte
    requires WellFormed(d)
  {
    assert Two(8) == 256;
    FromBits(FlagBits(d))
  }

  function DipFlags(d: Detail): byte
    requires WellFormed(d)
  {
    assert Two(4) == 16;
    d.dip + 16 * FromBits(JumperBits(d))
  }

  function Encoded(d: Detail): (r: seq<byte>)
    requires WellFormed(d)
    ensures |r| == RECORD_SIZE
  {
    [Flags(d),
     Low(d.level[0]), High(d.level[0]), Low(d.level[1]), High(d.level[1]),
     Low(d.level[2]), High(d.level[2]), Low(d.level[3]), High(d.level[3]),
     DipFlags(d)]
  }

  lemma LevelRecovered(level: int)
    requires -32768 <= level < 32768
    ensures Signed16(Low(level), High(level)) == level
  {
  }

  lemma FlagsRecovered(d: Detail)
    requires WellFormed(d)
    ensures Bit(Flags(d), 0) == d.signature[0]
    ensures Bit(Flags(d), 1) == d.signature[1]
    ensures Bit(Flags(d), 2) == d.signature[2]
    ensures [Bit(Flags(d), 3) != 0, Bit(Flags(d), 4) != 0, Bit(Flags(d), 5) != 0, Bit(Flags(d), 6) != 0] == d.bad
  {
    BitOfBits(FlagBits(d), 0);
    BitOfBits(FlagBits(d), 1);
    BitOfBits(FlagBits(d), 2);
    BitOfBits(FlagBits(d), 3);
    BitOfBits(FlagBits(d), 4);
    BitOfBits(FlagBits(d), 5);
    BitOfBits(FlagBits(d), 6);
  }

  lemma DipRecovered(d: Detail)
    requires WellFormed(d)
    ensures DipFlags(d) % 16 == d.dip
    ensures [Bit(DipFlags(d), 4) != 0, Bit(DipFlags(d), 5) != 0, Bit(DipFlags(d), 6) != 0, Bit(DipFlags(d), 7) != 0]
      == d.jumper
  {
    var upper := FromBits(JumperBits(d));
    forall k | 0 <= k < 4
      ensures Bit(DipFlags(d), 4 + k) == JumperBits(d)[k]
    {
      var w := DipFlags(d);
      assert Bit(w, 4 + k) == Bit(w / 2, 3 + k) == Bit(w / 2 / 2, 2 + k)
          == Bit(w / 2 / 2 / 2, 1 + k) == Bit(w / 2 / 2 / 2 / 2, k);
      assert w / 2 / 2 / 2 / 2 == upper;
      BitOfBits(JumperBits(d), k);
    }
    assert Bit(DipFlags(d), 4) == JumperBits(d)[0];
    assert Bit(DipFlags(d), 5) == JumperBits(d)[1];
    assert Bit(DipFlags(d), 6) == JumperBits(d)[2];
    assert Bit(DipFlags(d), 7) == JumperBits(d)[3];
  }

  /** What a record with the right signature is reported as. */
  function Reported(d: Detail, firmware: nat): Reading {
    Reading(true, d.level, if firmware >= 5 then FOUR_FALSE else d.bad, d.dip, d.jumper)
  }

  lemma {:induction false} LevelsRecovered(d: Detail)
    requires WellFormed(d)
    ensures var r := Encoded(d);
      [Signed16(r[1], r[2]), Signed16(r[3], r[4]), Signed16(r[5], r[6]), Signed16(r[7], r[8])] == d.level
  {
    LevelRecovered(d.level[0]);
    LevelRecovered(d.level[1]);
    LevelRecovered(d.level[2]);
    LevelRecovered(d.level[3]);
  }

  lemma SignatureRecovered(d: Detail)
    requires WellFormed(d)
    ensures Signed(Encoded(d)) <==> d.signature == [0, 1, 0]
  {
    FlagsRecovered(d);
    assert Encoded(d)[0] == Flags(d);
  }

  // ─── The whole reply ──────────────────────────────────────────────────────

  function PanelReading(data: seq<word>, panel: nat, firmware: nat): Reading {
    Decoded(RecordOf(data, panel), firmware)
  }

  function Parsed(data: seq<word>, firmware: nat): (out: seq<Reading>)
    ensures |out| == PANELS
  {
    seq(PANELS, p requires p >= 0 => PanelReading(data, p, firmware))
  }

  function Sent(details: seq<Detail>): (data: seq<word>)
    requires |details| == PANELS && (forall p :: 0 <= p < PANELS ==> WellFormed(details[p]))
    ensures |data| == RECORD_BITS
  {
    Transposed(seq(PANELS, p requires 0 <= p < PANELS => Encoded(details[p])))
  }

  /** Every panel's details arrive, or nothing when its signature is not 0, 1, 0. */
  lemma {:induction false} SensorsDecode(details: seq<Detail>, firmware: nat, panel: nat)
    requires |details| == PANELS && (forall p :: 0 <= p < PANELS ==> WellFormed(details[p]))
    requires panel < PANELS
    ensures Parsed(Sent(details), firmware)[panel] ==
      if details[panel].signature == [0, 1, 0] then Reported(details[panel], firmware) else NO_READING
  {
    var records := seq(PANELS, p requires 0 <= p < PANELS => Encoded(details[p]));
    RecordRecovered(records, panel);
    var d := details[panel];
    SignatureRecovered(d);
    if d.signature == [0, 1, 0] {
      var r := Encoded(d);
      assert r[0] == Flags(d) && r[9] == DipFlags(d);
      FlagsRecovered(d);
      DipRecovered(d);
      LevelsRecovered(d);
    }
  }

  /** Exactly 80 words: cut, or filled up with zeros. */
  function Whole(data: seq<word>): (w: seq<word>)
    ensures |w| == RECORD_BITS
  {
    seq(RECORD_BITS, b requires b >= 0 => if b < |data| then data[b] else 0)
  }

  lemma SameBit(data: seq<word>, panel: nat, b: nat)
    requires b < RECORD_BITS
    ensures BitAt(data, panel, b) == BitAt(Whole(data), panel, b)
  {
    ZeroBits(panel);
  }

  lemma SameByte(data: seq<word>, panel: nat, i: nat)
    requires i < RECORD_SIZE
    ensures RecordByte(data, panel, i) == RecordByte(Whole(data), panel, i)
  {
    var bits, whole := ByteBits(data, panel, i, 8), ByteBits(Whole(data), panel, i, 8);
    forall j | 0 <= j < 8
      ensures bits[j] == whole[j]
    {
      SameBit(data, panel, 8 * i + j);
    }
    assert bits == whole;
  }

  /** A reply of any length reads like its first 80 words, the missing ones zero. */
  lemma MissingWordsAreZero(data: seq<word>, firmware: nat)
    ensures Parsed(data, firmware) == Parsed(Whole(data), firmware)
  {
    forall p | 0 <= p < PANELS
      ensures Parsed(data, firmware)[p] == Parsed(Whole(data), firmware)[p]
    {
      forall i | 0 <= i < RECORD_SIZE
        ensures RecordOf(data, p)[i] == RecordOf(Whole(data), p)[i]
      {
        SameByte(data, p, i);
      }
      assert RecordOf(data, p) == RecordOf(Whole(data), p);
    }
  }

  /** A panel reports data exactly when its word bits 0 to 2 are 0, 1, 0. */
  lemma ReportsExactlyOnSignature(data: seq<word>, firmware: nat, panel: nat)
    requires panel < PANELS
    ensures Parsed(data, firmware)[panel].have
      <==> BitAt(data, panel, 0) == 0 && BitAt(data, panel, 1) == 1 && BitAt(data, panel, 2) == 0
  {
    var bits := ByteBits(data, panel, 0, 8);
    BitOfBits(bits, 0);
    BitOfBits(bits, 1);
    BitOfBits(bits, 2);
  }

  /** Gathers one byte of a panel's record, bit by bit. */
  method ExtractByte(data: seq<word>, panel: nat, i: nat) returns (result: byte)
    ensures result == RecordByte(data, panel, i)
  {
    var gathered := 0;
    for j := 0 to 8
      invariant gathered == FromBits(ByteBits(data, panel, i, j))
    {
      var bitIndex := i * 8 + j;
      BitsSnoc(ByteBits(data, panel, i, j), BitAt(data, panel, bitIndex));
      assert ByteBits(data, panel, i, j + 1) == ByteBits(data, panel, i, j) + [BitAt(data, panel, bitIndex)];
      if bitIndex < |data| {
        gathered := gathered + Shifted(Bit(data[bitIndex], panel), j);
      }
    }
    assert Two(8) == 256;
    result := gathered;
  }

  method ExtractRecord(data: seq<word>, panel: nat) returns (raw: seq<byte>)
    ensures raw == RecordOf(data, panel)
  {
    var bytes := new byte[RECORD_SIZE](_ => 0);
    for i := 0 to RECORD_SIZE
      invariant forall k :: 0 <= k < i ==> bytes[k] == RecordByte(data, panel, k)
    {
      bytes[i] := ExtractByte(data, panel, i);
    }
    raw := bytes[..];
  }

  /** Leaves the empty reading of a panel whose signature is wrong. */
  method DecodeRecord(raw: seq<byte>, firmware: nat) returns (r: Reading)
    requires |raw| == RECORD_SIZE
    ensures r == Decoded(raw, firmware)
  {
    r := NO_READING;
    if Bit(raw[0], 0) != 0 || Bit(raw[0], 1) != 1 || Bit(raw[0], 2) != 0 {
      return;
    }
    r := r.(have := true, bad := [Bit(raw[0], 3) != 0, Bit(raw[0], 4) != 0, Bit(raw[0], 5) != 0, Bit(raw[0], 6) != 0]);
    for s := 0 to 4
      invariant |r.level| == 4
      invariant r.have && r.bad == [Bit(raw[0], 3) != 0, Bit(raw[0], 4) != 0, Bit(raw[0], 5) != 0, Bit(raw[0], 6) != 0]
      invariant forall k :: 0 <= k < s ==> r.level[k] == Signed16(raw[1 + k * 2], raw[1 + k * 2 + 1])
    {
      var offset := 1 + s * 2;
      r := r.(level := r.level[s := Signed16(raw[offset], raw[offset + 1])]);
    }
    assert r.level
        == [Signed16(raw[1], raw[2]), Signed16(raw[3], raw[4]), Signed16(raw[5], raw[6]), Signed16(raw[7], raw[8])];
    r := r.(dip := raw[9] % 16,
            jumper := [Bit(raw[9], 4) != 0, Bit(raw[9], 5) != 0, Bit(raw[9], 6) != 0, Bit(raw[9], 7) != 0]);
    if firmware >= 5 {
      r := r.(bad := FOUR_FALSE);
    }
  }

  method ReadPanel(data: seq<word>, panel: nat, firmware: nat) returns (reading: Reading)
    ensures reading == PanelReading(data, panel, firmware)
  {
    var raw := ExtractRecord(data, panel);
    reading := DecodeRecord(raw, firmware);
  }

  /** Reads the panels one after the other. */
  method ParseSensorTestData(data: seq<word>, firmware: nat) returns (output: seq<Reading>)
    ensures output == Parsed(data, firmware)
  {
    output := [];
    for panel := 0 to PANELS
      invariant |output| == panel && forall p :: 0 <= p < panel ==> output[p] == PanelReading(data, p, firmware)
    {
      var reading := ReadPanel(data, panel, firmware);
      output := output + [reading];
    }
  }
}
