/**
 Capture files: the writer that appends records, the parser that reads them back, and
 a device that replays them, its reads gated by the writes made to it.
 */
module Capture {
  import opened Bytes

  const MAGIC: seq<byte> := [0x53, 0x4D, 0x58, 0x48, 0x49, 0x44, 0x01]   // "SMXHID" and the format version
  const HEADER_SIZE := 11
  const MAX_SIZE := 65535

  type stamp = x: int | 0 <= x < 0x1_0000_0000_0000_0000

  /** `kind` is 'R' for a read and 'W' for a write. */
  datatype Record = Record(kind: byte, timestamp: stamp, data: seq<byte>)

  const READ_RECORD: byte := 0x52
  const WRITE_RECORD: byte := 0x57

  // ─── Little-endian numbers ────────────────────────────────────────────────

  function Range(size: nat): (p: nat)
    ensures p > 0
  {
    if size == 0 then 1 else 256 * Range(size - 1)
  }

  /** The low `size` bytes of `n`, least significant first. */
  function LittleEndian(n: nat, size: nat): (bytes: seq<byte>)
    ensures |bytes| == size
  {
    if size == 0 then [] else [n % 256] + LittleEndian(n / 256, size - 1)
  }

  function FromLittleEndian(bytes: seq<byte>): (n: nat)
    ensures n < Range(|bytes|)
    decreases |bytes|
  {
    if bytes == [] then 0 else (bytes[0] as int) + 256 * FromLittleEndian(bytes[1..])
  }

  lemma {:induction false} NumberReadsBack(n: nat, size: nat)
    requires n < Range(size)
    ensures FromLittleEndian(LittleEndian(n, size)) == n
  {
    if size > 0 {
      NumberReadsBack(n / 256, size - 1);
      assert LittleEndian(n, size)[1..] == LittleEndian(n / 256, size - 1);
    }
  }

  lemma Ranges()
    ensures Range(2) == MAX_SIZE + 1
    ensures Range(8) == 0x1_0000_0000_0000_0000
  {
  }

  // ─── Writing ──────────────────────────────────────────────────────────────

  /** The size field holds the length modulo 65536; all of the data follows. */
  function Header(r: Record): (h: seq<byte>)
    ensures |h| == HEADER_SIZE
  {
    [r.kind] + LittleEndian(r.timestamp, 8) + LittleEndian(|r.data|, 2)
  }

  function Written(r: Record): seq<byte> {
    Header(r) + r.data
  }

  function Body(records: seq<Record>): seq<byte>
    decreases |records|
  {
    if records == [] then [] else Written(records[0]) + Body(records[1..])
  }

  function FileOf(records: seq<Record>): seq<byte> {
    MAGIC + Body(records)
  }

  lemma {:induction false} BodySnoc(records: seq<Record>, r: Record)
    ensures Body(records + [r]) == Body(records) + Written(r)
    decreases |records|
  {
    if records == [] {
      assert records + [r] == [r];
      assert Written(r) + [] == Written(r);
    } else {
      BodySnoc(records[1..], r);
      assert (records + [r])[1..] == records[1..] + [r];
      Assoc(Written(records[0]), Body(records[1..]), Written(r));
    }
  }

  /** A byte of a number is its digit to the base 256. */
  lemma {:induction false} DigitAt(n: nat, size: nat, k: nat)
    requires k < size
    ensures LittleEndian(n, size)[k] == n / Range(k) % 256
  {
    if k > 0 {
      DigitAt(n / 256, size - 1, k - 1);
      DividedTwice(n, 256, Range(k - 1));
    }
  }

  /** The file in numbers: "SMXHID" and 1; then per record its kind, eight bytes of time, two of size, the data. */
  lemma FileInNumbers(records: seq<Record>, r: Record, k: nat)
    requires k < 8
    ensures [0x53, 0x4D, 0x58, 0x48, 0x49, 0x44, 0x01] <= FileOf(records)
    ensures |Written(r)| == 11 + |r.data| && Written(r)[0] == r.kind && Written(r)[11..] == r.data
    ensures Written(r)[1 + k] == r.timestamp / Range(k) % 256
    ensures Written(r)[9] as int + 256 * Written(r)[10] as int == |r.data| % 65536
  {
    DigitAt(r.timestamp, 8, k);
    DigitAt(|r.data|, 2, 0);
    DigitAt(|r.data|, 2, 1);
    assert Written(r)[1 + k] == LittleEndian(r.timestamp, 8)[k];
    assert Written(r)[9] == LittleEndian(|r.data|, 2)[0] && Written(r)[10] == LittleEndian(|r.data|, 2)[1];
    assert Range(1) == 256;
  }

  class RecordingSink {
    var file: seq<byte>
    ghost var records: seq<Record>

    ghost predicate Valid()
      reads this
    {
      file == FileOf(records)
    }

    constructor Create()
      ensures Valid() && records == []
    {
      file := MAGIC;
      records := [];
    }

    /** Appends one record, field by field. */
    method WriteRecord(kind: byte, timestamp: stamp, data: seq<byte>)
      requires Valid()
      modifies this
      ensures Valid() && records == old(records) + [Record(kind, timestamp, data)]
    {
      BodySnoc(records, Record(kind, timestamp, data));
      file := file + [kind];
      file := file + LittleEndian(timestamp, 8);
      file := file + LittleEndian(|data|, 2);
      file := file + data;
      records := records + [Record(kind, timestamp, data)];
    }
  }

  // ─── Loading ──────────────────────────────────────────────────────────────

  function SizeField(bytes: seq<byte>): nat
    requires |bytes| >= HEADER_SIZE
  {
    FromLittleEndian(bytes[9..11])
  }

  /** The bytes start with a whole record. */
  predicate HasRecord(bytes: seq<byte>) {
    |bytes| >= HEADER_SIZE && |bytes| >= HEADER_SIZE + SizeField(bytes)
  }

  function FirstRecord(bytes: seq<byte>): Record
    requires HasRecord(bytes)
  {
    Ranges();
    Record(bytes[0], FromLittleEndian(bytes[1..9]), bytes[HEADER_SIZE..HEADER_SIZE + SizeField(bytes)])
  }

  function Parsed(bytes: seq<byte>): seq<Record>
    decreases |bytes|
  {
    if HasRecord(bytes) then [FirstRecord(bytes)] + Parsed(bytes[HEADER_SIZE + SizeField(bytes)..]) else []
  }

  function Loaded(file: seq<byte>): seq<Record> {
    if MAGIC <= file then Parsed(file[|MAGIC|..]) else []
  }

  /** Reads the record at `at`; None when it is cut off. */
  method ReadRecord(file: seq<byte>, at: nat) returns (record: Option<Record>)
    requires at <= |file|
    ensures record == if HasRecord(file[at..]) then Some(FirstRecord(file[at..])) else None
  {
    Ranges();
    ghost var rest := file[at..];
    if at + HEADER_SIZE > |file| {
      return None;
    }
    assert file[at + 9..at + 11] == rest[9..11] && file[at + 1..at + 9] == rest[1..9];
    var size := FromLittleEndian(file[at + 9..at + 11]);
    if at + HEADER_SIZE + size > |file| {
      return None;
    }
    var timestamp := FromLittleEndian(file[at + 1..at + 9]);
    assert file[at + HEADER_SIZE..at + HEADER_SIZE + size] == rest[HEADER_SIZE..HEADER_SIZE + size];
    return Some(Record(file[at], timestamp, file[at + HEADER_SIZE..at + HEADER_SIZE + size]));
  }

  /** Reads record after record until one is cut off. */
  method LoadHidCapture(file: seq<byte>) returns (records: seq<Record>)
    ensures records == Loaded(file)
  {
    records := [];
    if |file| < 7 || file[..7] != MAGIC {
      return;
    }
    var at := 7;
    while true
      invariant 7 <= at <= |file|
      invariant records + Parsed(file[at..]) == Parsed(file[7..])
      decreases |file| - at
    {
      var record := ReadRecord(file, at);
      if record.None? {
        break;
      }
      ghost var rest := file[at..];
      assert |record.value.data| == SizeField(rest);
      records := records + [record.value];
      at := at + HEADER_SIZE + |record.value.data|;
      assert file[at..] == rest[HEADER_SIZE + SizeField(rest)..];
    }
  }

  // ─── Round trip, also for files cut off anywhere ──────────────────────────

  /** How many records lie wholly within the first `size` bytes of the body. */
  function Contained(records: seq<Record>, size: nat): (n: nat)
    ensures n <= |records|
    decreases |records|
  {
    if records == [] || |Written(records[0])| > size then 0
    else 1 + Contained(records[1..], size - |Written(records[0])|)
  }

  predicate Fitting(records: seq<Record>) {
    forall i :: 0 <= i < |records| ==> |records[i].data| <= MAX_SIZE
  }

  lemma HeaderReads(r: Record, bytes: seq<byte>)
    requires |r.data| <= MAX_SIZE && Header(r) <= bytes
    ensures SizeField(bytes) == |r.data|
    ensures bytes[0] == r.kind && FromLittleEndian(bytes[1..9]) == r.timestamp
  {
    Ranges();
    NumberReadsBack(r.timestamp, 8);
    NumberReadsBack(|r.data|, 2);
    assert bytes[9..11] == Header(r)[9..11] == LittleEndian(|r.data|, 2);
    assert bytes[1..9] == Header(r)[1..9] == LittleEndian(r.timestamp, 8);
  }

  lemma FirstReads(r: Record, rest: seq<byte>)
    requires |r.data| <= MAX_SIZE
    ensures HasRecord(Written(r) + rest) && FirstRecord(Written(r) + rest) == r
    ensures HEADER_SIZE + SizeField(Written(r) + rest) == |Written(r)|
  {
    var bytes := Written(r) + rest;
    assert bytes[..HEADER_SIZE] == Header(r);
    HeaderReads(r, bytes);
    assert bytes[HEADER_SIZE..HEADER_SIZE + |r.data|] == r.data;
  }

  lemma CutOffReads(r: Record, bytes: seq<byte>)
    requires |r.data| <= MAX_SIZE && bytes < Written(r)
    ensures !HasRecord(bytes)
  {
    if |bytes| >= HEADER_SIZE {
      assert bytes[..HEADER_SIZE] == Written(r)[..HEADER_SIZE] == Header(r);
      HeaderReads(r, bytes);
    }
  }

  /** One record in front of bytes that parse. */
  lemma RecordParses(r: Record, rest: seq<byte>)
    requires |r.data| <= MAX_SIZE
    ensures Parsed(Written(r) + rest) == [r] + Parsed(rest)
  {
    FirstReads(r, rest);
    assert (Written(r) + rest)[|Written(r)|..] == rest;
  }

  /** Bytes that reach beyond the first record hold it whole, then a prefix of the others. */
  lemma PrefixSplits(w: seq<byte>, later: seq<byte>, bytes: seq<byte>)
    requires bytes <= w + later
    ensures |bytes| < |w| ==> bytes < w
    ensures |bytes| >= |w| ==> bytes == w + bytes[|w|..] && bytes[|w|..] <= later
  {
    if |bytes| >= |w| {
      assert bytes[..|w|] == w;
    }
  }

  /** A whole first record, then bytes that parse into the first of the other records. */
  lemma WholeFirst(records: seq<Record>, rest: seq<byte>)
    requires records != [] && |records[0].data| <= MAX_SIZE
    requires Parsed(rest) == records[1..][..Contained(records[1..], |rest|)]
    ensures Parsed(Written(records[0]) + rest) == records[..Contained(records, |Written(records[0]) + rest|)]
  {
    RecordParses(records[0], rest);
    FirstAndPrefix(records, Contained(records[1..], |rest|));
  }

  lemma {:induction false} BodyPrefixParses(records: seq<Record>, bytes: seq<byte>)
    requires Fitting(records) && bytes <= Body(records)
    ensures Parsed(bytes) == records[..Contained(records, |bytes|)]
    decreases |records|
  {
    if records != [] {
      var w, later := Written(records[0]), records[1..];
      PrefixSplits(w, Body(later), bytes);
      if |w| > |bytes| {
        CutOffReads(records[0], bytes);
      } else {
        BodyPrefixParses(later, bytes[|w|..]);
        WholeFirst(records, bytes[|w|..]);
      }
    }
  }

  lemma FirstAndPrefix(records: seq<Record>, n: nat)
    requires n < |records|
    ensures [records[0]] + records[1..][..n] == records[..1 + n]
  {
  }

  lemma {:induction false} AllContained(records: seq<Record>)
    ensures Contained(records, |Body(records)|) == |records|
    decreases |records|
  {
    if records != [] {
      AllContained(records[1..]);
    }
  }

  /** The first `n` records lie within `size` bytes exactly when `n` is at most the count. */
  lemma {:induction false} ContainedMeaning(records: seq<Record>, size: nat, n: nat)
    requires n <= |records|
    ensures |Body(records[..n])| <= size <==> n <= Contained(records, size)
    decreases |records|
  {
    if n > 0 {
      assert records[..n][1..] == records[1..][..n - 1];
      if |Written(records[0])| <= size {
        ContainedMeaning(records[1..], size - |Written(records[0])|, n - 1);
      }
    }
  }

  /** A file cut off anywhere, even within the magic, loads exactly the records it wholly contains. */
  lemma CutFileLoads(records: seq<Record>, size: nat)
    requires Fitting(records) && size <= |FileOf(records)|
    ensures Loaded(FileOf(records)[..size])
         == records[..if size < |MAGIC| then 0 else Contained(records, size - |MAGIC|)]
  {
    if size >= |MAGIC| {
      var file := FileOf(records)[..size];
      assert file[..|MAGIC|] == MAGIC;
      assert file[|MAGIC|..] == Body(records)[..size - |MAGIC|];
      BodyPrefixParses(records, Body(records)[..size - |MAGIC|]);
    }
  }

  lemma {:induction false} LoadedFit(bytes: seq<byte>)
    ensures Fitting(Parsed(bytes))
    decreases |bytes|
  {
    if HasRecord(bytes) {
      Ranges();
      LoadedFit(bytes[HEADER_SIZE + SizeField(bytes)..]);
    }
  }

  /** A capture loads back as it was recorded exactly when no record exceeds 65535 bytes. */
  lemma CaptureRoundTrip(records: seq<Record>)
    ensures Loaded(FileOf(records)) == records <==> Fitting(records)
  {
    var file := FileOf(records);
    LoadedFit(file[|MAGIC|..]);
    if Fitting(records) {
      AllContained(records);
      CutFileLoads(records, |file|);
      assert file[..|file|] == file && records[..|records|] == records;
    }
  }
}
