/**
 Converting configurations between the 250-byte layout of current firmware and the
 legacy layout, byte by byte.
 */
module LegacyConfig {
  import opened Bytes

  const CONFIG_SIZE := 250
  const MIN_OLD_SIZE := 128
  const OLD_VERSION_AT := 63        // config_version in the legacy layout
  const NEW_VERSION_AT := 1         // config_version in the current layout

  /** `size` bytes from offset `from` of one layout to offset `to` of the other. */
  datatype Move = Move(from: nat, to: nat, size: nat)

  /**
   Legacy offset, current offset and size of every carried field, in the order of
   the conversion; this is also the order of the legacy offsets.
   */
  const CARRIED: seq<Move> := [
    Move(6, 3, 2),                                                          // debounce without delay
    Move(8, 168, 1), Move(9, 169, 1), Move(10, 120, 1), Move(11, 121, 1),   // thresholds of panels 7 and 4
    Move(12, 88, 1), Move(13, 89, 1),                                       // thresholds of panel 2
    Move(14, 7, 2),                                                         // panel debounce
    Move(18, 9, 1), Move(19, 10, 1), Move(20, 11, 2),                       // auto calibration, bad sensors
    Move(24, 72, 1), Move(25, 73, 1),                                       // thresholds of panel 1
    Move(26, 17, 5), Move(31, 22, 1), Move(32, 23, 27),                     // sensors, lights timeout, step color
    Move(59, 55, 1), Move(60, 13, 2),                                       // rotation, samples per average
    Move(62, 0, 1), Move(63, 1, 1),                                         // master and config version
    Move(74, 56, 1), Move(75, 57, 1), Move(76, 104, 1), Move(77, 105, 1),   // thresholds of panels 0 and 3
    Move(78, 136, 1), Move(79, 137, 1), Move(80, 152, 1), Move(81, 153, 1), // thresholds of panels 5 and 6
    Move(82, 184, 1), Move(83, 185, 1),                                     // thresholds of panel 8
    Move(84, 5, 2)]                                                         // debounce with delay

  const FIELDS := 31

  // How many of them the reader takes before it stops.
  const WITHOUT_VERSION := 18
  const WITH_VERSION := 20
  const WITH_PANELS := 30

  // ─── Copying fields ───────────────────────────────────────────────────────

  predicate Fits(m: Move, srcSize: nat, dstSize: nat) {
    m.from + m.size <= srcSize && m.to + m.size <= dstSize
  }

  predicate AllFit(moves: seq<Move>, srcSize: nat, dstSize: nat) {
    forall i :: 0 <= i < |moves| ==> Fits(moves[i], srcSize, dstSize)
  }

  function Put(dst: seq<byte>, src: seq<byte>, m: Move): (out: seq<byte>)
    requires Fits(m, |src|, |dst|)
    ensures |out| == |dst|
    ensures forall i :: 0 <= i < |dst| ==>
      out[i] == if m.to <= i < m.to + m.size then src[m.from + i - m.to] else dst[i]
  {
    dst[..m.to] + src[m.from..m.from + m.size] + dst[m.to + m.size..]
  }

  function Copied(dst: seq<byte>, src: seq<byte>, moves: seq<Move>): (out: seq<byte>)
    requires AllFit(moves, |src|, |dst|)
    ensures |out| == |dst|
    decreases |moves|
  {
    if moves == [] then dst
    else
      assert Fits(moves[0], |src|, |dst|);
      Copied(Put(dst, src, moves[0]), src, moves[1..])
  }

  /** Writes one field into the buffer. */
  method CopyField(dst: array<byte>, src: seq<byte>, m: Move)
    requires Fits(m, |src|, dst.Length)
    modifies dst
    ensures dst[..] == Put(old(dst[..]), src, m)
  {
    for k := 0 to m.size
      invariant forall i :: 0 <= i < dst.Length ==>
        dst[i] == if m.to <= i < m.to + k then src[m.from + i - m.to] else old(dst[i])
    {
      dst[m.to + k] := src[m.from + k];
    }
    assert dst[..] == Put(old(dst[..]), src, m);
  }

  method CopyFields(dst: array<byte>, src: seq<byte>, moves: seq<Move>)
    requires AllFit(moves, |src|, dst.Length)
    modifies dst
    ensures dst[..] == Copied(old(dst[..]), src, moves)
  {
    for i := 0 to |moves|
      invariant Copied(dst[..], src, moves[i..]) == Copied(old(dst[..]), src, moves)
    {
      assert Fits(moves[i], |src|, dst.Length);
      assert moves[i..][0] == moves[i] && moves[i..][1..] == moves[i + 1..];
      CopyField(dst, src, moves[i]);
    }
  }

  // ─── Moves that do not disturb each other ─────────────────────────────────

  predicate Misses(m: Move, i: nat) {
    i < m.to || m.to + m.size <= i
  }

  predicate Apart(a: Move, b: Move) {
    a.to + a.size <= b.to || b.to + b.size <= a.to
  }

  predicate AllApart(moves: seq<Move>) {
    forall i, j :: 0 <= i < j < |moves| ==> Apart(moves[i], moves[j])
  }

  predicate AllMiss(moves: seq<Move>, i: nat) {
    forall k :: 0 <= k < |moves| ==> Misses(moves[k], i)
  }

  /** A byte no field is written to stays. */
  lemma {:induction false} CopiedElsewhere(dst: seq<byte>, src: seq<byte>, moves: seq<Move>, i: nat)
    requires AllFit(moves, |src|, |dst|) && i < |dst| && AllMiss(moves, i)
    ensures Copied(dst, src, moves)[i] == dst[i]
    decreases |moves|
  {
    if moves != [] {
      assert Fits(moves[0], |src|, |dst|) && Misses(moves[0], i);
      CopiedElsewhere(Put(dst, src, moves[0]), src, moves[1..], i);
    }
  }

  /** Every field arrives whole. */
  lemma {:induction false} CopiedField(dst: seq<byte>, src: seq<byte>, moves: seq<Move>, j: nat, k: nat)
    requires AllFit(moves, |src|, |dst|) && AllApart(moves)
    requires j < |moves| && k < moves[j].size
    ensures Fits(moves[j], |src|, |dst|)
    ensures Copied(dst, src, moves)[moves[j].to + k] == src[moves[j].from + k]
    decreases |moves|
  {
    assert Fits(moves[0], |src|, |dst|);
    var after, rest := Put(dst, src, moves[0]), moves[1..];
    if j == 0 {
      forall i | 0 <= i < |rest|
        ensures Misses(rest[i], moves[0].to + k)
      {
        assert Apart(moves[0], moves[i + 1]);
      }
      CopiedElsewhere(after, src, rest, moves[0].to + k);
    } else {
      assert moves[j] == rest[j - 1];
      CopiedField(after, src, rest, j - 1, k);
    }
  }

  /** The copy in the other direction. */
  function Flipped(moves: seq<Move>): (back: seq<Move>)
    ensures |back| == |moves|
    ensures forall i :: 0 <= i < |moves| ==> back[i] == Move(moves[i].to, moves[i].from, moves[i].size)
  {
    seq(|moves|, i requires 0 <= i < |moves| => Move(moves[i].to, moves[i].from, moves[i].size))
  }

  // ─── The table ────────────────────────────────────────────────────────────

  /** The carried field a byte of the current layout belongs to. */
  function OwnerOf(n: nat): nat {
    if n == 0 then 18 else if n == 1 then 19 else if n <= 4 then 0 else if n <= 6 then 30
    else if n <= 8 then 7 else if n == 9 then 8 else if n == 10 then 9 else if n <= 12 then 10
    else if n <= 14 then 17 else if n <= 21 then 13 else if n == 22 then 14 else if n <= 49 then 15
    else if n == 55 then 16 else if n == 56 then 20 else if n == 57 then 21
    else if n == 72 then 11 else if n == 73 then 12 else if n == 88 then 5 else if n == 89 then 6
    else if n == 104 then 22 else if n == 105 then 23 else if n == 120 then 3 else if n == 121 then 4
    else if n == 136 then 24 else if n == 137 then 25 else if n == 152 then 26 else if n == 153 then 27
    else if n == 168 then 1 else if n == 169 then 2 else if n == 184 then 28 else if n == 185 then 29
    else FIELDS
  }

  lemma CarriedFits()
    ensures |CARRIED| == FIELDS
    ensures AllFit(CARRIED, MIN_OLD_SIZE, CONFIG_SIZE)
    ensures AllFit(Flipped(CARRIED), CONFIG_SIZE, MIN_OLD_SIZE)
    ensures forall i :: 0 <= i < FIELDS ==> CARRIED[i].size > 0
    ensures forall i :: 0 <= i < FIELDS - 1 ==> CARRIED[i].from + CARRIED[i].size <= CARRIED[i + 1].from
  {
  }

  lemma CarriedOwner(i: nat, n: nat)
    requires i < FIELDS && |CARRIED| == FIELDS
    requires CARRIED[i].to <= n < CARRIED[i].to + CARRIED[i].size
    ensures OwnerOf(n) == i
  {
  }

  lemma {:induction false} CarriedSorted(i: nat, j: nat)
    requires i < j < FIELDS && |CARRIED| == FIELDS
    ensures CARRIED[i].from + CARRIED[i].size <= CARRIED[j].from
  {
    CarriedFits();
    if i + 1 < j {
      CarriedSorted(i, j - 1);
    }
  }

  /** No field overlaps another, in either layout. */
  lemma {:induction false} CarriedApart()
    ensures |CARRIED| == FIELDS
    ensures AllApart(CARRIED)
    ensures AllApart(Flipped(CARRIED))
  {
    CarriedFits();
    forall i, j | 0 <= i < j < FIELDS
      ensures Apart(CARRIED[i], CARRIED[j])
      ensures Apart(Flipped(CARRIED)[i], Flipped(CARRIED)[j])
    {
      CarriedSorted(i, j);
      if !Apart(CARRIED[i], CARRIED[j]) {
        var n := Max(CARRIED[i].to, CARRIED[j].to);
        CarriedOwner(i, n);
        CarriedOwner(j, n);
      }
    }
  }

  // ─── Reading a legacy configuration ───────────────────────────────────────

  /** How many carried fields the reader takes, in order, before it stops. */
  function FieldsRead(version: byte): (n: nat)
    ensures n <= FIELDS
    ensures n == FIELDS <==> 3 <= version <= 254
  {
    if version == 255 then WITHOUT_VERSION
    else if version < 2 then WITH_VERSION
    else if version < 3 then WITH_PANELS
    else FIELDS
  }

  function NewFromOld(old250: seq<byte>, config: seq<byte>): (out: seq<byte>)
    requires |old250| >= CONFIG_SIZE && |config| == CONFIG_SIZE
    ensures |out| == CONFIG_SIZE
  {
    CarriedFits();
    Copied(config, old250, CARRIED[..FieldsRead(old250[OLD_VERSION_AT])])
  }

  lemma {:induction false} CopiedAppend(dst: seq<byte>, src: seq<byte>, a: seq<Move>, b: seq<Move>)
    requires AllFit(a, |src|, |dst|) && AllFit(b, |src|, |dst|)
    ensures AllFit(a + b, |src|, |dst|)
    ensures Copied(Copied(dst, src, a), src, b) == Copied(dst, src, a + b)
    decreases |a|
  {
    if a == [] {
      assert a + b == b;
    } else {
      assert Fits(a[0], |src|, |dst|);
      CopiedAppend(Put(dst, src, a[0]), src, a[1..], b);
      assert (a + b)[0] == a[0] && (a + b)[1..] == a[1..] + b;
    }
  }

  /** The conversion as it runs: group after group, leaving early by version. */
  method ConvertToNewConfig(oldBytes: seq<byte>, config: array<byte>)
    requires |oldBytes| >= CONFIG_SIZE && config.Length == CONFIG_SIZE
    modifies config
    ensures config[..] == NewFromOld(oldBytes, old(config[..]))
  {
    ghost var was := config[..];
    CarriedFits();
    var version := oldBytes[OLD_VERSION_AT];
    CopyFields(config, oldBytes, CARRIED[..WITHOUT_VERSION]);
    if version == 255 {
      return;
    }
    CopyRange(was, config, oldBytes, WITHOUT_VERSION, WITH_VERSION);
    if version < 2 {
      return;
    }
    CopyRange(was, config, oldBytes, WITH_VERSION, WITH_PANELS);
    if version < 3 {
      return;
    }
    CopyRange(was, config, oldBytes, WITH_PANELS, FIELDS);
    assert CARRIED[..FIELDS] == CARRIED;
  }

  /** Copies the next fields of the table after the first `lo`. */
  method CopyRange(ghost was: seq<byte>, dst: array<byte>, src: seq<byte>, lo: nat, hi: nat)
    requires lo <= hi <= |CARRIED| && AllFit(CARRIED, |src|, dst.Length)
    requires |was| == dst.Length && dst[..] == Copied(was, src, CARRIED[..lo])
    modifies dst
    ensures dst[..] == Copied(was, src, CARRIED[..hi])
  {
    CopyFields(dst, src, CARRIED[lo..hi]);
    CopiedAppend(was, src, CARRIED[..lo], CARRIED[lo..hi]);
    assert CARRIED[..lo] + CARRIED[lo..hi] == CARRIED[..hi];
  }

  // ─── Writing a legacy configuration ───────────────────────────────────────

  /** The first `n` bytes of `s`, filled up with `fill` when there are fewer. */
  function Resized(s: seq<byte>, n: nat, fill: byte): (r: seq<byte>)
    ensures |r| == n
    ensures forall i :: 0 <= i < n ==> r[i] == if i < |s| then s[i] else fill
  {
    seq(n, i requires i >= 0 => if i < |s| then s[i] else fill)
  }

  function OldFromNew(config: seq<byte>, raw: seq<byte>): (out: seq<byte>)
    requires |config| == CONFIG_SIZE
    ensures |out| == Max(MIN_OLD_SIZE, |raw|)
  {
    CarriedFits();
    var size := Max(MIN_OLD_SIZE, |raw|);
    var room := Resized(Resized(raw, size, 255), Max(CONFIG_SIZE, size), 0);
    Copied(room, config, Flipped(CARRIED))[..size]
  }

  /** The conversion in a buffer long enough for the whole legacy record. */
  method ConvertToOldConfig(config: seq<byte>, raw: seq<byte>) returns (out: seq<byte>)
    requires |config| == CONFIG_SIZE
    ensures out == OldFromNew(config, raw)
  {
    CarriedFits();
    var data := raw;
    if |data| < MIN_OLD_SIZE {
      data := Resized(data, MIN_OLD_SIZE, 255);
    }
    var outputLen := |data|;
    if |data| < CONFIG_SIZE {
      data := Resized(data, CONFIG_SIZE, 0);
    }
    var buffer := new byte[|data|](i requires 0 <= i < |data| => data[i]);
    assert buffer[..] == data;
    CopyFields(buffer, config, Flipped(CARRIED));
    out := buffer[..outputLen];
    assert data == Resized(Resized(raw, outputLen, 255), Max(CONFIG_SIZE, outputLen), 0);
  }

  /** What the device keeps of a legacy reply before it reads the fields. */
  function Padded(raw: seq<byte>): (r: seq<byte>)
    ensures |r| == CONFIG_SIZE
  {
    Resized(raw, CONFIG_SIZE, 0)
  }

  // ─── The laws ─────────────────────────────────────────────────────────────

  /** A byte of the legacy layout that no field covers. */
  predicate Gap(i: nat) {
    forall k :: 0 <= k < |CARRIED| ==> Misses(Flipped(CARRIED)[k], i)
  }

  predicate SameField(a: seq<byte>, b: seq<byte>, m: Move)
    requires |a| == |b| && m.to + m.size <= |a|
  {
    forall i :: m.to <= i < m.to + m.size ==> a[i] == b[i]
  }

  /** Some byte other than `b`. */
  function Other(b: byte): (o: byte)
    ensures o != b
  {
    if b == 0 then 1 else 0
  }

  /** Both configurations hold the same carried fields. */
  predicate SameCarried(a: seq<byte>, b: seq<byte>)
    requires |a| == |b| == CONFIG_SIZE
  {
    CarriedFits();
    forall j :: 0 <= j < |CARRIED| ==> SameField(a, b, CARRIED[j])
  }

  /** Writing leaves every gap byte as it was; added bytes are 255. */
  lemma GapsUntouched(config: seq<byte>, raw: seq<byte>, i: nat)
    requires |config| == CONFIG_SIZE && i < Max(MIN_OLD_SIZE, |raw|) && Gap(i)
    ensures OldFromNew(config, raw)[i] == if i < |raw| then raw[i] else 255
  {
    CarriedFits();
    var size := Max(MIN_OLD_SIZE, |raw|);
    var room := Resized(Resized(raw, size, 255), Max(CONFIG_SIZE, size), 0);
    CopiedElsewhere(room, config, Flipped(CARRIED), i);
  }

  /** Writing puts every carried field in its legacy place. */
  lemma FieldWritten(config: seq<byte>, raw: seq<byte>, j: nat, k: nat)
    requires |config| == CONFIG_SIZE && j < |CARRIED| && k < CARRIED[j].size
    ensures CARRIED[j].from + k < MIN_OLD_SIZE && CARRIED[j].to + k < CONFIG_SIZE
    ensures OldFromNew(config, raw)[CARRIED[j].from + k] == config[CARRIED[j].to + k]
  {
    CarriedFits();
    CarriedApart();
    var size := Max(MIN_OLD_SIZE, |raw|);
    var room := Resized(Resized(raw, size, 255), Max(CONFIG_SIZE, size), 0);
    assert Fits(CARRIED[j], MIN_OLD_SIZE, CONFIG_SIZE);
    CopiedField(room, config, Flipped(CARRIED), j, k);
  }

  /** The fields the reader stops before stay as they were. */
  lemma FieldSkipped(old250: seq<byte>, config: seq<byte>, j: nat, k: nat)
    requires |old250| >= CONFIG_SIZE && |config| == CONFIG_SIZE
    requires FieldsRead(old250[OLD_VERSION_AT]) <= j < |CARRIED| && k < CARRIED[j].size
    ensures CARRIED[j].to + k < CONFIG_SIZE
    ensures NewFromOld(old250, config)[CARRIED[j].to + k] == config[CARRIED[j].to + k]
  {
    CarriedFits();
    CarriedApart();
    assert Fits(CARRIED[j], MIN_OLD_SIZE, CONFIG_SIZE);
    var n := FieldsRead(old250[OLD_VERSION_AT]);
    var taken := CARRIED[..n];
    forall i | 0 <= i < n
      ensures Misses(taken[i], CARRIED[j].to + k)
    {
      assert Apart(CARRIED[i], CARRIED[j]);
    }
    CopiedElsewhere(config, old250, taken, CARRIED[j].to + k);
  }

  /** A byte of the current layout that no field covers is never touched by reading. */
  lemma ReadElsewhere(old250: seq<byte>, config: seq<byte>, n: nat)
    requires |old250| >= CONFIG_SIZE && |config| == CONFIG_SIZE
    requires n < CONFIG_SIZE && OwnerOf(n) == FIELDS
    ensures NewFromOld(old250, config)[n] == config[n]
  {
    CarriedFits();
    var taken := CARRIED[..FieldsRead(old250[OLD_VERSION_AT])];
    forall i | 0 <= i < |taken|
      ensures Misses(taken[i], n)
    {
      if !Misses(CARRIED[i], n) {
        CarriedOwner(i, n);
      }
    }
    CopiedElsewhere(config, old250, taken, n);
  }

  lemma FieldTaken(old250: seq<byte>, config: seq<byte>, j: nat, k: nat)
    requires |old250| >= CONFIG_SIZE && |config| == CONFIG_SIZE
    requires j < FieldsRead(old250[OLD_VERSION_AT]) && j < |CARRIED| && k < CARRIED[j].size
    ensures CARRIED[j].from + k < MIN_OLD_SIZE && CARRIED[j].to + k < CONFIG_SIZE
    ensures NewFromOld(old250, config)[CARRIED[j].to + k] == old250[CARRIED[j].from + k]
  {
    CarriedFits();
    CarriedApart();
    assert Fits(CARRIED[j], MIN_OLD_SIZE, CONFIG_SIZE);
    var taken := CARRIED[..FieldsRead(old250[OLD_VERSION_AT])];
    assert taken[j] == CARRIED[j];
    CopiedField(config, old250, taken, j, k);
  }

  /** Reading takes the fields before the stop and leaves the others alone. */
  lemma FieldRead(old250: seq<byte>, config: seq<byte>, j: nat, k: nat)
    requires |old250| >= CONFIG_SIZE && |config| == CONFIG_SIZE
    requires j < |CARRIED| && k < CARRIED[j].size
    ensures CARRIED[j].from + k < MIN_OLD_SIZE && CARRIED[j].to + k < CONFIG_SIZE
    ensures NewFromOld(old250, config)[CARRIED[j].to + k] ==
      if j < FieldsRead(old250[OLD_VERSION_AT]) then old250[CARRIED[j].from + k]
      else config[CARRIED[j].to + k]
  {
    CarriedFits();
    assert Fits(CARRIED[j], MIN_OLD_SIZE, CONFIG_SIZE);
    if j < FieldsRead(old250[OLD_VERSION_AT]) {
      FieldTaken(old250, config, j, k);
    } else {
      FieldSkipped(old250, config, j, k);
    }
  }

  /** What reading back a written configuration into `into` gives. */
  function WrittenThenRead(config: seq<byte>, raw: seq<byte>, into: seq<byte>): (out: seq<byte>)
    requires |config| == |into| == CONFIG_SIZE
    ensures |out| == CONFIG_SIZE
  {
    NewFromOld(Padded(OldFromNew(config, raw)), into)
  }

  lemma WrittenVersion(config: seq<byte>, raw: seq<byte>)
    requires |config| == CONFIG_SIZE
    ensures Padded(OldFromNew(config, raw))[OLD_VERSION_AT] == config[NEW_VERSION_AT]
  {
    FieldWritten(config, raw, 19, 0);
  }

  lemma ReadBackField(config: seq<byte>, raw: seq<byte>, into: seq<byte>, j: nat, k: nat)
    requires |config| == |into| == CONFIG_SIZE && j < |CARRIED| && k < CARRIED[j].size
    ensures CARRIED[j].to + k < CONFIG_SIZE
    ensures WrittenThenRead(config, raw, into)[CARRIED[j].to + k] ==
      if j < FieldsRead(config[NEW_VERSION_AT]) then config[CARRIED[j].to + k]
      else into[CARRIED[j].to + k]
  {
    WrittenVersion(config, raw);
    FieldWritten(config, raw, j, k);
    FieldRead(Padded(OldFromNew(config, raw)), into, j, k);
  }

  lemma FieldSurvives(config: seq<byte>, raw: seq<byte>, into: seq<byte>, j: nat)
    requires |config| == |into| == CONFIG_SIZE && j < |CARRIED|
    requires j < FieldsRead(config[NEW_VERSION_AT])
    ensures CARRIED[j].to + CARRIED[j].size <= CONFIG_SIZE
    ensures SameField(WrittenThenRead(config, raw, into), config, CARRIED[j])
  {
    CarriedFits();
    var m := CARRIED[j];
    assert Fits(m, MIN_OLD_SIZE, CONFIG_SIZE);
    forall i | m.to <= i < m.to + m.size
      ensures WrittenThenRead(config, raw, into)[i] == config[i]
    {
      ReadBackField(config, raw, into, j, i - m.to);
    }
  }

  /** Reading back restores the carried fields, whatever the reader held before. */
  ghost predicate ReadingRestores(config: seq<byte>, raw: seq<byte>)
    requires |config| == CONFIG_SIZE
  {
    forall into: seq<byte> | |into| == CONFIG_SIZE :: SameCarried(WrittenThenRead(config, raw, into), config)
  }

  lemma AllSurvive(config: seq<byte>, raw: seq<byte>, into: seq<byte>)
    requires |config| == |into| == CONFIG_SIZE && 3 <= config[NEW_VERSION_AT] <= 254
    ensures SameCarried(WrittenThenRead(config, raw, into), config)
  {
    CarriedFits();
    forall j | 0 <= j < |CARRIED|
      ensures SameField(WrittenThenRead(config, raw, into), config, CARRIED[j])
    {
      FieldSurvives(config, raw, into, j);
    }
  }

  /** A version at which the reader stops early loses the first field it skips. */
  lemma SkippedLost(config: seq<byte>, raw: seq<byte>) returns (into: seq<byte>)
    requires |config| == CONFIG_SIZE && !(3 <= config[NEW_VERSION_AT] <= 254)
    ensures |into| == CONFIG_SIZE && !SameCarried(WrittenThenRead(config, raw, into), config)
  {
    CarriedFits();
    var n := FieldsRead(config[NEW_VERSION_AT]);
    var m := CARRIED[n];
    assert Fits(m, MIN_OLD_SIZE, CONFIG_SIZE);
    into := config[m.to := Other(config[m.to])];
    ReadBackField(config, raw, into, n, 0);
    assert !SameField(WrittenThenRead(config, raw, into), config, m);
  }

  /**
   Writing a configuration and reading it back restores every carried field, whatever
   was there before, exactly for versions 3 to 254.
   */
  lemma {:induction false} WriteThenRead(config: seq<byte>, raw: seq<byte>)
    requires |config| == CONFIG_SIZE
    ensures ReadingRestores(config, raw) <==> 3 <= config[NEW_VERSION_AT] <= 254
  {
    if 3 <= config[NEW_VERSION_AT] <= 254 {
      forall into: seq<byte> | |into| == CONFIG_SIZE
        ensures SameCarried(WrittenThenRead(config, raw, into), config)
      {
        AllSurvive(config, raw, into);
      }
    } else {
      var into := SkippedLost(config, raw);
    }
  }

  // ─── Reading, then writing back ───────────────────────────────────────────

  /** What a reply becomes when it is read into `into` and written again. */
  function ReadThenWritten(raw: seq<byte>, into: seq<byte>): (out: seq<byte>)
    requires |into| == CONFIG_SIZE
    ensures |out| == Max(MIN_OLD_SIZE, |raw|)
  {
    OldFromNew(NewFromOld(Padded(raw), into), raw)
  }

  /** The first byte of a field that is written but not read, 250 when there is none. */
  function FirstUnread(version: byte): nat {
    if version == 255 then 62 else if version < 2 then 74 else if version < 3 then 84 else CONFIG_SIZE
  }

  lemma BackField(raw: seq<byte>, into: seq<byte>, j: nat, k: nat)
    requires |into| == CONFIG_SIZE && j < |CARRIED| && k < CARRIED[j].size
    ensures CARRIED[j].from + k < MIN_OLD_SIZE && CARRIED[j].to + k < CONFIG_SIZE
    ensures ReadThenWritten(raw, into)[CARRIED[j].from + k] ==
      if j < FieldsRead(Padded(raw)[OLD_VERSION_AT]) then Padded(raw)[CARRIED[j].from + k]
      else into[CARRIED[j].to + k]
  {
    FieldRead(Padded(raw), into, j, k);
    FieldWritten(NewFromOld(Padded(raw), into), raw, j, k);
  }

  lemma BackByte(raw: seq<byte>, into: seq<byte>, i: nat)
    requires |into| == CONFIG_SIZE && i < |raw|
    requires i < FirstUnread(Padded(raw)[OLD_VERSION_AT]) || i >= MIN_OLD_SIZE
    ensures ReadThenWritten(raw, into)[i] == raw[i]
  {
    CarriedFits();
    if Gap(i) {
      GapsUntouched(NewFromOld(Padded(raw), into), raw, i);
    } else {
      var j :| 0 <= j < |CARRIED| && !Misses(Flipped(CARRIED)[j], i);
      assert Fits(CARRIED[j], MIN_OLD_SIZE, CONFIG_SIZE);
      var n := FieldsRead(Padded(raw)[OLD_VERSION_AT]);
      if n < j {
        CarriedSorted(n, j);
      }
      BackField(raw, into, j, i - CARRIED[j].from);
    }
  }

  /**
   Reading a reply and writing it back changes none of its bytes, whatever was configured
   before, exactly when the reply ends before the first field the reader skips.
   */
  lemma ReadThenWrite(raw: seq<byte>)
    ensures (forall into: seq<byte> | |into| == CONFIG_SIZE :: raw <= ReadThenWritten(raw, into))
      <==> (var version := Padded(raw)[OLD_VERSION_AT]; (3 <= version <= 254) || |raw| <= FirstUnread(version))
  {
    CarriedFits();
    var version := Padded(raw)[OLD_VERSION_AT];
    var n := FieldsRead(version);
    if (3 <= version <= 254) || |raw| <= FirstUnread(version) {
      forall into: seq<byte> | |into| == CONFIG_SIZE
        ensures raw <= ReadThenWritten(raw, into)
      {
        forall i | 0 <= i < |raw|
          ensures ReadThenWritten(raw, into)[i] == raw[i]
        {
          BackByte(raw, into, i);
        }
      }
    } else {
      assert Fits(CARRIED[n], MIN_OLD_SIZE, CONFIG_SIZE);
      var at := CARRIED[n].from;
      var into := Resized([], CONFIG_SIZE, Other(raw[at]));
      BackField(raw, into, n, 0);
      assert !(raw <= ReadThenWritten(raw, into));
    }
  }
}
