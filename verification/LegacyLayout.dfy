/**
 Where the carried fields lie: both configuration records as lists of field sizes, in the
 order of their structures, and each field's offset as the sum of the sizes before it.
 */
module LegacyLayout {
  import opened Bytes
  import opened LegacyConfig

  /** The legacy record. */
  const OLD_SIZES: seq<nat> := [
    1, 1, 1, 1, 1, 1,                    //  0 unused
    2,                                   //  6 debounce of the master
    1, 1, 1, 1, 1, 1,                    //  7 low and high thresholds of panels 7, 4 and 2
    2,                                   // 13 panel debounce
    2, 1, 1, 2,                          // 14 auto calibration period, deviation; bad sensors; averages
    1, 1,                                // 18 unused
    1, 1,                                // 20 thresholds of panel 1
    5, 1, 27, 1, 2,                      // 22 sensors, lights timeout, step color, rotation, samples
    1, 1,                                // 27 master and config version
    10,                                  // 29 unused
    1, 1, 1, 1, 1, 1, 1, 1, 1, 1,        // 30 thresholds of panels 0, 3, 5, 6 and 8
    2,                                   // 40 debounce with delay
    164]                                 // 41 padding

  /** The current record up to its nine panels, and one of these. */
  const NEW_SIZES: seq<nat> := [
    1, 1, 1,                             //  0 master version, config version, flags
    2, 2, 2,                             //  3 debounce without and with delay, of a panel
    1, 1, 2, 2, 2,                       //  6 deviation, bad sensors, averages, samples, tare
    5, 1, 27, 3, 2, 1]                   // 11 sensors, timeout, step color, strip color, mask, rotation

  const PANEL_SIZES: seq<nat> := [1, 1, 4, 4, 2, 2, 2]   // low and high threshold, four more, reserved

  /** A field of the current record: one before the panels, or a threshold of a panel. */
  datatype NewField = Plain(field: nat) | Low(panel: nat) | High(panel: nat)

  /** The numbers of the carried fields in the legacy record, and what they are in the current one. */
  const OLD_FIELDS: seq<nat> := [6, 7, 8, 9, 10, 11, 12, 13, 15, 16, 17, 20, 21, 22, 23, 24, 25, 26, 27, 28,
                                 30, 31, 32, 33, 34, 35, 36, 37, 38, 39, 40]

  const NEW_FIELDS: seq<NewField> := [
    Plain(3), Low(7), High(7), Low(4), High(4), Low(2), High(2), Plain(5), Plain(6), Plain(7), Plain(8),
    Low(1), High(1), Plain(11), Plain(12), Plain(13), Plain(16), Plain(9), Plain(0), Plain(1),
    Low(0), High(0), Low(3), High(3), Low(5), High(5), Low(6), High(6), Low(8), High(8), Plain(4)]

  /** The offset of a field: the sizes of those before it. */
  function Offset(sizes: seq<nat>, field: nat): nat
    requires field <= |sizes|
  {
    if field == 0 then 0 else Offset(sizes, field - 1) + sizes[field - 1]
  }

  /** `offsets` are the sums of the sizes, one after the other. */
  predicate Sums(sizes: seq<nat>, offsets: seq<nat>) {
    && |offsets| == |sizes| + 1 && offsets[0] == 0
    && forall i :: 0 <= i < |sizes| ==> offsets[i + 1] == offsets[i] + sizes[i]
  }

  lemma {:induction false} SumsAreOffsets(sizes: seq<nat>, offsets: seq<nat>, i: nat)
    requires Sums(sizes, offsets) && i <= |sizes|
    ensures Offset(sizes, i) == offsets[i]
  {
    if i > 0 {
      SumsAreOffsets(sizes, offsets, i - 1);
    }
  }

  const OLD_OFFSETS: seq<nat> := [0, 1, 2, 3, 4, 5, 6, 8, 9, 10, 11, 12, 13, 14, 16, 18, 19, 20, 22, 23, 24, 25, 26,
                                  31, 32, 59, 60, 62, 63, 64, 74, 75, 76, 77, 78, 79, 80, 81, 82, 83, 84, 86, 250]

  const NEW_OFFSETS: seq<nat> := [0, 1, 2, 3, 5, 7, 9, 10, 11, 13, 15, 17, 22, 23, 50, 53, 55, 56]

  const PANEL_OFFSETS: seq<nat> := [0, 1, 2, 6, 10, 12, 14, 16]

  lemma OldOffset(i: nat)
    requires i < |OLD_OFFSETS|
    ensures i <= |OLD_SIZES| && Offset(OLD_SIZES, i) == OLD_OFFSETS[i]
  {
    SumsAreOffsets(OLD_SIZES, OLD_OFFSETS, i);
  }

  lemma NewOffset(i: nat)
    requires i < |NEW_OFFSETS|
    ensures i <= |NEW_SIZES| && Offset(NEW_SIZES, i) == NEW_OFFSETS[i]
  {
    SumsAreOffsets(NEW_SIZES, NEW_OFFSETS, i);
  }

  lemma PanelOffset(i: nat)
    requires i < |PANEL_OFFSETS|
    ensures i <= |PANEL_SIZES| && Offset(PANEL_SIZES, i) == PANEL_OFFSETS[i]
  {
    SumsAreOffsets(PANEL_SIZES, PANEL_OFFSETS, i);
  }

  predicate Known(f: NewField) {
    f.Plain? ==> f.field < 17
  }

  /** Where a field of the current record lies: the panels follow the other fields, one after the other. */
  function Place(f: NewField): nat
    requires Known(f)
  {
    match f
    case Plain(field) => Offset(NEW_SIZES, field)
    case Low(panel) => Offset(NEW_SIZES, 17) + panel * Offset(PANEL_SIZES, 7)
    case High(panel) => Offset(NEW_SIZES, 17) + panel * Offset(PANEL_SIZES, 7) + Offset(PANEL_SIZES, 1)
  }

  function SizeOf(f: NewField): nat
    requires Known(f)
  {
    match f
    case Plain(field) => NEW_SIZES[field]
    case Low(_) => PANEL_SIZES[0]
    case High(_) => PANEL_SIZES[1]
  }

  lemma PlaceInNumbers(f: NewField)
    requires Known(f)
    ensures Place(f) == PlaceNumber(f)
  {
    NewOffset(17);
    PanelOffset(7);
    PanelOffset(1);
    if f.Plain? {
      NewOffset(f.field);
    }
  }

  /** The offsets in numbers. */
  function PlaceNumber(f: NewField): nat
    requires Known(f)
  {
    match f
    case Plain(field) => NEW_OFFSETS[field]
    case Low(panel) => 56 + 16 * panel
    case High(panel) => 57 + 16 * panel
  }

  predicate OldMatches(m: Move, past: nat) {
    past < |OLD_SIZES| && m.from == OLD_OFFSETS[past] && m.size == OLD_SIZES[past]
  }

  predicate NewMatches(m: Move, f: NewField) {
    Known(f) && m.to == PlaceNumber(f) && m.size == SizeOf(f)
  }

  lemma FirstOld(i: nat)
    requires 0 <= i < 4 && |CARRIED| == |OLD_FIELDS| == 31
    ensures OldMatches(CARRIED[i], OLD_FIELDS[i])
  {
    match i {
      case 0 => assert OldMatches(CARRIED[0], OLD_FIELDS[0]);
      case 1 => assert OldMatches(CARRIED[1], OLD_FIELDS[1]);
      case 2 => assert OldMatches(CARRIED[2], OLD_FIELDS[2]);
      case _ => assert OldMatches(CARRIED[3], OLD_FIELDS[3]);
    }
  }

  lemma SecondOld(i: nat)
    requires 4 <= i < 8 && |CARRIED| == |OLD_FIELDS| == 31
    ensures OldMatches(CARRIED[i], OLD_FIELDS[i])
  {
    match i {
      case 4 => assert OldMatches(CARRIED[4], OLD_FIELDS[4]);
      case 5 => assert OldMatches(CARRIED[5], OLD_FIELDS[5]);
      case 6 => assert OldMatches(CARRIED[6], OLD_FIELDS[6]);
      case _ => assert OldMatches(CARRIED[7], OLD_FIELDS[7]);
    }
  }

  lemma ThirdOld(i: nat)
    requires 8 <= i < 12 && |CARRIED| == |OLD_FIELDS| == 31
    ensures OldMatches(CARRIED[i], OLD_FIELDS[i])
  {
    match i {
      case 8 => assert OldMatches(CARRIED[8], OLD_FIELDS[8]);
      case 9 => assert OldMatches(CARRIED[9], OLD_FIELDS[9]);
      case 10 => assert OldMatches(CARRIED[10], OLD_FIELDS[10]);
      case _ => assert OldMatches(CARRIED[11], OLD_FIELDS[11]);
    }
  }

  lemma FourthOld(i: nat)
    requires 12 <= i < 16 && |CARRIED| == |OLD_FIELDS| == 31
    ensures OldMatches(CARRIED[i], OLD_FIELDS[i])
  {
    match i {
      case 12 => assert OldMatches(CARRIED[12], OLD_FIELDS[12]);
      case 13 => assert OldMatches(CARRIED[13], OLD_FIELDS[13]);
      case 14 => assert OldMatches(CARRIED[14], OLD_FIELDS[14]);
      case _ => assert OldMatches(CARRIED[15], OLD_FIELDS[15]);
    }
  }

  lemma FifthOld(i: nat)
    requires 16 <= i < 20 && |CARRIED| == |OLD_FIELDS| == 31
    ensures OldMatches(CARRIED[i], OLD_FIELDS[i])
  {
    match i {
      case 16 => assert OldMatches(CARRIED[16], OLD_FIELDS[16]);
      case 17 => assert OldMatches(CARRIED[17], OLD_FIELDS[17]);
      case 18 => assert OldMatches(CARRIED[18], OLD_FIELDS[18]);
      case _ => assert OldMatches(CARRIED[19], OLD_FIELDS[19]);
    }
  }

  lemma SixthOld(i: nat)
    requires 20 <= i < 24 && |CARRIED| == |OLD_FIELDS| == 31
    ensures OldMatches(CARRIED[i], OLD_FIELDS[i])
  {
    match i {
      case 20 => assert OldMatches(CARRIED[20], OLD_FIELDS[20]);
      case 21 => assert OldMatches(CARRIED[21], OLD_FIELDS[21]);
      case 22 => assert OldMatches(CARRIED[22], OLD_FIELDS[22]);
      case _ => assert OldMatches(CARRIED[23], OLD_FIELDS[23]);
    }
  }

  lemma SeventhOld(i: nat)
    requires 24 <= i < 28 && |CARRIED| == |OLD_FIELDS| == 31
    ensures OldMatches(CARRIED[i], OLD_FIELDS[i])
  {
    match i {
      case 24 => assert OldMatches(CARRIED[24], OLD_FIELDS[24]);
      case 25 => assert OldMatches(CARRIED[25], OLD_FIELDS[25]);
      case 26 => assert OldMatches(CARRIED[26], OLD_FIELDS[26]);
      case _ => assert OldMatches(CARRIED[27], OLD_FIELDS[27]);
    }
  }

  lemma EighthOld(i: nat)
    requires 28 <= i < 31 && |CARRIED| == |OLD_FIELDS| == 31
    ensures OldMatches(CARRIED[i], OLD_FIELDS[i])
  {
    match i {
      case 28 => assert OldMatches(CARRIED[28], OLD_FIELDS[28]);
      case 29 => assert OldMatches(CARRIED[29], OLD_FIELDS[29]);
      case _ => assert OldMatches(CARRIED[30], OLD_FIELDS[30]);
    }
  }

  lemma FirstNew(i: nat)
    requires 0 <= i < 8 && |CARRIED| == |NEW_FIELDS| == 31
    ensures NewMatches(CARRIED[i], NEW_FIELDS[i])
  {
    match i {
      case 0 => assert NewMatches(CARRIED[0], NEW_FIELDS[0]);
      case 1 => assert NewMatches(CARRIED[1], NEW_FIELDS[1]);
      case 2 => assert NewMatches(CARRIED[2], NEW_FIELDS[2]);
      case 3 => assert NewMatches(CARRIED[3], NEW_FIELDS[3]);
      case 4 => assert NewMatches(CARRIED[4], NEW_FIELDS[4]);
      case 5 => assert NewMatches(CARRIED[5], NEW_FIELDS[5]);
      case 6 => assert NewMatches(CARRIED[6], NEW_FIELDS[6]);
      case _ => assert NewMatches(CARRIED[7], NEW_FIELDS[7]);
    }
  }

  lemma SecondNew(i: nat)
    requires 8 <= i < 16 && |CARRIED| == |NEW_FIELDS| == 31
    ensures NewMatches(CARRIED[i], NEW_FIELDS[i])
  {
    match i {
      case 8 => assert NewMatches(CARRIED[8], NEW_FIELDS[8]);
      case 9 => assert NewMatches(CARRIED[9], NEW_FIELDS[9]);
      case 10 => assert NewMatches(CARRIED[10], NEW_FIELDS[10]);
      case 11 => assert NewMatches(CARRIED[11], NEW_FIELDS[11]);
      case 12 => assert NewMatches(CARRIED[12], NEW_FIELDS[12]);
      case 13 => assert NewMatches(CARRIED[13], NEW_FIELDS[13]);
      case 14 => assert NewMatches(CARRIED[14], NEW_FIELDS[14]);
      case _ => assert NewMatches(CARRIED[15], NEW_FIELDS[15]);
    }
  }

  lemma ThirdNew(i: nat)
    requires 16 <= i < 24 && |CARRIED| == |NEW_FIELDS| == 31
    ensures NewMatches(CARRIED[i], NEW_FIELDS[i])
  {
    match i {
      case 16 => assert NewMatches(CARRIED[16], NEW_FIELDS[16]);
      case 17 => assert NewMatches(CARRIED[17], NEW_FIELDS[17]);
      case 18 => assert NewMatches(CARRIED[18], NEW_FIELDS[18]);
      case 19 => assert NewMatches(CARRIED[19], NEW_FIELDS[19]);
      case 20 => assert NewMatches(CARRIED[20], NEW_FIELDS[20]);
      case 21 => assert NewMatches(CARRIED[21], NEW_FIELDS[21]);
      case 22 => assert NewMatches(CARRIED[22], NEW_FIELDS[22]);
      case _ => assert NewMatches(CARRIED[23], NEW_FIELDS[23]);
    }
  }

  lemma FourthNew(i: nat)
    requires 24 <= i < 31 && |CARRIED| == |NEW_FIELDS| == 31
    ensures NewMatches(CARRIED[i], NEW_FIELDS[i])
  {
    match i {
      case 24 => assert NewMatches(CARRIED[24], NEW_FIELDS[24]);
      case 25 => assert NewMatches(CARRIED[25], NEW_FIELDS[25]);
      case 26 => assert NewMatches(CARRIED[26], NEW_FIELDS[26]);
      case 27 => assert NewMatches(CARRIED[27], NEW_FIELDS[27]);
      case 28 => assert NewMatches(CARRIED[28], NEW_FIELDS[28]);
      case 29 => assert NewMatches(CARRIED[29], NEW_FIELDS[29]);
      case _ => assert NewMatches(CARRIED[30], NEW_FIELDS[30]);
    }
  }

  /** Every carried field is the legacy field and the current field that its place in the conversion names. */
  lemma CarriedPlaces(i: nat)
    requires i < 31
    ensures |CARRIED| == |OLD_FIELDS| == |NEW_FIELDS| == 31 && OLD_FIELDS[i] < |OLD_SIZES| && Known(NEW_FIELDS[i])
    ensures CARRIED[i].from == Offset(OLD_SIZES, OLD_FIELDS[i]) && CARRIED[i].to == Place(NEW_FIELDS[i])
    ensures CARRIED[i].size == OLD_SIZES[OLD_FIELDS[i]] == SizeOf(NEW_FIELDS[i])
  {
    match i / 4 {
      case 0 => FirstOld(i);
      case 1 => SecondOld(i);
      case 2 => ThirdOld(i);
      case 3 => FourthOld(i);
      case 4 => FifthOld(i);
      case 5 => SixthOld(i);
      case 6 => SeventhOld(i);
      case _ => EighthOld(i);
    }
    match i / 8 {
      case 0 => FirstNew(i);
      case 1 => SecondNew(i);
      case 2 => ThirdNew(i);
      case _ => FourthNew(i);
    }
    FieldPlaces(CARRIED[i], OLD_FIELDS[i], NEW_FIELDS[i]);
  }

  lemma FieldPlaces(m: Move, past: nat, f: NewField)
    requires OldMatches(m, past) && NewMatches(m, f)
    ensures m == Move(Offset(OLD_SIZES, past), Place(f), OLD_SIZES[past])
  {
    OldOffset(past);
    PlaceInNumbers(f);
  }

  /** Both records have 250 bytes: after the panels come a delay and the padding. */
  lemma RecordSizes()
    ensures Offset(OLD_SIZES, 42) == 250
    ensures Offset(NEW_SIZES, 17) + 9 * Offset(PANEL_SIZES, 7) + 1 + 32 + 17 == 250
  {
    OldOffset(42);
    NewOffset(17);
    PanelOffset(7);
  }
}
