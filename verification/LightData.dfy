/**
 What each pad is staged when lights are set, in terms of the caller's bytes: the first half
 of the data belongs to pad 0, the second to pad 1, and the commands '4', '2' and '3' carry a
 panel's inner grid, upper and lower half, each byte scaled.
 */
module LightData {
  import opened Bytes
  import opened LightCodec
  import opened LightQueue

  // ─── One command ──────────────────────────────────────────────────────────

  /** Two pads of nine panels with 16 or 25 LEDs of three bytes. */
  predicate IsFrame(lightData: seq<byte>) {
    |lightData| == 2 * 9 * 48 || |lightData| == 2 * 9 * 75
  }

  /** Byte `k` of a panel, as the pad is to show it; LEDs the data does not have are black. */
  function Shown(lightData: seq<byte>, pad: Pad, panel: nat, k: nat): byte
    requires IsFrame(lightData) && panel < 9
  {
    var stride := |lightData| / 18;
    if k < stride then
      var c: byte := lightData[pad * (9 * stride) + stride * panel + k];
      c as int * 6666 / 10000
    else 0
  }

  /** In the command, byte `i` of the `width` bytes a panel has there is the panel's byte `from + i`. */
  predicate ByteShown(cmd: seq<byte>, width: nat, lightData: seq<byte>, pad: Pad, panel: nat, from: nat, i: nat)
    requires IsFrame(lightData) && panel < 9 && i < width
  {
    1 + width * panel + i < |cmd| && cmd[1 + width * panel + i] == Shown(lightData, pad, panel, from + i)
  }

  /** The command shows `width` bytes of every panel, from byte `from` on. */
  predicate PanelsShown(cmd: seq<byte>, width: nat, lightData: seq<byte>, pad: Pad, from: nat)
    requires IsFrame(lightData)
  {
    forall panel, i :: 0 <= panel < 9 && 0 <= i < width ==> ByteShown(cmd, width, lightData, pad, panel, from, i)
  }

  /** The inner 3x3 grid: LED bytes 48 to 74 of every panel. */
  predicate IsInner(cmd: seq<byte>, lightData: seq<byte>, pad: Pad)
    requires IsFrame(lightData)
  {
    && |cmd| == 245 && cmd[0] == 0x34 && cmd[244] == 0x0A
    && PanelsShown(cmd, 27, lightData, pad, 48)
  }

  /** The upper half of the outer 4x4 grid: LED bytes 0 to 23 of every panel. */
  predicate IsUpper(cmd: seq<byte>, lightData: seq<byte>, pad: Pad)
    requires IsFrame(lightData)
  {
    && |cmd| == 218 && cmd[0] == 0x32 && cmd[217] == 0x0A
    && PanelsShown(cmd, 24, lightData, pad, 0)
  }

  /** The lower half: LED bytes 24 to 47. */
  predicate IsLower(cmd: seq<byte>, lightData: seq<byte>, pad: Pad)
    requires IsFrame(lightData)
  {
    && |cmd| == 218 && cmd[0] == 0x33 && cmd[217] == 0x0A
    && PanelsShown(cmd, 24, lightData, pad, 24)
  }

  /** A pad's half of the data. */
  function Half(lightData: seq<byte>, pad: Pad): (data: seq<byte>)
    requires IsFrame(lightData)
    ensures PadData(data)
  {
    if pad == 0 then lightData[..|lightData| / 2] else lightData[|lightData| / 2..]
  }

  /** Where the bytes of a part begin among a panel's. */
  function FirstByte(part: Part): nat {
    match part
    case Inner => 48
    case Upper => 0
    case Lower => 24
  }

  lemma LedPlace(lightData: seq<byte>, pad: Pad, panel: nat, k: nat)
    requires IsFrame(lightData) && panel < 9 && k < |lightData| / 18
    ensures var data := Half(lightData, pad);
      && Stride(data) == |lightData| / 18 && Stride(data) * panel + k < |data|
      && ScaleColor(data[Stride(data) * panel + k]) == Shown(lightData, pad, panel, k)
  {
  }

  /** A part of a panel is a cut out of its bytes, scaled. */
  lemma PartCut(data: seq<byte>, panel: nat, part: Part, i: nat)
    requires PadData(data) && panel < 9 && i < PartBytes(part) && FirstByte(part) + i < Stride(data)
    ensures |PanelPart(data, panel, part)| == PartBytes(part)
    ensures Stride(data) * panel + FirstByte(part) + i < |data|
    ensures PanelPart(data, panel, part)[i] == ScaleColor(data[Stride(data) * panel + FirstByte(part) + i])
  {
    var base := Stride(data) * panel;
    assert base + Stride(data) <= |data|;
    var from := base + FirstByte(part);
    assert PanelPart(data, panel, part) == Scaled(data[from..from + PartBytes(part)]);
  }

  lemma NoInner(data: seq<byte>, panel: nat, i: nat)
    requires PadData(data) && panel < 9 && i < 27 && Stride(data) == 48
    ensures |PanelPart(data, panel, Inner)| == 27 && PanelPart(data, panel, Inner)[i] == 0
  {
  }

  lemma PanelBytes(lightData: seq<byte>, pad: Pad, panel: nat, part: Part, i: nat)
    requires IsFrame(lightData) && panel < 9 && i < PartBytes(part)
    ensures |PanelPart(Half(lightData, pad), panel, part)| == PartBytes(part)
    ensures PanelPart(Half(lightData, pad), panel, part)[i] == Shown(lightData, pad, panel, FirstByte(part) + i)
  {
    var data := Half(lightData, pad);
    if FirstByte(part) + i < Stride(data) {
      PartCut(data, panel, part, i);
      LedPlace(lightData, pad, panel, FirstByte(part) + i);
    } else {
      NoInner(data, panel, i);
    }
  }

  lemma CommandByte(lightData: seq<byte>, pad: Pad, panel: nat, part: Part, i: nat)
    requires IsFrame(lightData) && panel < 9 && i < PartBytes(part)
    ensures ByteShown(LightsBody(Half(lightData, pad), part), PartBytes(part), lightData, pad, panel, FirstByte(part), i)
  {
    var data := Half(lightData, pad);
    LightsBodySize(data, part);
    PanelInCommand(data, panel, part);
    PanelBytes(lightData, pad, panel, part, i);
    assert CommandPanel(LightsBody(data, part), panel, part)[i] == LightsBody(data, part)[1 + PartBytes(part) * panel + i];
  }

  lemma CommandEnds(data: seq<byte>, part: Part)
    requires PadData(data)
    ensures var cmd := LightsBody(data, part);
      && |cmd| == (if part.Inner? then 245 else 218)
      && cmd[0] == (if part.Inner? then 0x34 else if part.Upper? then 0x32 else 0x33)
      && cmd[|cmd| - 1] == 0x0A
  {
    LightsBodySize(data, part);
  }

  predicate IsPart(cmd: seq<byte>, lightData: seq<byte>, pad: Pad, part: Part)
    requires IsFrame(lightData)
  {
    match part
    case Inner => IsInner(cmd, lightData, pad)
    case Upper => IsUpper(cmd, lightData, pad)
    case Lower => IsLower(cmd, lightData, pad)
  }

  lemma PartOfHalf(lightData: seq<byte>, pad: Pad, part: Part)
    requires IsFrame(lightData)
    ensures IsPart(LightsBody(Half(lightData, pad), part), lightData, pad, part)
  {
    CommandEnds(Half(lightData, pad), part);
    HalfShown(lightData, pad, part);
  }

  lemma HalfShown(lightData: seq<byte>, pad: Pad, part: Part)
    requires IsFrame(lightData)
    ensures PanelsShown(LightsBody(Half(lightData, pad), part), PartBytes(part), lightData, pad, FirstByte(part))
  {
    var cmd := LightsBody(Half(lightData, pad), part);
    forall panel, i | 0 <= panel < 9 && 0 <= i < PartBytes(part)
      ensures ByteShown(cmd, PartBytes(part), lightData, pad, panel, FirstByte(part), i)
    {
      CommandByte(lightData, pad, panel, part, i);
    }
  }

  // ─── Setting the lights ───────────────────────────────────────────────────

  /**
   A pad's share of the three commands of a frame: nothing for a pad that is not selected, the
   halves alone below version 4, else all three.
   */
  predicate Share(inner: seq<byte>, upper: seq<byte>, lower: seq<byte>, lightData: seq<byte>, pad: Pad,
                  selected: bool, version: byte)
    requires IsFrame(lightData)
  {
    && (if selected && version >= 4 then IsInner(inner, lightData, pad) else inner == [])
    && (if selected then IsUpper(upper, lightData, pad) && IsLower(lower, lightData, pad)
        else upper == [] && lower == [])
  }

  /** What a pad has in the last frame staged. */
  predicate LastShare(es: seq<Entry>, lightData: seq<byte>, pad: Pad, selected: bool, version: byte)
    requires IsFrame(lightData) && |es| >= 3
  {
    Share(es[|es| - 3].body.At(pad), es[|es| - 2].body.At(pad), es[|es| - 1].body.At(pad),
          lightData, pad, selected, version)
  }

  lemma CallShare(lightData: seq<byte>, pads: Pair<bool>, pad: Pad, version: byte)
    requires IsFrame(lightData)
    ensures var call := MakeCall(lightData, pads);
      Share(CommandFor(call, pad, Inner, Some(version)), CommandFor(call, pad, Upper, Some(version)),
            CommandFor(call, pad, Lower, Some(version)), lightData, pad, pads.At(pad), version)
  {
    assert MakeCall(lightData, pads).data.At(pad) == Half(lightData, pad);
    PartOfHalf(lightData, pad, Inner);
    PartOfHalf(lightData, pad, Upper);
    PartOfHalf(lightData, pad, Lower);
  }

  /**
   `es` is the queue `was` with a frame replaced or added: the pad's share is in the last three
   commands; a pad without configuration keeps its share of the replaced frame and has none of a
   new one; earlier commands stay.
   */
  predicate HalfStaged(was: seq<Entry>, es: seq<Entry>, lightData: seq<byte>, pad: Pad, selected: bool,
                       version: Option<byte>)
    requires IsFrame(lightData)
  {
    var replaced := |was| >= 3;
    && |es| == (if replaced then |was| else |was| + 3)
    && es[..|es| - 3] == (if replaced then was[..|was| - 3] else was)
    && (version.Some? ==> LastShare(es, lightData, pad, selected, version.value))
    && (version.None? ==> forall i :: |es| - 3 <= i < |es| ==>
          es[i].body.At(pad) == if replaced then was[i].body.At(pad) else [])
  }

  lemma RewrittenShare(e: Entry, call: Call, index: nat, versions: Pair<Option<byte>>, pad: Pad)
    requires ValidCall(call)
    ensures Rewritten(e, call, index, versions).body.At(pad)
         == if versions.At(pad).None? then e.body.At(pad) else CommandFor(call, pad, e.part, versions.At(pad))
  {
  }

  /** `es` is `was` with the commands of its last frame rewritten for the call. */
  predicate LastRewritten(was: seq<Entry>, es: seq<Entry>, call: Call, index: nat, versions: Pair<Option<byte>>)
    requires ValidCall(call) && |was| >= 3
  {
    var base := |was| - 3;
    && |es| == |was| && es[..base] == was[..base]
    && es[base] == Rewritten(was[base], call, index, versions) && was[base].part == Inner
    && es[base + 1] == Rewritten(was[base + 1], call, index, versions) && was[base + 1].part == Upper
    && es[base + 2] == Rewritten(was[base + 2], call, index, versions) && was[base + 2].part == Lower
  }

  lemma ReplacedEntries(q: Stage, call: Call, index: nat, versions: Pair<Option<byte>>)
    requires ValidCall(call) && Scheduled(q) && |q.entries| >= 3
    ensures LastRewritten(q.entries, Replaced(q, call, index, versions).entries, call, index, versions)
  {
  }

  lemma RewrittenHalf(was: seq<Entry>, es: seq<Entry>, lightData: seq<byte>, pads: Pair<bool>, index: nat,
                      versions: Pair<Option<byte>>, pad: Pad)
    requires IsFrame(lightData) && |was| >= 3
    requires LastRewritten(was, es, MakeCall(lightData, pads), index, versions)
    ensures HalfStaged(was, es, lightData, pad, pads.At(pad), versions.At(pad))
  {
    var call, base, version := MakeCall(lightData, pads), |was| - 3, versions.At(pad);
    forall i | base <= i < |was|
      ensures es[i].body.At(pad) == if version.None? then was[i].body.At(pad)
                                    else CommandFor(call, pad, was[i].part, version)
    {
      RewrittenShare(was[i], call, index, versions, pad);
      assert i in {base, base + 1, base + 2};
    }
    if version.Some? {
      CallShare(lightData, pads, pad, version.value);
    }
  }

  lemma ReplacedShare(q: Stage, lightData: seq<byte>, pads: Pair<bool>, versions: Pair<Option<byte>>,
                      index: nat, pad: Pad)
    requires IsFrame(lightData) && Scheduled(q) && |q.entries| >= 3
    ensures HalfStaged(q.entries, Replaced(q, MakeCall(lightData, pads), index, versions).entries,
                       lightData, pad, pads.At(pad), versions.At(pad))
  {
    var es := Replaced(q, MakeCall(lightData, pads), index, versions).entries;
    ReplacedEntries(q, MakeCall(lightData, pads), index, versions);
    RewrittenHalf(q.entries, es, lightData, pads, index, versions, pad);
  }

  lemma AppendedShare(q: Stage, lightData: seq<byte>, pads: Pair<bool>, versions: Pair<Option<byte>>,
                      index: nat, now: nat, pad: Pad)
    requires IsFrame(lightData) && |q.entries| < 3
    ensures HalfStaged(q.entries, Appended(q, MakeCall(lightData, pads), index, versions, now).entries,
                       lightData, pad, pads.At(pad), versions.At(pad))
  {
    if versions.At(pad).Some? {
      CallShare(lightData, pads, pad, versions.At(pad).value);
    }
  }

  /** Data that is no frame, and any data in test mode, stages nothing; nor does it without a configuration. */
  lemma NothingSet(q: Stage, lightData: seq<byte>, pads: Pair<bool>, versions: Pair<Option<byte>>,
                   testMode: bool, now: nat)
    requires testMode || !IsFrame(lightData)
             || (|q.entries| < 3 && versions.first.None? && versions.second.None?)
    ensures LightsSet(q, lightData, pads, versions, testMode, now).entries == q.entries
    ensures LightsSet(q, lightData, pads, versions, testMode, now).delayUntil == q.delayUntil
  {
  }

  /** Each pad gets its own half of the data, whether a frame is added or the staged one replaced. */
  lemma PadsGetTheirHalf(q: Stage, lightData: seq<byte>, pads: Pair<bool>, versions: Pair<Option<byte>>,
                         now: nat, pad: Pad)
    requires Scheduled(q) && IsFrame(lightData)
    requires |q.entries| >= 3 || versions.first.Some? || versions.second.Some?
    ensures HalfStaged(q.entries, LightsSet(q, lightData, pads, versions, false, now).entries,
                       lightData, pad, pads.At(pad), versions.At(pad))
  {
    var p := q.(calls := q.calls + [MakeCall(lightData, pads)]);
    if |q.entries| >= 3 {
      ReplacedShare(p, lightData, pads, versions, |q.calls|, pad);
    } else {
      AppendedShare(p, lightData, pads, versions, |q.calls|, now, pad);
    }
  }

  /**
   A new frame starts no earlier than now and the delay: its first two commands are due then, and
   the last one too if some pad has version 4, else a sixtieth of a second later. The next frame
   may start a thirtieth of a second after this one. A frame that is replaced keeps its times.
   */
  lemma FramesAreTimed(q: Stage, lightData: seq<byte>, pads: Pair<bool>, versions: Pair<Option<byte>>, now: nat)
    requires Scheduled(q) && IsFrame(lightData)
    requires |q.entries| >= 3 || versions.first.Some? || versions.second.Some?
    ensures var r := LightsSet(q, lightData, pads, versions, false, now);
      var start := if q.delayUntil.Some? && q.delayUntil.value > now then q.delayUntil.value else now;
      var v4 := (versions.first.Some? && versions.first.value >= 4)
                || (versions.second.Some? && versions.second.value >= 4);
      var n := |q.entries|;
      if n >= 3 then
        r.delayUntil == q.delayUntil && |r.entries| == n
        && forall i :: 0 <= i < n ==> r.entries[i].sendAt == q.entries[i].sendAt
      else
        && |r.entries| == n + 3 && r.delayUntil == Some(start + 33_333_333)
        && r.entries[n].sendAt == start && r.entries[n + 1].sendAt == start
        && r.entries[n + 2].sendAt == start + if v4 then 0 else 16_666_667
  {
    if |q.entries| >= 3 {
      var call := MakeCall(lightData, pads);
      ReplaceKeepsTimes(q.(calls := q.calls + [call]), call, |q.calls|, versions);
    }
  }

  lemma ReplaceKeepsTimes(q: Stage, call: Call, index: nat, versions: Pair<Option<byte>>)
    requires ValidCall(call) && |q.entries| >= 3
    ensures var r := Replaced(q, call, index, versions);
      r.delayUntil == q.delayUntil && |r.entries| == |q.entries|
      && forall i :: 0 <= i < |q.entries| ==> r.entries[i].sendAt == q.entries[i].sendAt
  {
  }
}
