/**
 The staged light frames of the manager: scheduling, replacing and draining, as
 functions on values.

 The fields `triple`, `part` and `calls` of an entry and `calls`, `triples` and
 `starts` of the queue are history: they say which frame a command came from and
 are read only by the properties.
 */
module LightQueue {
  import opened Bytes
  import opened LightCodec

  // Nanoseconds: 1/30 s and 1/60 s, rounded as Duration::from_secs_f64 does.
  const FRAME_INTERVAL: nat := 33_333_333
  const LEGACY_COMMAND_DELAY: nat := 16_666_667

  /** One call that sets lights: each pad's LED data, and whether the pad was selected. */
  datatype Call = Call(data: Pair<seq<byte>>, pads: Pair<bool>)

  /** A scheduled command for both pads; an empty body sends nothing. */
  datatype Entry = Entry(sendAt: nat, body: Pair<seq<byte>>, triple: nat, part: Part, calls: Pair<nat>)

  datatype Stage = Stage(
    entries: seq<Entry>,
    delayUntil: Option<nat>,
    calls: seq<Call>,
    triples: nat,
    starts: seq<nat>)

  const EMPTY_STAGE := Stage([], None, [], 0, [])

  predicate FrameData(lightData: seq<byte>) {
    |lightData| == 2 * BYTES_PER_PAD_16 || |lightData| == 2 * BYTES_PER_PAD_25
  }

  function MakeCall(lightData: seq<byte>, pads: Pair<bool>): (call: Call)
    requires FrameData(lightData)
    ensures ValidCall(call)
  {
    var half := |lightData| / 2;
    Call(Pair(lightData[..half], lightData[half..]), pads)
  }

  predicate ValidCall(call: Call) {
    PadData(call.data.first) && PadData(call.data.second)
  }

  /** The command a call has for one pad, given the pad's master version. */
  function CommandFor(call: Call, pad: Pad, part: Part, version: Option<byte>): seq<byte>
    requires ValidCall(call)
  {
    if version.None? || !call.pads.At(pad) || (part.Inner? && version.value < 4) then []
    else LightsBody(call.data.At(pad), part)
  }

  function BodyFor(call: Call, part: Part, versions: Pair<Option<byte>>): Pair<seq<byte>>
    requires ValidCall(call)
  {
    Pair(CommandFor(call, 0, part, versions.first), CommandFor(call, 1, part, versions.second))
  }

  predicate AnyConfig(versions: Pair<Option<byte>>) {
    versions.first.Some? || versions.second.Some?
  }

  predicate IsVersion4(version: Option<byte>) {
    version.Some? && version.value >= 4
  }

  /** When the next frame may start. */
  function StartTime(q: Stage, now: nat): nat {
    if q.delayUntil.Some? then Max(q.delayUntil.value, now) else now
  }

  /** The last command of a frame is delayed unless some pad runs version 4. */
  function LastTime(start: nat, versions: Pair<Option<byte>>): nat {
    if IsVersion4(versions.first) || IsVersion4(versions.second) then start else start + LEGACY_COMMAND_DELAY
  }

  function FrameEntries(call: Call, index: nat, triple: nat, versions: Pair<Option<byte>>, start: nat): seq<Entry>
    requires ValidCall(call)
  {
    [Entry(start, BodyFor(call, Inner, versions), triple, Inner, Pair(index, index)),
     Entry(start, BodyFor(call, Upper, versions), triple, Upper, Pair(index, index)),
     Entry(LastTime(start, versions), BodyFor(call, Lower, versions), triple, Lower, Pair(index, index))]
  }

  function Appended(q: Stage, call: Call, index: nat, versions: Pair<Option<byte>>, now: nat): Stage
    requires ValidCall(call)
  {
    var start := StartTime(q, now);
    q.(entries := q.entries + FrameEntries(call, index, q.triples, versions, start),
       delayUntil := Some(start + FRAME_INTERVAL),
       triples := q.triples + 1,
       starts := q.starts + [start])
  }

  /** A pad without a config keeps what the entry had for it. */
  function RewrittenPad(e: Entry, call: Call, index: nat, version: Option<byte>, pad: Pad): Entry
    requires ValidCall(call)
  {
    if version.None? then e
    else e.(body := e.body.With(pad, CommandFor(call, pad, e.part, version)), calls := e.calls.With(pad, index))
  }

  function Rewritten(e: Entry, call: Call, index: nat, versions: Pair<Option<byte>>): Entry
    requires ValidCall(call)
  {
    RewrittenPad(RewrittenPad(e, call, index, versions.first, 0), call, index, versions.second, 1)
  }

  function Replaced(q: Stage, call: Call, index: nat, versions: Pair<Option<byte>>): Stage
    requires ValidCall(call) && |q.entries| >= 3
  {
    var base := |q.entries| - 3;
    q.(entries := q.entries[..base] + [Rewritten(q.entries[base], call, index, versions),
                                       Rewritten(q.entries[base + 1], call, index, versions),
                                       Rewritten(q.entries[base + 2], call, index, versions)])
  }

  /** `set_lights_inner`: `versions` holds the master version of each pad that has a config. */
  function LightsSet(q: Stage, lightData: seq<byte>, pads: Pair<bool>, versions: Pair<Option<byte>>,
                     testMode: bool, now: nat): Stage
  {
    if testMode || !FrameData(lightData) then q
    else
      var call := MakeCall(lightData, pads);
      var index := |q.calls|;
      var p := q.(calls := q.calls + [call]);
      if |q.entries| >= 3 then Replaced(p, call, index, versions)
      else if AnyConfig(versions) then Appended(p, call, index, versions, now)
      else p
  }

  /** How many leading entries are due. */
  function DueCount(entries: seq<Entry>, now: nat): (n: nat)
    ensures n <= |entries|
    ensures forall i :: 0 <= i < n ==> entries[i].sendAt <= now
    ensures n < |entries| ==> entries[n].sendAt > now
  {
    if entries == [] || entries[0].sendAt > now then 0 else 1 + DueCount(entries[1..], now)
  }

  function Drained(q: Stage, n: nat): Stage
    requires n <= |q.entries|
  {
    q.(entries := q.entries[n..])
  }

  function Muted(e: Entry, pad: Pad): Entry {
    e.(body := e.body.With(pad, []))
  }

  /** Takes one pad's share out of every staged command. */
  function PadMuted(q: Stage, pad: Pad): Stage {
    q.(entries := seq(|q.entries|, i requires 0 <= i < |q.entries| => Muted(q.entries[i], pad)))
  }

  // ─── Shape ────────────────────────────────────────────────────────────────

  /** The three commands of one frame, in order. */
  predicate WholeFrame(es: seq<Entry>) {
    && |es| == 3
    && es[0].part.Inner? && es[1].part.Upper? && es[2].part.Lower?
    && es[0].triple == es[1].triple == es[2].triple
    && es[0].sendAt == es[1].sendAt <= es[2].sendAt
  }

  /** Nothing, the delayed last command of a frame, a whole frame, or the former then the latter. */
  predicate Shape(es: seq<Entry>) {
    || es == []
    || (|es| == 1 && es[0].part.Lower?)
    || WholeFrame(es)
    || (|es| == 4 && es[0].part.Lower? && WholeFrame(es[1..])
        && es[0].triple < es[1].triple && es[0].sendAt <= es[1].sendAt)
  }

  predicate Scheduled(q: Stage) {
    && Shape(q.entries)
    && (forall i :: 0 <= i < |q.entries| ==> q.entries[i].triple < q.triples)
    && (q.entries != [] ==>
          q.delayUntil.Some? && q.entries[|q.entries| - 1].sendAt <= q.delayUntil.value)
    && |q.starts| == q.triples
    && (q.starts != [] ==>
          q.delayUntil == Some(q.starts[|q.starts| - 1] + FRAME_INTERVAL))
    && (forall i :: 0 < i < |q.starts| ==> q.starts[i - 1] + FRAME_INTERVAL <= q.starts[i])
  }

  lemma AppendScheduled(q: Stage, call: Call, index: nat, versions: Pair<Option<byte>>, now: nat)
    requires Scheduled(q) && ValidCall(call) && |q.entries| < 3
    ensures Scheduled(Appended(q, call, index, versions, now))
  {
    var frame := FrameEntries(call, index, q.triples, versions, StartTime(q, now));
    if q.entries == [] {
      assert q.entries + frame == frame;
    } else {
      assert (q.entries + frame)[1..] == frame;
    }
  }

  lemma ReplaceScheduled(q: Stage, call: Call, index: nat, versions: Pair<Option<byte>>)
    requires Scheduled(q) && ValidCall(call) && |q.entries| >= 3
    ensures Scheduled(Replaced(q, call, index, versions))
  {
  }

  lemma SetLightsScheduled(q: Stage, lightData: seq<byte>, pads: Pair<bool>, versions: Pair<Option<byte>>,
                           testMode: bool, now: nat)
    requires Scheduled(q)
    ensures Scheduled(LightsSet(q, lightData, pads, versions, testMode, now))
  {
    if !testMode && FrameData(lightData) {
      var call := MakeCall(lightData, pads);
      var p := q.(calls := q.calls + [call]);
      if |q.entries| >= 3 {
        ReplaceScheduled(p, call, |q.calls|, versions);
      } else if AnyConfig(versions) {
        AppendScheduled(p, call, |q.calls|, versions, now);
      }
    }
  }

  lemma DrainScheduled(q: Stage, now: nat)
    requires Scheduled(q)
    ensures Scheduled(Drained(q, DueCount(q.entries, now)))
  {
    var n := DueCount(q.entries, now);
    if |q.entries| == 4 {
      assert q.entries[1..][1..] == q.entries[2..];
      assert n != 2;
    }
  }

  lemma MuteScheduled(q: Stage, pad: Pad)
    requires Scheduled(q)
    ensures Scheduled(PadMuted(q, pad))
  {
  }

  /** Staged commands are in sending order, so the drained prefix is exactly the due ones. */
  lemma DuePrefixIsAllDue(q: Stage, now: nat, i: nat)
    requires Scheduled(q) && i < |q.entries|
    ensures q.entries[0].sendAt <= q.entries[i].sendAt
    ensures i < DueCount(q.entries, now) <==> q.entries[i].sendAt <= now
  {
  }

  lemma ShapeLengths(q: Stage)
    requires Scheduled(q)
    ensures |q.entries| in {0, 1, 3, 4}
  {
  }

  // ─── Frames are not torn ──────────────────────────────────────────────────

  /** A staged body is what one call encoded for that pad and part. */
  predicate BodyFromCall(body: seq<byte>, call: nat, pad: Pad, part: Part, calls: seq<Call>) {
    body == [] || (call < |calls| && ValidCall(calls[call]) && calls[call].pads.At(pad)
                   && body == LightsBody(calls[call].data.At(pad), part))
  }

  predicate EntryFromCalls(e: Entry, calls: seq<Call>) {
    forall pad: Pad :: BodyFromCall(e.body.At(pad), e.calls.At(pad), pad, e.part, calls)
  }

  predicate FromCalls(q: Stage) {
    forall i :: 0 <= i < |q.entries| ==> EntryFromCalls(q.entries[i], q.calls)
  }

  /** Per pad, the commands of one frame come from one call. */
  predicate Untorn(es: seq<Entry>) {
    forall i, j :: 0 <= i < |es| && 0 <= j < |es| && es[i].triple == es[j].triple ==> es[i].calls == es[j].calls
  }

  predicate Sound(q: Stage) {
    Scheduled(q) && FromCalls(q) && Untorn(q.entries)
  }

  lemma CallsGrow(e: Entry, calls: seq<Call>, call: Call)
    requires EntryFromCalls(e, calls)
    ensures EntryFromCalls(e, calls + [call])
  {
    forall pad: Pad
      ensures BodyFromCall(e.body.At(pad), e.calls.At(pad), pad, e.part, calls + [call])
    {
      assert BodyFromCall(e.body.At(pad), e.calls.At(pad), pad, e.part, calls);
    }
  }

  lemma FrameFromCall(calls: seq<Call>, call: Call, triple: nat, versions: Pair<Option<byte>>, start: nat, k: nat)
    requires ValidCall(call) && k < 3
    ensures EntryFromCalls(FrameEntries(call, |calls|, triple, versions, start)[k], calls + [call])
  {
  }

  lemma RewrittenFromCall(e: Entry, calls: seq<Call>, call: Call, versions: Pair<Option<byte>>)
    requires ValidCall(call) && EntryFromCalls(e, calls)
    ensures EntryFromCalls(Rewritten(e, call, |calls|, versions), calls + [call])
  {
    CallsGrow(e, calls, call);
    var f := Rewritten(e, call, |calls|, versions);
    forall pad: Pad
      ensures BodyFromCall(f.body.At(pad), f.calls.At(pad), pad, f.part, calls + [call])
    {
      assert BodyFromCall(e.body.At(pad), e.calls.At(pad), pad, e.part, calls + [call]);
    }
  }

  lemma AppendFromCalls(q: Stage, call: Call, versions: Pair<Option<byte>>, now: nat)
    requires FromCalls(q) && ValidCall(call)
    ensures FromCalls(Appended(q.(calls := q.calls + [call]), call, |q.calls|, versions, now))
  {
    var p := q.(calls := q.calls + [call]);
    var t := Appended(p, call, |q.calls|, versions, now);
    forall i | 0 <= i < |t.entries|
      ensures EntryFromCalls(t.entries[i], t.calls)
    {
      if i < |q.entries| {
        CallsGrow(q.entries[i], q.calls, call);
      } else {
        FrameFromCall(q.calls, call, q.triples, versions, StartTime(q, now), i - |q.entries|);
      }
    }
  }

  /** A new frame has a number no staged command has. */
  lemma AppendUntorn(q: Stage, call: Call, index: nat, versions: Pair<Option<byte>>, now: nat)
    requires ValidCall(call) && Untorn(q.entries)
    requires forall i :: 0 <= i < |q.entries| ==> q.entries[i].triple < q.triples
    ensures Untorn(Appended(q, call, index, versions, now).entries)
  {
    var es := Appended(q, call, index, versions, now).entries;
    forall i | |q.entries| <= i < |es|
      ensures es[i].triple == q.triples && es[i].calls == Pair(index, index)
    {
    }
  }

  lemma AppendSound(q: Stage, call: Call, versions: Pair<Option<byte>>, now: nat)
    requires Sound(q) && ValidCall(call) && |q.entries| < 3
    ensures Sound(Appended(q.(calls := q.calls + [call]), call, |q.calls|, versions, now))
  {
    var p := q.(calls := q.calls + [call]);
    AppendScheduled(p, call, |q.calls|, versions, now);
    AppendFromCalls(q, call, versions, now);
    AppendUntorn(p, call, |q.calls|, versions, now);
  }

  lemma ReplaceFromCalls(q: Stage, call: Call, versions: Pair<Option<byte>>)
    requires FromCalls(q) && ValidCall(call) && |q.entries| >= 3
    ensures FromCalls(Replaced(q.(calls := q.calls + [call]), call, |q.calls|, versions))
  {
    var p := q.(calls := q.calls + [call]);
    var t := Replaced(p, call, |q.calls|, versions);
    forall i | 0 <= i < |t.entries|
      ensures EntryFromCalls(t.entries[i], t.calls)
    {
      if i < |q.entries| - 3 {
        CallsGrow(q.entries[i], q.calls, call);
      } else {
        assert t.entries[i] == Rewritten(q.entries[i], call, |q.calls|, versions);
        RewrittenFromCall(q.entries[i], q.calls, call, versions);
      }
    }
  }

  /** A replace hits all three commands of a frame alike. */
  lemma ReplaceUntorn(q: Stage, call: Call, index: nat, versions: Pair<Option<byte>>)
    requires Scheduled(q) && Untorn(q.entries) && ValidCall(call) && |q.entries| >= 3
    ensures Untorn(Replaced(q, call, index, versions).entries)
  {
    var es := Replaced(q, call, index, versions).entries;
    var base := |q.entries| - 3;
    var first := q.entries[base];
    forall i | base <= i < |es|
      ensures es[i].triple == first.triple && es[i].calls == Rewritten(first, call, index, versions).calls
    {
      assert es[i] == Rewritten(q.entries[i], call, index, versions);
      assert q.entries[i].triple == first.triple;
    }
  }

  lemma ReplaceSound(q: Stage, call: Call, versions: Pair<Option<byte>>)
    requires Sound(q) && ValidCall(call) && |q.entries| >= 3
    ensures Sound(Replaced(q.(calls := q.calls + [call]), call, |q.calls|, versions))
  {
    var p := q.(calls := q.calls + [call]);
    ReplaceScheduled(p, call, |q.calls|, versions);
    ReplaceFromCalls(q, call, versions);
    ReplaceUntorn(p, call, |q.calls|, versions);
  }

  lemma SetLightsSound(q: Stage, lightData: seq<byte>, pads: Pair<bool>, versions: Pair<Option<byte>>,
                       testMode: bool, now: nat)
    requires Sound(q)
    ensures Sound(LightsSet(q, lightData, pads, versions, testMode, now))
  {
    if !testMode && FrameData(lightData) {
      var call := MakeCall(lightData, pads);
      if |q.entries| >= 3 {
        ReplaceSound(q, call, versions);
      } else if AnyConfig(versions) {
        AppendSound(q, call, versions, now);
      } else {
        forall i | 0 <= i < |q.entries|
          ensures EntryFromCalls(q.entries[i], q.calls + [call])
        {
          CallsGrow(q.entries[i], q.calls, call);
        }
      }
    }
  }

  lemma DrainSound(q: Stage, now: nat)
    requires Sound(q)
    ensures Sound(Drained(q, DueCount(q.entries, now)))
  {
    DrainScheduled(q, now);
  }

  lemma MuteSound(q: Stage, pad: Pad)
    requires Sound(q)
    ensures Sound(PadMuted(q, pad))
  {
    MuteScheduled(q, pad);
    forall i | 0 <= i < |q.entries|
      ensures EntryFromCalls(Muted(q.entries[i], pad), q.calls)
    {
      assert EntryFromCalls(q.entries[i], q.calls);
    }
  }
}
