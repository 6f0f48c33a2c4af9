/**
 Playing loaded animations: choosing each panel's frame, overlaying the pressed
 animation on the released one, and advancing time.
 */
module Playback {
  import opened Bytes
  import opened Palette
  import opened Frames
  import opened SinglePrecision
  import S = SensorCodec

  const LEDS_OUT := 25
  const PANEL_BYTES := 75
  const PAD_BYTES := 675

  /** Per panel the LEDs of every frame. */
  datatype Animation = Animation(frames: seq<seq<PanelFrame>>, durations: seq<real>, loopFrame: nat)

  /**
   History: the advances and the frames ended since the last reset, and the most that the
   rounding of single precision may have added to or taken from the time since then.
   */
  datatype PanelPlayback = PanelPlayback(current: nat, time: real, playing: bool,
                                         ticks: nat, finished: seq<nat>, slack: real)

  const RESET := PanelPlayback(0, 0.0, false, 0, [], 0.0)

  datatype TypeSlot = TypeSlot(anim: Option<Animation>, playback: seq<PanelPlayback>)
  datatype PadAnimations = PadAnimations(released: TypeSlot, pressed: TypeSlot)

  const ALL_RESET: seq<PanelPlayback> := [RESET, RESET, RESET, RESET, RESET, RESET, RESET, RESET, RESET]
  const NO_SLOT := TypeSlot(None, ALL_RESET)
  const NO_ANIMATIONS := PadAnimations(NO_SLOT, NO_SLOT)

  datatype Kind = Released | Pressed
  datatype LoadError = InvalidPad | NoFrames | WrongSize

  predicate ValidAnimation(a: Animation) {
    && |a.frames| == NUM_PANELS
    && (forall p :: 0 <= p < NUM_PANELS ==> |a.frames[p]| == |a.durations|)
    && a.loopFrame < |a.durations|
  }

  // ─── Loading ──────────────────────────────────────────────────────────────

  function Refused(frames: seq<Frame>, pad: nat): Option<LoadError> {
    if pad > 1 then Some(InvalidPad)
    else if frames == [] then Some(NoFrames)
    else if !(frames[0].width == 14 && frames[0].height == 15) && !(frames[0].width == 23 && frames[0].height == 24) then
      Some(WrongSize)
    else None
  }

  function LedsOf(frames: seq<Frame>, panel: nat): (leds: seq<PanelFrame>)
    requires panel < NUM_PANELS && (AllSized(frames, 14, 15) || AllSized(frames, 23, 24))
    ensures |leds| == |frames|
  {
    seq(|frames|, f requires 0 <= f < |frames| => PanelLeds(frames[f], panel))
  }

  function DurationsOf(frames: seq<Frame>): (ds: seq<real>)
    ensures |ds| == |frames|
  {
    seq(|frames|, f requires 0 <= f < |frames| => frames[f].duration)
  }

  function Loaded(frames: seq<Frame>): (a: Animation)
    requires frames != [] && (AllSized(frames, 14, 15) || AllSized(frames, 23, 24))
    ensures ValidAnimation(a)
  {
    Animation(seq(NUM_PANELS, p requires 0 <= p < NUM_PANELS => LedsOf(frames, p)),
              DurationsOf(frames),
              LoopFrame(frames, frames[0].width, frames[0].height))
  }

  // ─── Advancing ────────────────────────────────────────────────────────────

  // `round` is what every result of the frame times' arithmetic goes through; the object uses `Single`.

  /** The time one frame of light data lasts. */
  function FrameTime(round: real -> real): real {
    round(1.0 / 30.0)
  }

  function Next(a: Animation, frame: nat): nat {
    if frame + 1 >= |a.durations| then a.loopFrame else frame + 1
  }

  function Advanced(round: real -> real, a: Animation, p: PanelPlayback): PanelPlayback
    requires p.current < |a.durations|
  {
    if !p.playing then p
    else
      var sum := p.time + FrameTime(round);
      var time := round(sum);
      var q := p.(ticks := p.ticks + 1, slack := p.slack + Slack(sum));
      if time >= a.durations[p.current] then
        var left := time - a.durations[p.current];
        q.(time := round(left), slack := q.slack + Slack(left),
           current := Next(a, p.current), finished := p.finished + [p.current])
      else q.(time := time)
  }

  /** A released animation always plays; a pressed one plays while the panel is pressed. */
  function Noted(kind: Kind, pressed: bool, p: PanelPlayback): PanelPlayback {
    if kind.Released? || pressed then p.(playing := true) else RESET
  }

  predicate InRange(s: TypeSlot) {
    && |s.playback| == NUM_PANELS
    && (s.anim.Some? ==> ValidAnimation(s.anim.value))
    && (s.anim.Some? ==> forall p :: 0 <= p < NUM_PANELS ==> s.playback[p].current < |s.anim.value.durations|)
  }

  predicate PadInRange(p: PadAnimations) {
    InRange(p.released) && InRange(p.pressed)
  }

  predicate IsPressed(input: nat, panel: nat) {
    S.Bit(input, panel) != 0
  }

  function PanelBuilt(round: real -> real, s: TypeSlot, kind: Kind, input: nat, panel: nat): PanelPlayback
    requires InRange(s) && panel < NUM_PANELS
  {
    if s.anim.None? then s.playback[panel]
    else Advanced(round, s.anim.value, Noted(kind, IsPressed(input, panel), s.playback[panel]))
  }

  function SlotBuilt(round: real -> real, s: TypeSlot, kind: Kind, input: nat): TypeSlot
    requires InRange(s)
  {
    s.(playback := seq(NUM_PANELS, p requires 0 <= p < NUM_PANELS => PanelBuilt(round, s, kind, input, p)))
  }

  function PadBuilt(round: real -> real, p: PadAnimations, input: nat): PadAnimations
    requires PadInRange(p)
  {
    PadAnimations(SlotBuilt(round, p.released, Released, input), SlotBuilt(round, p.pressed, Pressed, input))
  }

  // ─── What is shown ────────────────────────────────────────────────────────

  /** The LEDs the current frame of a slot has for a panel. */
  function CurrentLeds(s: TypeSlot, panel: nat): PanelFrame
    requires InRange(s) && panel < NUM_PANELS
  {
    if s.anim.None? then [] else s.anim.value.frames[panel][s.playback[panel].current]
  }

  /** A pressed, non-black LED wins over the released one; an LED neither has stays black. */
  function LedShown(under: PanelFrame, over: PanelFrame, led: nat): Color {
    if led < |over| && over[led] != BLACK then over[led]
    else if led < |under| then under[led]
    else BLACK
  }

  function OverlayLeds(p: PadAnimations, input: nat, panel: nat): PanelFrame
    requires PadInRange(p) && panel < NUM_PANELS
  {
    if IsPressed(input, panel) then CurrentLeds(p.pressed, panel) else []
  }

  /** LED `led` of the panel at `offset`. */
  function LedIn(data: seq<byte>, offset: nat, led: nat): Color
    requires offset + 3 * led + 3 <= |data|
  {
    Color(data[offset + 3 * led], data[offset + 3 * led + 1], data[offset + 3 * led + 2])
  }

  /** The 25 LEDs of one panel lie at `offset`. */
  predicate PanelShown(data: seq<byte>, offset: nat, under: PanelFrame, over: PanelFrame)
    requires offset + PANEL_BYTES <= |data|
  {
    forall led :: 0 <= led < LEDS_OUT ==> LedIn(data, offset, led) == LedShown(under, over, led)
  }

  /** Every panel of a pad is shown, at its place in the light data. */
  predicate PadShown(data: seq<byte>, start: nat, p: PadAnimations, input: nat, panels: nat)
    requires PadInRange(p) && panels <= NUM_PANELS && start + PAD_BYTES <= |data|
  {
    forall panel :: 0 <= panel < panels ==>
      PanelShown(data, start + PANEL_BYTES * panel, CurrentLeds(p.released, panel), OverlayLeds(p, input, panel))
  }

  /** Puts one LED of the panel at `offset`. */
  method PutLed(out: array<byte>, offset: nat, led: nat, c: Color)
    requires offset + PANEL_BYTES <= out.Length && led < LEDS_OUT
    modifies out
    ensures forall i :: 0 <= i < out.Length && !(offset <= i < offset + PANEL_BYTES) ==> out[i] == old(out[i])
    ensures forall k :: 0 <= k < LEDS_OUT ==>
      LedIn(out[..], offset, k) == if k == led then c else LedIn(old(out[..]), offset, k)
  {
    var at := offset + 3 * led;
    out[at], out[at + 1], out[at + 2] := c.r, c.g, c.b;
  }

  /** Copies the released LEDs, then lays the pressed ones over them. */
  method FillPanel(out: array<byte>, offset: nat, under: PanelFrame, over: PanelFrame)
    requires offset + PANEL_BYTES <= out.Length
    requires forall i :: offset <= i < offset + PANEL_BYTES ==> out[i] == 0
    modifies out
    ensures PanelShown(out[..], offset, under, over)
    ensures forall i :: 0 <= i < out.Length && !(offset <= i < offset + PANEL_BYTES) ==> out[i] == old(out[i])
  {
    for led := 0 to Min(LEDS_OUT, |under|)
      invariant forall i :: 0 <= i < out.Length && !(offset <= i < offset + PANEL_BYTES) ==> out[i] == old(out[i])
      invariant forall k :: 0 <= k < LEDS_OUT ==>
        LedIn(out[..], offset, k) == if k < led then under[k] else BLACK
    {
      PutLed(out, offset, led, under[led]);
    }
    for led := 0 to Min(|over|, LEDS_OUT)
      invariant forall i :: 0 <= i < out.Length && !(offset <= i < offset + PANEL_BYTES) ==> out[i] == old(out[i])
      invariant forall k :: 0 <= k < LEDS_OUT ==>
        LedIn(out[..], offset, k) == LedShown(under, over[..led], k)
    {
      if over[led] != BLACK {
        PutLed(out, offset, led, over[led]);
      }
    }
  }

  // ─── The animations as an object ──────────────────────────────────────────

  class AnimationState {
    var pads: Pair<PadAnimations>

    ghost predicate Valid()
      reads this
    {
      PadInRange(pads.first) && PadInRange(pads.second)
    }

    constructor ()
      ensures Valid() && pads == Pair(NO_ANIMATIONS, NO_ANIMATIONS)
    {
      pads := Pair(NO_ANIMATIONS, NO_ANIMATIONS);
    }

    /** Takes decoded frames of one size into a slot and starts it over. */
    method Load(frames: seq<Frame>, pad: nat, kind: Kind) returns (error: Option<LoadError>)
      requires Valid() && OneSize(frames)
      modifies this
      ensures Valid() && error == Refused(frames, pad)
      ensures pads == AfterLoad(old(pads), frames, pad, kind)
    {
      if pad > 1 {
        return Some(InvalidPad);
      }
      if frames == [] {
        return Some(NoFrames);
      }
      var w, h := frames[0].width, frames[0].height;
      if !((w == 14 && h == 15) || (w == 23 && h == 24)) {
        return Some(WrongSize);
      }
      var anim := BuildAnimation(frames);
      var p := pads.At(pad);
      var slot := TypeSlot(Some(anim), ALL_RESET);
      pads := pads.With(pad, if kind.Released? then p.(released := slot) else p.(pressed := slot));
      return None;
    }

    /** One frame of light data for both pads; the playing animations move on by 1/30 s. */
    method BuildFrame(inputs: Pair<nat>) returns (lightData: seq<byte>)
      requires Valid()
      modifies this
      ensures Valid() && |lightData| == 1350
      ensures PadShown(lightData, 0, old(pads.first), inputs.first, NUM_PANELS)
      ensures PadShown(lightData, 675, old(pads.second), inputs.second, NUM_PANELS)
      ensures pads == Pair(PadBuilt(Single, old(pads.first), inputs.first),
                           PadBuilt(Single, old(pads.second), inputs.second))
    {
      var data := new byte[2 * PAD_BYTES](_ => 0);
      FillPad(data, 0, pads.first, inputs.first);
      FillPad(data, PAD_BYTES, pads.second, inputs.second);
      BuiltInRange(Single, pads.first, inputs.first);
      BuiltInRange(Single, pads.second, inputs.second);
      var first := AdvancePad(pads.first, inputs.first);
      var second := AdvancePad(pads.second, inputs.second);
      pads := Pair(first, second);
      lightData := data[..];
    }
  }

  function AfterLoad(pads: Pair<PadAnimations>, frames: seq<Frame>, pad: nat, kind: Kind): Pair<PadAnimations>
    requires OneSize(frames)
  {
    if Refused(frames, pad).Some? then pads
    else
      var slot := TypeSlot(Some(Loaded(frames)), ALL_RESET);
      var p := pads.At(pad);
      pads.With(pad, if kind.Released? then p.(released := slot) else p.(pressed := slot))
  }

  /** Collects the frames of every panel and the first loop marker. */
  method BuildAnimation(frames: seq<Frame>) returns (a: Animation)
    requires frames != [] && (AllSized(frames, 14, 15) || AllSized(frames, 23, 24))
    ensures a == Loaded(frames)
  {
    var w, h := frames[0].width, frames[0].height;
    var loopFrame := 0;
    var durations := [];
    for f := 0 to |frames|
      invariant durations == DurationsOf(frames)[..f]
      invariant loopFrame == LoopFrame(frames[..f], w, h)
    {
      assert frames[..f + 1][..f] == frames[..f];
      if Marked(frames[f]) && loopFrame == 0 {
        loopFrame := f;
      }
      durations := durations + [frames[f].duration];
    }
    assert frames[..|frames|] == frames;
    var panels := [];
    for p := 0 to NUM_PANELS
      invariant |panels| == p && forall k :: 0 <= k < p ==> panels[k] == LedsOf(frames, k)
    {
      var leds := [];
      for f := 0 to |frames|
        invariant leds == LedsOf(frames, p)[..f]
      {
        var panelFrame := ExtractPanel(frames[f], p);
        leds := leds + [panelFrame];
      }
      panels := panels + [leds];
    }
    a := Animation(panels, durations, loopFrame);
    assert panels == Loaded(frames).frames;
  }

  method FillPad(data: array<byte>, start: nat, p: PadAnimations, input: nat)
    requires PadInRange(p) && start + PAD_BYTES <= data.Length
    requires forall i :: start <= i < start + PAD_BYTES ==> data[i] == 0
    modifies data
    ensures PadShown(data[..], start, p, input, NUM_PANELS)
    ensures forall i :: 0 <= i < data.Length && !(start <= i < start + PAD_BYTES) ==> data[i] == old(data[i])
  {
    for panel := 0 to NUM_PANELS
      invariant PadShown(data[..], start, p, input, panel)
      invariant forall i :: start + PANEL_BYTES * panel <= i < start + PAD_BYTES ==> data[i] == 0
      invariant forall i :: 0 <= i < data.Length && !(start <= i < start + PAD_BYTES) ==> data[i] == old(data[i])
    {
      ghost var before := data[..];
      FillPanel(data, start + PANEL_BYTES * panel, CurrentLeds(p.released, panel), OverlayLeds(p, input, panel));
      EarlierPanels(before, data[..], start, p, input, panel);
    }
  }

  /** What was shown below a panel's place is still shown. */
  lemma EarlierPanels(before: seq<byte>, after: seq<byte>, start: nat, p: PadAnimations, input: nat, panels: nat)
    requires |before| == |after| && PadInRange(p) && panels <= NUM_PANELS && start + PAD_BYTES <= |before|
    requires PadShown(before, start, p, input, panels)
    requires forall i :: start <= i < start + PANEL_BYTES * panels ==> after[i] == before[i]
    ensures PadShown(after, start, p, input, panels)
  {
    forall panel | 0 <= panel < panels
      ensures PanelShown(after, start + PANEL_BYTES * panel, CurrentLeds(p.released, panel), OverlayLeds(p, input, panel))
    {
      assert PanelShown(before, start + PANEL_BYTES * panel, CurrentLeds(p.released, panel), OverlayLeds(p, input, panel));
    }
  }

  /** Moves one panel on by a tick, at most into the next frame. */
  method AdvancePanel(a: Animation, p: PanelPlayback) returns (ps: PanelPlayback)
    requires p.current < |a.durations|
    ensures ps == Advanced(Single, a, p)
  {
    ps := p;
    if ps.playing {
      var duration := a.durations[ps.current];
      var sum := ps.time + Single(1.0 / 30.0);
      var time := Single(sum);
      ps := ps.(time := time, ticks := ps.ticks + 1, slack := ps.slack + Slack(sum));
      if time >= duration {
        ps := ps.(time := Single(time - duration), slack := ps.slack + Slack(time - duration),
                  finished := ps.finished + [ps.current], current := ps.current + 1);
        if ps.current >= |a.durations| {
          ps := ps.(current := a.loopFrame);
        }
      }
    }
  }

  /** Marks what plays and advances it, panel after panel. */
  method AdvanceSlot(s: TypeSlot, kind: Kind, input: nat) returns (after: TypeSlot)
    requires InRange(s)
    ensures after == SlotBuilt(Single, s, kind, input)
  {
    var playback := s.playback;
    if s.anim.Some? {
      for panel := 0 to NUM_PANELS
        invariant |playback| == NUM_PANELS
        invariant forall p :: 0 <= p < panel ==> playback[p] == PanelBuilt(Single, s, kind, input, p)
        invariant forall p :: panel <= p < NUM_PANELS ==> playback[p] == s.playback[p]
      {
        var ps := AdvancePanel(s.anim.value, Noted(kind, IsPressed(input, panel), playback[panel]));
        playback := playback[panel := ps];
      }
    }
    after := s.(playback := playback);
    assert playback == SlotBuilt(Single, s, kind, input).playback;
  }

  method AdvancePad(p: PadAnimations, input: nat) returns (after: PadAnimations)
    requires PadInRange(p)
    ensures after == PadBuilt(Single, p, input)
  {
    var released := AdvanceSlot(p.released, Released, input);
    var pressed := AdvanceSlot(p.pressed, Pressed, input);
    after := PadAnimations(released, pressed);
  }

  // ─── Every run ────────────────────────────────────────────────────────────

  lemma SlotBuiltInRange(round: real -> real, s: TypeSlot, kind: Kind, input: nat)
    requires InRange(s)
    ensures InRange(SlotBuilt(round, s, kind, input))
  {
  }

  lemma BuiltInRange(round: real -> real, p: PadAnimations, input: nat)
    requires PadInRange(p)
    ensures PadInRange(PadBuilt(round, p, input))
  {
    SlotBuiltInRange(round, p.released, Released, input);
    SlotBuiltInRange(round, p.pressed, Pressed, input);
  }

  // ─── No drift ─────────────────────────────────────────────────────────────

  function TimeOf(a: Animation, finished: seq<nat>): real
    requires InOrder(a, finished)
  {
    if finished == [] then 0.0
    else TimeOf(a, finished[..|finished| - 1]) + a.durations[finished[|finished| - 1]]
  }

  /** The frame after those ended so far. */
  function Upcoming(a: Animation, finished: seq<nat>): nat {
    if finished == [] then 0 else Next(a, finished[|finished| - 1])
  }

  /** Frames that follow each other from frame 0, looping. */
  predicate InOrder(a: Animation, finished: seq<nat>) {
    finished != [] ==>
      var earlier := finished[..|finished| - 1];
      finished[|finished| - 1] < |a.durations| && finished[|finished| - 1] == Upcoming(a, earlier) && InOrder(a, earlier)
  }

  /** Every frame lasts one tick, as the usual frame durations do once decoded. */
  predicate Steady(round: real -> real, a: Animation) {
    forall f :: 0 <= f < |a.durations| ==> a.durations[f] == FrameTime(round)
  }

  /** The account of `spent` time in whole frames and `time` in the current one. */
  predicate Accounted(ticks: nat, tick: real, spent: real, time: real, slack: real) {
    -slack <= ticks as real * tick - spent - time <= slack
  }

  /**
   The time spent is that of the frames ended plus the time in the current one, up to the
   rounding; with frames of one tick each it is exact, and every tick ends one frame.
   */
  predicate NoDrift(round: real -> real, a: Animation, p: PanelPlayback) {
    && InOrder(a, p.finished) && p.current == Upcoming(a, p.finished) && p.time >= 0.0
    && Accounted(p.ticks, FrameTime(round), TimeOf(a, p.finished), p.time, p.slack)
    && (Steady(round, a) ==> p.time == 0.0 && |p.finished| == p.ticks)
  }

  lemma FrameEnded(a: Animation, finished: seq<nat>, frame: nat)
    requires frame < |a.durations| && InOrder(a, finished) && frame == Upcoming(a, finished)
    ensures InOrder(a, finished + [frame]) && Upcoming(a, finished + [frame]) == Next(a, frame)
    ensures TimeOf(a, finished + [frame]) == TimeOf(a, finished) + a.durations[frame]
  {
    assert (finished + [frame])[..|finished|] == finished;
  }

  lemma TickAccounted(ticks: nat, tick: real, spent: real, time: real, slack: real, after: real, more: real)
    requires Accounted(ticks, tick, spent, time, slack) && -more <= after - (time + tick) <= more
    ensures Accounted(ticks + 1, tick, spent, after, slack + more)
  {
    assert (ticks + 1) as real * tick == ticks as real * tick + tick;
  }

  lemma FrameAccounted(ticks: nat, tick: real, spent: real, time: real, slack: real, duration: real,
                       after: real, more: real)
    requires Accounted(ticks, tick, spent, time, slack) && -more <= after - (time - duration) <= more
    ensures Accounted(ticks, tick, spent + duration, after, slack + more)
  {
  }

  lemma AdvancedAccounted(round: real -> real, a: Animation, p: PanelPlayback)
    requires IsRounding(round) && p.current < |a.durations| && p.playing
    requires InOrder(a, p.finished) && p.current == Upcoming(a, p.finished)
    requires Accounted(p.ticks, FrameTime(round), TimeOf(a, p.finished), p.time, p.slack)
    ensures var q := Advanced(round, a, p);
      && InOrder(a, q.finished) && q.current == Upcoming(a, q.finished)
      && Accounted(q.ticks, FrameTime(round), TimeOf(a, q.finished), q.time, q.slack)
  {
    var tick, spent, duration := FrameTime(round), TimeOf(a, p.finished), a.durations[p.current];
    var sum := p.time + tick;
    var time := round(sum);
    TickAccounted(p.ticks, tick, spent, p.time, p.slack, time, Slack(sum));
    if time >= duration {
      var left := time - duration;
      FrameAccounted(p.ticks + 1, tick, spent, time, p.slack + Slack(sum), duration, round(left), Slack(left));
      FrameEnded(a, p.finished, p.current);
    }
  }

  /** A tick added to no time at all is the tick, which ends the frame and leaves no time. */
  lemma AdvancedSteady(round: real -> real, a: Animation, p: PanelPlayback)
    requires IsRounding(round) && p.current < |a.durations| && Steady(round, a) && p.playing && p.time == 0.0
    ensures var q := Advanced(round, a, p); q.time == 0.0 && q.finished == p.finished + [p.current]
  {
    var tick := FrameTime(round);
    assert round(tick) == round(round(1.0 / 30.0)) == tick;
    assert p.time + tick == tick && round(0.0) == 0.0;
  }

  lemma AdvancedNoDrift(round: real -> real, a: Animation, p: PanelPlayback)
    requires IsRounding(round) && p.current < |a.durations| && NoDrift(round, a, p)
    ensures NoDrift(round, a, Advanced(round, a, p))
  {
    if p.playing {
      AdvancedAccounted(round, a, p);
      if Steady(round, a) {
        AdvancedSteady(round, a, p);
      }
    }
  }

  lemma StartsNoDrift(round: real -> real, a: Animation)
    ensures NoDrift(round, a, RESET)
  {
    assert 0 as real * FrameTime(round) == 0.0;
  }

  lemma NotedNoDrift(round: real -> real, a: Animation, p: PanelPlayback, kind: Kind, pressed: bool)
    requires NoDrift(round, a, p)
    ensures NoDrift(round, a, Noted(kind, pressed, p))
  {
    StartsNoDrift(round, a);
  }

  predicate SlotNoDrift(round: real -> real, s: TypeSlot) {
    && InRange(s)
    && (s.anim.Some? ==> forall p :: 0 <= p < NUM_PANELS ==> NoDrift(round, s.anim.value, s.playback[p]))
  }

  predicate AllNoDrift(round: real -> real, pads: Pair<PadAnimations>) {
    && SlotNoDrift(round, pads.first.released) && SlotNoDrift(round, pads.first.pressed)
    && SlotNoDrift(round, pads.second.released) && SlotNoDrift(round, pads.second.pressed)
  }

  lemma SlotBuiltNoDrift(round: real -> real, s: TypeSlot, kind: Kind, input: nat)
    requires IsRounding(round) && SlotNoDrift(round, s)
    ensures SlotNoDrift(round, SlotBuilt(round, s, kind, input))
  {
    SlotBuiltInRange(round, s, kind, input);
    if s.anim.Some? {
      forall p | 0 <= p < NUM_PANELS
        ensures NoDrift(round, s.anim.value, PanelBuilt(round, s, kind, input, p))
      {
        NotedNoDrift(round, s.anim.value, s.playback[p], kind, IsPressed(input, p));
        AdvancedNoDrift(round, s.anim.value, Noted(kind, IsPressed(input, p), s.playback[p]));
      }
    }
  }

  datatype PlayStep = LoadGif(frames: seq<Frame>, pad: nat, kind: Kind) | Build(inputs: Pair<nat>)

  predicate Decoded(steps: seq<PlayStep>) {
    forall i :: 0 <= i < |steps| && steps[i].LoadGif? ==> OneSize(steps[i].frames)
  }

  function PlayStepped(round: real -> real, pads: Pair<PadAnimations>, step: PlayStep): Pair<PadAnimations>
    requires step.LoadGif? ==> OneSize(step.frames)
    requires PadInRange(pads.first) && PadInRange(pads.second)
  {
    match step
    case LoadGif(frames, pad, kind) => AfterLoad(pads, frames, pad, kind)
    case Build(inputs) => Pair(PadBuilt(round, pads.first, inputs.first), PadBuilt(round, pads.second, inputs.second))
  }

  lemma LoadKeeps(round: real -> real, pads: Pair<PadAnimations>, frames: seq<Frame>, pad: nat, kind: Kind)
    requires OneSize(frames) && AllNoDrift(round, pads)
    ensures AllNoDrift(round, AfterLoad(pads, frames, pad, kind))
  {
    if Refused(frames, pad).None? {
      StartsNoDrift(round, Loaded(frames));
    }
  }

  lemma {:induction false} PlayStepKeeps(round: real -> real, pads: Pair<PadAnimations>, step: PlayStep)
    requires IsRounding(round) && (step.LoadGif? ==> OneSize(step.frames)) && AllNoDrift(round, pads)
    ensures AllNoDrift(round, PlayStepped(round, pads, step))
  {
    match step {
      case LoadGif(frames, pad, kind) => LoadKeeps(round, pads, frames, pad, kind);
      case Build(inputs) =>
        SlotBuiltNoDrift(round, pads.first.released, Released, inputs.first);
        SlotBuiltNoDrift(round, pads.first.pressed, Pressed, inputs.first);
        SlotBuiltNoDrift(round, pads.second.released, Released, inputs.second);
        SlotBuiltNoDrift(round, pads.second.pressed, Pressed, inputs.second);
    }
  }

  /**
   The state after a run of loading and building, in single precision as well as exactly. In
   every run every frame index is in range, every panel has gone through its frames in order,
   looping, since it was last started over, and no time is lost or gained but by rounding;
   frames of one tick each follow each other tick by tick for ever.
   */
  function PlayRun(round: real -> real, steps: seq<PlayStep>): (pads: Pair<PadAnimations>)
    requires IsRounding(round) && Decoded(steps)
    ensures AllNoDrift(round, pads)
  {
    if steps == [] then Pair(NO_ANIMATIONS, NO_ANIMATIONS)
    else
      var before := PlayRun(round, steps[..|steps| - 1]);
      PlayStepKeeps(round, before, steps[|steps| - 1]);
      PlayStepped(round, before, steps[|steps| - 1])
  }

  // ─── The light data in numbers ────────────────────────────────────────────

  /** The LEDs of a panel in the frame its animation is at. */
  function FrameShown(s: TypeSlot, panel: nat): PanelFrame
    requires InRange(s) && panel < 9
  {
    if s.anim.Some? then s.anim.value.frames[panel][s.playback[panel].current] else []
  }

  /**
   Each LED has three bytes, a panel 25 LEDs and a pad nine panels: an LED shows the pressed
   animation while its panel is down and that is not black there, else the released one, else black.
   */
  lemma LedsInNumbers(data: seq<byte>, start: nat, p: PadAnimations, input: nat, panel: nat, led: nat)
    requires PadInRange(p) && start + 675 <= |data| && PadShown(data, start, p, input, 9) && panel < 9 && led < 25
    ensures var under, over := FrameShown(p.released, panel), FrameShown(p.pressed, panel);
      var at := start + 75 * panel + 3 * led;
      Color(data[at], data[at + 1], data[at + 2]) ==
        if Down(input, panel) && led < |over| && over[led] != Color(0, 0, 0) then over[led]
        else if led < |under| then under[led]
        else Color(0, 0, 0)
  {
    DownIsPressed(input, panel);
    assert PanelShown(data, start + 75 * panel, CurrentLeds(p.released, panel), OverlayLeds(p, input, panel));
    assert LedIn(data, start + 75 * panel, led)
        == LedShown(CurrentLeds(p.released, panel), OverlayLeds(p, input, panel), led);
  }

  // ─── In step with the builds ──────────────────────────────────────────────

  /** The panel's bit of the input state is set. */
  predicate Down(input: nat, panel: nat)
    requires panel < 9
  {
    input / [1, 2, 4, 8, 16, 32, 64, 128, 256][panel] % 2 == 1
  }

  lemma DownIsPressed(input: nat, panel: nat)
    requires panel < 9
    ensures Down(input, panel) <==> IsPressed(input, panel)
  {
    BitAt(input, panel);
    PowersOfTwo(panel);
  }

  lemma PowersOfTwo(k: nat)
    requires k < 9
    ensures S.Two(k) == [1, 2, 4, 8, 16, 32, 64, 128, 256][k]
  {
    assert S.Two(2) == 4 && S.Two(4) == 4 * S.Two(2) && S.Two(6) == 4 * S.Two(4) && S.Two(8) == 4 * S.Two(6);
    assert S.Two(1) == 2 && S.Two(3) == 2 * S.Two(2) && S.Two(5) == 2 * S.Two(4) && S.Two(7) == 2 * S.Two(6);
  }

  /** A bit is what is left of the quotient by its weight. */
  lemma {:induction false} BitAt(w: nat, k: nat)
    ensures S.Bit(w, k) == w / S.Two(k) % 2
  {
    if k > 0 {
      BitAt(w / 2, k - 1);
      DividedTwice(w, 2, S.Two(k - 1));
    }
  }

  /** The step loads an animation of that kind for the pad. */
  predicate Loads(step: PlayStep, pad: Pad, kind: Kind)
    requires step.LoadGif? ==> OneSize(step.frames)
  {
    step.LoadGif? && step.pad == pad && step.kind == kind && Refused(step.frames, step.pad).None?
  }

  /** How many builds the pad's released animation has played for since it was loaded. */
  function PlayedFor(steps: seq<PlayStep>, pad: Pad): nat
    requires Decoded(steps)
  {
    if steps == [] then 0
    else
      var step, before := steps[|steps| - 1], PlayedFor(steps[..|steps| - 1], pad);
      if Loads(step, pad, Released) then 0 else if step.Build? then before + 1 else before
  }

  /** How many builds the panel has been down for, without a break and since the load. */
  function DownFor(steps: seq<PlayStep>, pad: Pad, panel: nat): nat
    requires Decoded(steps) && panel < 9
  {
    if steps == [] then 0
    else
      var step, before := steps[|steps| - 1], DownFor(steps[..|steps| - 1], pad, panel);
      if Loads(step, pad, Pressed) then 0
      else if step.Build? then (if Down(step.inputs.At(pad), panel) then before + 1 else 0)
      else before
  }

  /** One build moves a released panel on, and a pressed one when it is down; else it starts over. */
  lemma BuildTicks(round: real -> real, s: TypeSlot, kind: Kind, input: nat, panel: nat)
    requires InRange(s) && panel < 9 && s.anim.Some?
    ensures var q := SlotBuilt(round, s, kind, input).playback[panel];
      q.ticks == if kind.Released? || Down(input, panel) then s.playback[panel].ticks + 1 else 0
  {
    DownIsPressed(input, panel);
    assert SlotBuilt(round, s, kind, input).playback[panel] == PanelBuilt(round, s, kind, input, panel);
  }

  lemma PadTicks(round: real -> real, p: PadAnimations, input: nat, panel: nat)
    requires PadInRange(p) && panel < 9
    ensures var q := PadBuilt(round, p, input);
      && q.released.anim == p.released.anim && q.pressed.anim == p.pressed.anim
      && (p.released.anim.Some? ==> q.released.playback[panel].ticks == p.released.playback[panel].ticks + 1)
      && (p.pressed.anim.Some? ==>
            q.pressed.playback[panel].ticks == if Down(input, panel) then p.pressed.playback[panel].ticks + 1 else 0)
  {
    if p.released.anim.Some? {
      BuildTicks(round, p.released, Released, input, panel);
    }
    if p.pressed.anim.Some? {
      BuildTicks(round, p.pressed, Pressed, input, panel);
    }
  }

  /** The ticks of the panel's animations, as far as they are loaded. */
  predicate Ticked(p: PadAnimations, panel: nat, played: nat, down: nat)
    requires PadInRange(p) && panel < 9
  {
    && (p.released.anim.Some? ==> p.released.playback[panel].ticks == played)
    && (p.pressed.anim.Some? ==> p.pressed.playback[panel].ticks == down)
  }

  lemma StepTicks(round: real -> real, steps: seq<PlayStep>, pad: Pad, panel: nat)
    requires IsRounding(round) && Decoded(steps) && panel < 9 && steps != []
    requires var earlier := steps[..|steps| - 1];
      Ticked(PlayRun(round, earlier).At(pad), panel, PlayedFor(earlier, pad), DownFor(earlier, pad, panel))
    ensures Ticked(PlayRun(round, steps).At(pad), panel, PlayedFor(steps, pad), DownFor(steps, pad, panel))
  {
    var before := PlayRun(round, steps[..|steps| - 1]);
    match steps[|steps| - 1] {
      case LoadGif(frames, on, kind) => LoadTicks(before, frames, on, kind, pad);
      case Build(inputs) =>
        PadTicks(round, before.At(pad), inputs.At(pad), panel);
        assert PlayRun(round, steps).At(pad) == PadBuilt(round, before.At(pad), inputs.At(pad));
    }
  }

  /**
   In every run a released animation has moved on by one tick for every build since it was loaded,
   and a pressed one by one for every build its panel has now been down for: released panels
   always play, and pressed ones start over each time the panel goes down.
   */
  lemma {:induction false} PanelsPlayInStep(round: real -> real, steps: seq<PlayStep>, pad: Pad, panel: nat)
    requires IsRounding(round) && Decoded(steps) && panel < 9
    ensures Ticked(PlayRun(round, steps).At(pad), panel, PlayedFor(steps, pad), DownFor(steps, pad, panel))
  {
    if steps != [] {
      PanelsPlayInStep(round, steps[..|steps| - 1], pad, panel);
      StepTicks(round, steps, pad, panel);
    }
  }

  lemma LoadTicks(pads: Pair<PadAnimations>, frames: seq<Frame>, on: nat, kind: Kind, pad: Pad)
    requires OneSize(frames)
    ensures var p, q := pads.At(pad), AfterLoad(pads, frames, on, kind).At(pad);
      var loaded := on == pad && Refused(frames, on).None?;
      && q.released == (if loaded && kind.Released? then TypeSlot(Some(Loaded(frames)), ALL_RESET) else p.released)
      && q.pressed == (if loaded && kind.Pressed? then TypeSlot(Some(Loaded(frames)), ALL_RESET) else p.pressed)
  {
  }
}
