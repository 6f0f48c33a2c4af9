/**
 Compiling an animation into firmware upload commands, from decoded frames on, and
 what running those commands leaves in the device's memory.
 */
module Upload {
  import opened Bytes
  import opened SinglePrecision
  import opened Palette
  import opened Frames
  import opened LightCodec
  import opened UploadPackets
  import opened Interleave

  const MAX_FRAMES := 32
  const GRAPHIC_SLOTS := 64
  const TIMING_SIZE := 129
  const MASTER: byte := 0xFF
  const PANELS := Frames.NUM_PANELS

  datatype LightsType = Released | Pressed

  datatype UploadError = InvalidPad | NoFrames | WrongSize | TooManyFrames | TooManyColors

  datatype Result = Ok(commands: seq<Command>) | Err(error: UploadError)

  function TypeIndex(kind: LightsType): byte {
    if kind.Released? then 0 else 1
  }

  function FirstGraphic(kind: LightsType): nat {
    if kind.Released? then 0 else 32
  }

  predicate Uploadable(frames: seq<Frame>) {
    0 < |frames| <= MAX_FRAMES && AllSized(frames, 23, 24)
  }

  // ─── The intended image ───────────────────────────────────────────────────

  function PanelFrames(frames: seq<Frame>, panel: nat): (leds: seq<PanelFrame>)
    requires AllSized(frames, 23, 24) && panel < PANELS
    ensures |leds| == |frames|
  {
    seq(|frames|, f requires 0 <= f < |frames| => PanelLeds(frames[f], panel))
  }

  predicate FewColors(frames: seq<Frame>, panel: nat)
    requires AllSized(frames, 23, 24) && panel < PANELS
  {
    |ColorsUsed(Concat(PanelFrames(frames, panel)))| <= PALETTE_SIZE
  }

  predicate AllFewColors(frames: seq<Frame>)
    requires AllSized(frames, 23, 24)
  {
    forall panel :: 0 <= panel < PANELS ==> FewColors(frames, panel)
  }

  function PanelPalette(frames: seq<Frame>, panel: nat): (palette: seq<Color>)
    requires AllSized(frames, 23, 24) && panel < PANELS && FewColors(frames, panel)
    ensures |palette| == PALETTE_SIZE
  {
    DistinctCountsUsed(Concat(PanelFrames(frames, panel)));
    Padded(Distinct(Concat(PanelFrames(frames, panel))))
  }

  /** Slot `f` of a panel's graphics; unused slots are zero. */
  function GraphicSlot(frames: seq<Frame>, panel: nat, f: nat): (slot: seq<byte>)
    requires AllSized(frames, 23, 24) && panel < PANELS && FewColors(frames, panel)
    ensures |slot| == GRAPHIC_SIZE
  {
    if f < |frames| then Packed(PanelLeds(frames[f], panel), PanelPalette(frames, panel)) else Zeros(GRAPHIC_SIZE)
  }

  function GraphicSlots(frames: seq<Frame>, panel: nat): (slots: seq<seq<byte>>)
    requires AllSized(frames, 23, 24) && panel < PANELS && FewColors(frames, panel)
    ensures |slots| == MAX_FRAMES
    ensures forall f :: 0 <= f < MAX_FRAMES ==> |slots[f]| == GRAPHIC_SIZE
  {
    seq(MAX_FRAMES, f requires 0 <= f < MAX_FRAMES => GraphicSlot(frames, panel, f))
  }

  function GraphicsBytes(frames: seq<Frame>, panel: nat): (bytes: seq<byte>)
    requires AllSized(frames, 23, 24) && panel < PANELS && FewColors(frames, panel)
    ensures |bytes| == MAX_FRAMES * GRAPHIC_SIZE
  {
    ConcatUniform(GraphicSlots(frames, panel), GRAPHIC_SIZE);
    Concat(GraphicSlots(frames, panel))
  }

  function Channel(c: Color, k: nat): byte
    requires k < 3
  {
    if k == 0 then c.r else if k == 1 then c.g else c.b
  }

  /** The palette, scaled, three bytes a colour. */
  function PaletteBytes(palette: seq<Color>): (bytes: seq<byte>)
    requires |palette| == PALETTE_SIZE
    ensures |bytes| == 3 * PALETTE_SIZE
  {
    seq(3 * PALETTE_SIZE, k requires 0 <= k < 3 * PALETTE_SIZE => ScaleColor(Channel(palette[k / 3], k % 3)))
  }

  function GraphicsAddress(kind: LightsType): nat {
    FirstGraphic(kind) * GRAPHIC_SIZE
  }

  function PaletteAddress(kind: LightsType): nat {
    GRAPHIC_SLOTS * GRAPHIC_SIZE + TypeIndex(kind) as int * 3 * PALETTE_SIZE
  }

  /** Frames a delay lasts: thirtieths of a second, rounded, between 1 and 255. */
  function DelayFrames(duration: real): byte {
    var v := Single(Single(duration * 30.0) + 0.5);
    if v < 1.0 then 1 else if v > 255.0 then 255 else v.Floor
  }

  function TimingFrame(frames: seq<Frame>, kind: LightsType, f: nat): byte
    requires f < GRAPHIC_SLOTS
  {
    if f < |frames| && f < MAX_FRAMES then (FirstGraphic(kind) + f) as byte else 0xFF
  }

  function TimingDelay(frames: seq<Frame>, f: nat): byte {
    if f < |frames| then DelayFrames(frames[f].duration) else 0
  }

  function TimingData(frames: seq<Frame>, kind: LightsType): (data: seq<byte>)
    requires Uploadable(frames)
    ensures |data| == TIMING_SIZE
  {
    [LoopFrame(frames, 23, 24) as byte]
    + seq(GRAPHIC_SLOTS, f requires 0 <= f < GRAPHIC_SLOTS => TimingFrame(frames, kind, f))
    + seq(GRAPHIC_SLOTS, f requires 0 <= f < GRAPHIC_SLOTS => TimingDelay(frames, f))
  }

  /** The byte the upload is meant to leave at `key`; none where it must not write. */
  function Intended(frames: seq<Frame>, kind: LightsType, key: Key): Option<byte>
    requires Uploadable(frames) && AllFewColors(frames)
  {
    var anim := TypeIndex(kind);
    if (key.panel as int) < PANELS then
      var panel := key.panel as nat;
      var graphic := BlockByte(GraphicsBytes(frames, panel), GraphicsAddress(kind), key.panel, anim, key);
      if graphic.Some? then graphic
      else BlockByte(PaletteBytes(PanelPalette(frames, panel)), PaletteAddress(kind), key.panel, anim, key)
    else
      BlockByte(TimingData(frames, kind), 0, MASTER, anim, key)
  }

  // ─── The commands ─────────────────────────────────────────────────────────

  function PanelPackets(frames: seq<Frame>, kind: LightsType, panel: nat): seq<seq<byte>>
    requires AllSized(frames, 23, 24) && panel < PANELS && FewColors(frames, panel)
  {
    BlockPackets(GraphicsBytes(frames, panel), GraphicsAddress(kind), panel as byte, TypeIndex(kind))
    + BlockPackets(PaletteBytes(PanelPalette(frames, panel)), PaletteAddress(kind), panel as byte, TypeIndex(kind))
  }

  function PanelLists(frames: seq<Frame>, kind: LightsType): (lists: seq<seq<seq<byte>>>)
    requires AllSized(frames, 23, 24) && AllFewColors(frames)
    ensures |lists| == PANELS
  {
    seq(PANELS, panel requires 0 <= panel < PANELS => PanelPackets(frames, kind, panel))
  }

  function FinalPacket(frames: seq<Frame>, kind: LightsType): seq<byte>
    requires Uploadable(frames)
  {
    MakePacket(MASTER, TypeIndex(kind), 0, TimingData(frames, kind))[3 := 1]
  }

  function UploadCommands(frames: seq<Frame>, kind: LightsType): seq<Command>
    requires Uploadable(frames) && AllFewColors(frames)
  {
    var rounds := Rounds(PanelLists(frames, kind));
    rounds + rounds + [Packet(FinalPacket(frames, kind))]
  }

  // ─── The compiler ─────────────────────────────────────────────────────────

  method ExtractFrames(frames: seq<Frame>, panel: nat) returns (leds: seq<PanelFrame>)
    requires AllSized(frames, 23, 24) && panel < PANELS
    ensures leds == PanelFrames(frames, panel)
  {
    leds := [];
    for f := 0 to |frames|
      invariant leds == PanelFrames(frames, panel)[..f]
    {
      assert Sized(frames[f], 23, 24);
      var extracted := ExtractPanel(frames[f], panel);
      leds := leds + [extracted];
    }
  }

  method PackSlots(frames: seq<Frame>, panel: nat, leds: seq<PanelFrame>, palette: seq<Color>)
    returns (graphics: seq<seq<byte>>)
    requires Uploadable(frames) && panel < PANELS && FewColors(frames, panel)
    requires leds == PanelFrames(frames, panel) && palette == PanelPalette(frames, panel)
    ensures graphics == GraphicSlots(frames, panel)
  {
    graphics := [];
    for f := 0 to MAX_FRAMES
      invariant graphics == GraphicSlots(frames, panel)[..f]
    {
      var slot := Zeros(GRAPHIC_SIZE);
      if f < |frames| {
        slot := PackGraphic(leds[f], palette);
      }
      graphics := graphics + [slot];
    }
    assert graphics == GraphicSlots(frames, panel);
  }

  /** One panel's packets; fails when the panel uses too many colours. */
  method CompilePanel(frames: seq<Frame>, kind: LightsType, panel: nat) returns (packets: Option<seq<seq<byte>>>)
    requires Uploadable(frames) && panel < PANELS
    ensures packets.Some? <==> FewColors(frames, panel)
    ensures packets.Some? ==> packets.value == PanelPackets(frames, kind, panel)
  {
    var leds := ExtractFrames(frames, panel);
    var palette := BuildPalette(leds);
    if palette.None? {
      return None;
    }
    var graphics := PackSlots(frames, panel, leds, palette.value);
    ConcatUniform(graphics, GRAPHIC_SIZE);
    var list := CreateUploadPackets([], Concat(graphics), GraphicsAddress(kind), panel as byte, TypeIndex(kind));
    list := CreateUploadPackets(list, PaletteBytes(palette.value), PaletteAddress(kind), panel as byte,
                                TypeIndex(kind));
    return Some(list);
  }

  /** Every panel's packets, or nothing when some panel uses too many colours. */
  method CompilePanels(frames: seq<Frame>, kind: LightsType) returns (lists: Option<seq<seq<seq<byte>>>>)
    requires Uploadable(frames)
    ensures lists.Some? <==> AllFewColors(frames)
    ensures lists.Some? ==> lists.value == PanelLists(frames, kind)
  {
    var compiled: seq<seq<seq<byte>>> := [];
    for panel := 0 to PANELS
      invariant |compiled| == panel
      invariant forall p :: 0 <= p < panel ==> FewColors(frames, p) && compiled[p] == PanelPackets(frames, kind, p)
    {
      var packets := CompilePanel(frames, kind, panel);
      if packets.None? {
        return None;
      }
      compiled := compiled + [packets.value];
    }
    assert compiled == PanelLists(frames, kind);
    return Some(compiled);
  }

  /** Why an animation is refused, the first reason that applies; None when it is compiled. */
  function Refused(frames: seq<Frame>, pad: nat): Option<UploadError>
    requires OneSize(frames)
  {
    if pad > 1 then Some(InvalidPad)
    else if frames == [] then Some(NoFrames)
    else if frames[0].width != 23 || frames[0].height != 24 then Some(WrongSize)
    else if |frames| > MAX_FRAMES then Some(TooManyFrames)
    else if !AllFewColors(frames) then Some(TooManyColors)
    else None
  }

  /** `prepare_upload` after decoding; an animation without frames does not decode. */
  method PrepareUpload(frames: seq<Frame>, pad: nat, kind: LightsType) returns (r: Result)
    requires OneSize(frames)
    ensures r.Ok? <==> pad <= 1 && Uploadable(frames) && AllFewColors(frames)
    ensures r.Ok? ==> r.commands == UploadCommands(frames, kind)
    ensures r.Err? ==> Refused(frames, pad) == Some(r.error)
  {
    if pad > 1 {
      return Err(InvalidPad);
    }
    if frames == [] {
      return Err(NoFrames);
    }
    if frames[0].width != 23 || frames[0].height != 24 {
      assert !Sized(frames[0], 23, 24);
      return Err(WrongSize);
    }
    if |frames| > MAX_FRAMES {
      return Err(TooManyFrames);
    }
    var lists := CompilePanels(frames, kind);
    if lists.None? {
      return Err(TooManyColors);
    }
    var commands := AssembleCommands(frames, kind, lists.value);
    return Ok(commands);
  }

  /** Interleaves the panels' packets, repeats them and appends the marked master packet. */
  method AssembleCommands(frames: seq<Frame>, kind: LightsType, lists: seq<seq<seq<byte>>>)
    returns (commands: seq<Command>)
    requires Uploadable(frames) && AllFewColors(frames)
    requires lists == PanelLists(frames, kind)
    ensures commands == UploadCommands(frames, kind)
  {
    ListsAddressed(frames, kind);
    commands := InterleavePackets(lists);
    commands := commands + commands;
    var timing := TimingData(frames, kind);
    var masterPackets := CreateUploadPackets([], timing, 0, MASTER, TypeIndex(kind));
    OnePacket(timing, 0, MASTER, TypeIndex(kind));
    assert [] + masterPackets == masterPackets == [MakePacket(MASTER, TypeIndex(kind), 0, timing)];
    var last := |masterPackets| - 1;
    masterPackets := masterPackets[last := masterPackets[last][3 := 1]];
    commands := commands + AsPackets(masterPackets);
  }

  lemma ListsAddressed(frames: seq<Frame>, kind: LightsType)
    requires AllSized(frames, 23, 24) && AllFewColors(frames)
    ensures Addressed(PanelLists(frames, kind)) && AllSendable(PanelLists(frames, kind))
    ensures forall p, k :: 0 <= p < PANELS && 0 <= k < |PanelLists(frames, kind)[p]| ==>
      |PanelLists(frames, kind)[p][k]| > 3 && PanelLists(frames, kind)[p][k][3] == 0
  {
    var lists := PanelLists(frames, kind);
    forall p, k | 0 <= p < PANELS && 0 <= k < |lists[p]|
      ensures Sendable(lists[p][k]) && PanelOf(lists[p][k]) == p && lists[p][k][3] == 0
    {
      var graphics := GraphicsBytes(frames, p);
      var n := |BlockPackets(graphics, GraphicsAddress(kind), p as byte, TypeIndex(kind))|;
      if k < n {
        BlockPacketShape(graphics, GraphicsAddress(kind), p as byte, TypeIndex(kind), k);
      } else {
        BlockPacketShape(PaletteBytes(PanelPalette(frames, p)), PaletteAddress(kind), p as byte, TypeIndex(kind), k - n);
      }
    }
  }
}
