/**
 The uploaded animation as the pad plays it, read from memory by the pad's own map: the
 timing block of its master at 0 names the graphic of each frame, a graphic is 13 bytes from
 address 0 on, and the palettes of the two animations lie at 832 and 877.
 */
module DeviceMemory {
  import opened Bytes
  import opened Palette
  import opened Frames
  import opened LightCodec
  import opened UploadPackets
  import opened Upload
  import opened UploadImage

  // ─── The pad's map ────────────────────────────────────────────────────────

  /** The animation index of a type: released 0, pressed 1. */
  function Anim(kind: LightsType): byte {
    if kind.Released? then 0 else 1
  }

  /** A byte of memory after the commands; 0 where nothing is. */
  function Memory(cmds: seq<Command>, panel: byte, anim: byte, offset: nat, before: Option<byte>): byte {
    var stored := After(cmds, Key(panel, anim, offset), before);
    if stored.Some? then stored.value else 0
  }

  /** The nibble of an LED in a frame's graphic: high for even LEDs. */
  function NibbleAt(cmds: seq<Command>, anim: byte, panel: byte, f: nat, led: nat, before: Option<byte>): nat {
    var graphic := Memory(cmds, 0xFF, anim, 1 + f, before) as int;
    var b := Memory(cmds, panel, anim, 13 * graphic + led / 2, before) as int;
    if led % 2 == 0 then b / 16 else b % 16
  }

  /** Red, green or blue of a palette entry. */
  function ChannelAt(cmds: seq<Command>, anim: byte, panel: byte, index: nat, channel: nat, before: Option<byte>): byte {
    Memory(cmds, panel, anim, 832 + 45 * anim as int + 3 * index + channel, before)
  }

  /** The pixel of an LED: the outer 4x4 on even places of the panel's 8x8, the inner 3x3 on odd ones. */
  function Pixel(frame: Frame, panel: nat, led: nat): Color
    requires Sized(frame, 23, 24) && panel < 9 && led < 25
  {
    var x, y := panel % 3 * 8, panel / 3 * 8;
    if led < 16 then frame.rows[y + 2 * (led / 4)][x + 2 * (led % 4)].color
    else frame.rows[y + 2 * ((led - 16) / 3) + 1][x + 2 * ((led - 16) % 3) + 1].color
  }

  function Dimmed(c: byte): byte {
    c as int * 6666 / 10000
  }

  // ─── What it shows ────────────────────────────────────────────────────────

  /** Nibble 15 stands for black; any other names the palette entry with the dimmed colour. */
  predicate Shows(cmds: seq<Command>, anim: byte, panel: byte, f: nat, led: nat, color: Color, before: Option<byte>) {
    var nibble := NibbleAt(cmds, anim, panel, f, led, before);
    && (nibble == 15 <==> color == Color(0, 0, 0))
    && (nibble != 15 ==>
          && nibble < 15
          && ChannelAt(cmds, anim, panel, nibble, 0, before) == Dimmed(color.r)
          && ChannelAt(cmds, anim, panel, nibble, 1, before) == Dimmed(color.g)
          && ChannelAt(cmds, anim, panel, nibble, 2, before) == Dimmed(color.b))
  }

  /** The graphic that frame `f` names. */
  lemma GraphicNamed(frames: seq<Frame>, kind: LightsType, f: nat, before: Option<byte>)
    requires Uploadable(frames) && AllFewColors(frames) && f < |frames|
    ensures Memory(UploadCommands(frames, kind), 0xFF, Anim(kind), 1 + f, before) as int
         == f + if kind.Released? then 0 else 32
  {
    UploadedTimingReadsBack(frames, kind, f, before);
  }

  lemma GraphicPlace(kind: LightsType, panel: nat, f: nat, k: nat)
    requires panel < 9
    ensures GraphicKey(kind, panel, f, k)
         == Key(panel as byte, Anim(kind), 13 * (f + if kind.Released? then 0 else 32) + k)
  {
  }

  lemma PalettePlace(kind: LightsType, panel: nat, index: nat, channel: nat)
    requires panel < 9
    ensures PaletteKey(kind, panel, index, channel)
         == Key(panel as byte, Anim(kind), 832 + 45 * Anim(kind) as int + 3 * index + channel)
  {
  }

  lemma NibbleFrom(cmds: seq<Command>, kind: LightsType, panel: nat, f: nat, led: nat, before: Option<byte>)
    requires panel < 9
    requires Memory(cmds, 0xFF, Anim(kind), 1 + f, before) as int == f + if kind.Released? then 0 else 32
    ensures NibbleAt(cmds, Anim(kind), panel as byte, f, led, before)
         == NibbleOf(After(cmds, GraphicKey(kind, panel, f, led / 2), before), led)
  {
    GraphicPlace(kind, panel, f, led / 2);
  }

  lemma ChannelFrom(cmds: seq<Command>, kind: LightsType, panel: nat, index: nat, channel: nat, before: Option<byte>,
                    c: byte)
    requires panel < 9 && After(cmds, PaletteKey(kind, panel, index, channel), before) == Some(ScaleColor(c))
    ensures ChannelAt(cmds, Anim(kind), panel as byte, index, channel, before) == Dimmed(c)
  {
    PalettePlace(kind, panel, index, channel);
  }

  /** Black is left out; any other colour has a palette entry that holds it. */
  lemma NibbleShown(frames: seq<Frame>, kind: LightsType, panel: nat, f: nat, led: nat, channel: nat,
                    before: Option<byte>)
    requires Uploadable(frames) && AllFewColors(frames) && f < |frames| && panel < 9 && led < 25 && channel < 3
    requires Sized(frames[f], 23, 24)
    ensures var cmds, color := UploadCommands(frames, kind), Pixel(frames[f], panel, led);
      var nibble := NibbleAt(cmds, Anim(kind), panel as byte, f, led, before);
      && (nibble == 15 <==> color == BLACK)
      && (nibble != 15 ==>
            && nibble < 15
            && ChannelAt(cmds, Anim(kind), panel as byte, nibble, channel, before) == Dimmed(Channel(color, channel)))
  {
    var cmds, color := UploadCommands(frames, kind), Pixel(frames[f], panel, led);
    assert color == LedColor(frames[f], panel, led);
    GraphicNamed(frames, kind, f, before);
    NibbleFrom(cmds, kind, panel, f, led, before);
    UploadedLedReadsBack(frames, kind, panel, f, led, channel, before);
    if color != BLACK {
      var nibble := NibbleAt(cmds, Anim(kind), panel as byte, f, led, before);
      ChannelFrom(cmds, kind, panel, nibble, channel, before, Channel(color, channel));
    }
  }

  /**
   Reading by its own map, the pad shows every LED of every frame uploaded in the dimmed colour of
   its pixel, and leaves it out exactly where the pixel is black.
   */
  lemma PadShowsAnimation(frames: seq<Frame>, kind: LightsType, panel: nat, f: nat, led: nat, before: Option<byte>)
    requires Uploadable(frames) && AllFewColors(frames) && f < |frames| && panel < 9 && led < 25
    requires Sized(frames[f], 23, 24)
    ensures Shows(UploadCommands(frames, kind), Anim(kind), panel as byte, f, led,
                  Pixel(frames[f], panel, led), before)
  {
    NibbleShown(frames, kind, panel, f, led, 0, before);
    NibbleShown(frames, kind, panel, f, led, 1, before);
    NibbleShown(frames, kind, panel, f, led, 2, before);
  }
}
