/**
 Decoded animation frames: one RGBA image and its duration, the LEDs of each panel
 in it, and the loop marker.
 */
module Frames {
  import opened Bytes
  import opened Palette

  const NUM_PANELS := 9

  datatype Rgba = Rgba(color: Color, alpha: byte)

  /** The image row by row. */
  datatype Frame = Frame(width: nat, height: nat, rows: seq<seq<Rgba>>, duration: real)

  predicate Proper(f: Frame) {
    |f.rows| == f.height && forall y :: 0 <= y < f.height ==> |f.rows[y]| == f.width
  }

  /** Images of one animation share one size. */
  predicate Sized(f: Frame, width: nat, height: nat) {
    f.width == width && f.height == height && Proper(f)
  }

  predicate SmallSize(f: Frame) {
    Sized(f, 14, 15)
  }

  predicate LargeSize(f: Frame) {
    Sized(f, 23, 24)
  }

  function PixelAt(f: Frame, x: nat, y: nat): Rgba
    requires Proper(f) && x < f.width && y < f.height
  {
    f.rows[y][x]
  }

  /** LED `led` of a panel, counted along the rows: outer 4x4 first, then inner 3x3. */
  function LedColor(f: Frame, panel: nat, led: nat): Color
    requires panel < NUM_PANELS
    requires (SmallSize(f) && led < 16) || (LargeSize(f) && led < 25)
  {
    var col, row := panel % 3, panel / 3;
    if f.width == 14 then PixelAt(f, col * 5 + led % 4, row * 5 + led / 4).color
    else if led < 16 then PixelAt(f, col * 8 + led % 4 * 2, row * 8 + led / 4 * 2).color
    else PixelAt(f, col * 8 + (led - 16) % 3 * 2 + 1, row * 8 + (led - 16) / 3 * 2 + 1).color
  }

  /** The pixels in rows and columns: panels are 5 or 8 apart, LEDs of a grid 1 or 2. */
  lemma LedPixels(f: Frame, panel: nat, led: nat)
    requires panel < 9 && ((Sized(f, 14, 15) && led < 16) || (Sized(f, 23, 24) && led < 25))
    ensures LedColor(f, panel, led) ==
      if f.width == 14 then f.rows[panel / 3 * 5 + led / 4][panel % 3 * 5 + led % 4].color
      else if led < 16 then f.rows[panel / 3 * 8 + 2 * (led / 4)][panel % 3 * 8 + 2 * (led % 4)].color
      else f.rows[panel / 3 * 8 + 2 * ((led - 16) / 3) + 1][panel % 3 * 8 + 2 * ((led - 16) % 3) + 1].color
  {
  }

  function LedCount(f: Frame): nat {
    if f.width == 14 then 16 else 25
  }

  function PanelLeds(f: Frame, panel: nat): (leds: PanelFrame)
    requires panel < NUM_PANELS && (SmallSize(f) || LargeSize(f))
    ensures |leds| == LedCount(f)
  {
    seq(LedCount(f), led requires 0 <= led < LedCount(f) => LedColor(f, panel, led))
  }

  lemma SmallLed(f: Frame, panel: nat, dx: nat, dy: nat)
    requires panel < NUM_PANELS && SmallSize(f) && dx < 4 && dy < 4
    ensures PanelLeds(f, panel)[4 * dy + dx] == PixelAt(f, panel % 3 * 5 + dx, panel / 3 * 5 + dy).color
  {
  }

  lemma OuterLed(f: Frame, panel: nat, dx: nat, dy: nat)
    requires panel < NUM_PANELS && LargeSize(f) && dx < 4 && dy < 4
    ensures PanelLeds(f, panel)[4 * dy + dx] == PixelAt(f, panel % 3 * 8 + dx * 2, panel / 3 * 8 + dy * 2).color
  {
  }

  lemma InnerLed(f: Frame, panel: nat, dx: nat, dy: nat)
    requires panel < NUM_PANELS && LargeSize(f) && dx < 3 && dy < 3
    ensures PanelLeds(f, panel)[16 + 3 * dy + dx]
         == PixelAt(f, panel % 3 * 8 + dx * 2 + 1, panel / 3 * 8 + dy * 2 + 1).color
  {
    var led := 16 + 3 * dy + dx;
    assert (led - 16) % 3 == dx && (led - 16) / 3 == dy;
  }

  /** The outer 4x4 grid of a large frame. */
  method ExtractOuter(f: Frame, panel: nat) returns (leds: PanelFrame)
    requires panel < NUM_PANELS && LargeSize(f)
    ensures leds == PanelLeds(f, panel)[..16]
  {
    var col, row := panel % 3, panel / 3;
    leds := [];
    for dy := 0 to 4
      invariant leds == PanelLeds(f, panel)[..4 * dy]
    {
      for dx := 0 to 4
        invariant leds == PanelLeds(f, panel)[..4 * dy + dx]
      {
        OuterLed(f, panel, dx, dy);
        leds := leds + [PixelAt(f, col * 8 + dx * 2, row * 8 + dy * 2).color];
      }
    }
  }

  /** The 4x4 grid of a small frame. */
  method ExtractSmall(f: Frame, panel: nat) returns (leds: PanelFrame)
    requires panel < NUM_PANELS && SmallSize(f)
    ensures leds == PanelLeds(f, panel)
  {
    var col, row := panel % 3, panel / 3;
    leds := [];
    for dy := 0 to 4
      invariant leds == PanelLeds(f, panel)[..4 * dy]
    {
      for dx := 0 to 4
        invariant leds == PanelLeds(f, panel)[..4 * dy + dx]
      {
        SmallLed(f, panel, dx, dy);
        leds := leds + [PixelAt(f, col * 5 + dx, row * 5 + dy).color];
      }
    }
  }

  /** The inner 3x3 grid of a large frame, after the outer one. */
  method ExtractInner(f: Frame, panel: nat, outer: PanelFrame) returns (leds: PanelFrame)
    requires panel < NUM_PANELS && LargeSize(f) && outer == PanelLeds(f, panel)[..16]
    ensures leds == PanelLeds(f, panel)
  {
    var col, row := panel % 3, panel / 3;
    leds := outer;
    for dy := 0 to 3
      invariant leds == PanelLeds(f, panel)[..16 + 3 * dy]
    {
      for dx := 0 to 3
        invariant leds == PanelLeds(f, panel)[..16 + 3 * dy + dx]
      {
        InnerLed(f, panel, dx, dy);
        leds := leds + [PixelAt(f, col * 8 + dx * 2 + 1, row * 8 + dy * 2 + 1).color];
      }
    }
  }

  method ExtractPanel(f: Frame, panel: nat) returns (leds: PanelFrame)
    requires panel < NUM_PANELS && (SmallSize(f) || LargeSize(f))
    ensures leds == PanelLeds(f, panel)
  {
    if f.width == 14 {
      leds := ExtractSmall(f, panel);
    } else {
      var outer := ExtractOuter(f, panel);
      leds := ExtractInner(f, panel, outer);
    }
  }

  // ─── The loop marker ──────────────────────────────────────────────────────

  /** The bottom-left pixel is opaque and bright. */
  predicate Marked(f: Frame)
    requires f.width > 0 && f.height > 0 && Proper(f)
  {
    var px := PixelAt(f, 0, f.height - 1);
    px.alpha == 255 && px.color.r >= 128
  }

  predicate AllSized(frames: seq<Frame>, width: nat, height: nat) {
    forall i :: 0 <= i < |frames| ==> Sized(frames[i], width, height)
  }

  /** The images of an animation share the size of the first. */
  predicate OneSize(frames: seq<Frame>) {
    frames != [] ==> AllSized(frames, frames[0].width, frames[0].height)
  }

  /** The pixel at the left end of the bottom row is opaque and at least half red. */
  predicate CornerBright(f: Frame)
    requires f.width > 0 && f.height > 0 && Proper(f)
  {
    var bottom := f.rows[f.height - 1];
    bottom[0].alpha == 255 && bottom[0].color.r >= 128
  }

  /** The first frame after the start with a bright corner, or 0. */
  predicate IsLoopFrame(frames: seq<Frame>, width: nat, height: nat, loop: nat)
    requires width > 0 && height > 0 && AllSized(frames, width, height)
  {
    if loop == 0 then forall i :: 0 < i < |frames| ==> !CornerBright(frames[i])
    else loop < |frames| && CornerBright(frames[loop]) && forall i :: 0 < i < loop ==> !CornerBright(frames[i])
  }

  function LoopFrame(frames: seq<Frame>, width: nat, height: nat): (loop: nat)
    requires width > 0 && height > 0 && AllSized(frames, width, height)
    ensures IsLoopFrame(frames, width, height, loop)
  {
    if frames == [] then 0
    else
      var n := |frames| - 1;
      var earlier := LoopFrame(frames[..n], width, height);
      if Marked(frames[n]) && earlier == 0 then n else earlier
  }
}
