/**
 Palettes and packed graphics of an uploaded animation: collecting a panel's
 colours, looking them up and packing 25 palette indices into 13 bytes.
 */
module Palette {
  import opened Bytes

  const PALETTE_SIZE := 15
  const LEDS := 25
  const GRAPHIC_SIZE := 13
  const TRANSPARENT := 15
  const NOT_FOUND := 0xFF

  datatype Color = Color(r: byte, g: byte, b: byte)

  const BLACK := Color(0, 0, 0)

  /** One panel of one frame, LED by LED. */
  type PanelFrame = leds: seq<Color> | |leds| <= LEDS witness []

  // ─── The colours of a panel ───────────────────────────────────────────────

  /** The non-black colours in order of first use. */
  function Distinct(pixels: seq<Color>): (colors: seq<Color>)
    decreases |pixels|
  {
    if pixels == [] then []
    else
      var earlier := Distinct(pixels[..|pixels| - 1]);
      var c := pixels[|pixels| - 1];
      if c == BLACK || c in earlier then earlier else earlier + [c]
  }

  lemma DistinctSnoc(pixels: seq<Color>, c: Color)
    ensures Distinct(pixels + [c])
         == if c == BLACK || c in Distinct(pixels) then Distinct(pixels) else Distinct(pixels) + [c]
  {
    assert (pixels + [c])[..|pixels|] == pixels;
  }

  lemma {:induction false} DistinctGrows(a: seq<Color>, b: seq<Color>)
    ensures |Distinct(a)| <= |Distinct(a + b)|
    decreases |b|
  {
    if b == [] {
      assert a + b == a;
    } else {
      var init, last := b[..|b| - 1], b[|b| - 1];
      DistinctGrows(a, init);
      assert a + b == (a + init) + [last];
      DistinctSnoc(a + init, last);
    }
  }

  /** Exactly the used non-black colours, each once. */
  lemma {:induction false} DistinctIsUsed(pixels: seq<Color>)
    ensures forall c :: c in Distinct(pixels) <==> c in pixels && c != BLACK
    ensures forall i, j :: 0 <= i < j < |Distinct(pixels)| ==> Distinct(pixels)[i] != Distinct(pixels)[j]
    decreases |pixels|
  {
    if pixels != [] {
      DistinctIsUsed(pixels[..|pixels| - 1]);
      assert pixels == pixels[..|pixels| - 1] + [pixels[|pixels| - 1]];
    }
  }

  lemma {:induction false} DistinctCount(colors: seq<Color>)
    requires forall i, j :: 0 <= i < j < |colors| ==> colors[i] != colors[j]
    ensures |set c | c in colors| == |colors|
  {
    if colors != [] {
      var n := |colors| - 1;
      DistinctCount(colors[..n]);
      assert colors == colors[..n] + [colors[n]];
      assert (set c | c in colors) == (set c | c in colors[..n]) + {colors[n]};
    }
  }

  /** The number of different non-black colours a panel uses. */
  function ColorsUsed(pixels: seq<Color>): set<Color> {
    set c | c in pixels && c != BLACK
  }

  lemma DistinctCountsUsed(pixels: seq<Color>)
    ensures |Distinct(pixels)| == |ColorsUsed(pixels)|
  {
    DistinctIsUsed(pixels);
    DistinctCount(Distinct(pixels));
    assert (set c | c in Distinct(pixels)) == ColorsUsed(pixels);
  }

  function Padded(colors: seq<Color>): seq<Color>
    requires |colors| <= PALETTE_SIZE
  {
    colors + seq(PALETTE_SIZE - |colors|, i => BLACK)
  }

  /** The first `count` slots hold the colours of `seen`, the rest are black. */
  ghost predicate Holds(colors: array<Color>, count: nat, seen: seq<Color>)
    reads colors
  {
    && colors.Length == PALETTE_SIZE
    && count <= PALETTE_SIZE
    && colors[..] == Padded(colors[..count])
    && colors[..count] == Distinct(seen)
  }

  /** One pixel: black is transparent, a known colour is skipped, a new one needs a free slot. */
  method AddColor(colors: array<Color>, count: nat, c: Color, ghost seen: seq<Color>)
    returns (ok: bool, newCount: nat)
    requires Holds(colors, count, seen)
    modifies colors
    ensures ok ==> Holds(colors, newCount, seen + [c])
    ensures !ok ==> |Distinct(seen)| == PALETTE_SIZE && c != BLACK && c !in Distinct(seen)
  {
    DistinctSnoc(seen, c);
    if c == BLACK || c in colors[..count] {
      return true, count;
    }
    if count >= PALETTE_SIZE {
      return false, count;
    }
    ghost var before := colors[..];
    colors[count] := c;
    assert colors[..] == before[count := c];
    assert before[count := c] == Padded(before[..count] + [c]);
    assert colors[..count + 1] == before[..count] + [c];
    return true, count + 1;
  }

  /** One frame, pixel by pixel; on failure `at` is the pixel that found no free slot. */
  method AddFrame(colors: array<Color>, count: nat, frame: PanelFrame, ghost seen: seq<Color>)
    returns (ok: bool, newCount: nat, ghost at: nat)
    requires Holds(colors, count, seen)
    modifies colors
    ensures ok ==> Holds(colors, newCount, seen + frame)
    ensures !ok ==> at < |frame| && |Distinct(seen + frame[..at])| == PALETTE_SIZE
                    && frame[at] != BLACK && frame[at] !in Distinct(seen + frame[..at])
  {
    ok, newCount, at := true, count, 0;
    assert seen + frame[..0] == seen;
    for i := 0 to |frame|
      invariant Holds(colors, newCount, seen + frame[..i])
    {
      ok, newCount := AddColor(colors, newCount, frame[i], seen + frame[..i]);
      if !ok {
        at := i;
        return;
      }
      assert (seen + frame[..i]) + [frame[i]] == seen + frame[..i + 1];
    }
    assert frame[..|frame|] == frame;
    ok := true;
  }

  /**
   Collects the palette in first-use order; fails exactly when the frames use more
   than 15 different non-black colours.
   */
  method BuildPalette(frames: seq<PanelFrame>) returns (palette: Option<seq<Color>>)
    ensures palette.Some? <==> |ColorsUsed(Concat(frames))| <= PALETTE_SIZE
    ensures palette.Some? ==>
      |Distinct(Concat(frames))| <= PALETTE_SIZE && palette.value == Padded(Distinct(Concat(frames)))
  {
    var colors := new Color[PALETTE_SIZE](_ => BLACK);
    var count := 0;
    DistinctCountsUsed(Concat(frames));
    assert colors[..] == Padded([]);
    for f := 0 to |frames|
      invariant Holds(colors, count, Concat(frames[..f]))
    {
      var ok;
      ghost var at;
      ok, count, at := AddFrame(colors, count, frames[f], Concat(frames[..f]));
      if !ok {
        TooMany(frames, f, at, Concat(frames[..f]) + frames[f][..at]);
        return None;
      }
      assert frames[..f + 1] == frames[..f] + [frames[f]];
      ConcatSnoc(frames[..f], frames[f]);
    }
    assert frames[..|frames|] == frames;
    return Some(colors[..]);
  }

  lemma TooMany(frames: seq<PanelFrame>, f: nat, i: nat, seen: seq<Color>)
    requires f < |frames| && i < |frames[f]|
    requires seen == Concat(frames[..f]) + frames[f][..i]
    requires |Distinct(seen)| == PALETTE_SIZE
    requires frames[f][i] != BLACK && frames[f][i] !in Distinct(seen)
    ensures |Distinct(Concat(frames))| > PALETTE_SIZE
  {
    var c, rest := frames[f][i], frames[f][i + 1..] + Concat(frames[f + 1..]);
    assert frames == frames[..f] + ([frames[f]] + frames[f + 1..]);
    ConcatAppend(frames[..f], [frames[f]] + frames[f + 1..]);
    assert ([frames[f]] + frames[f + 1..])[1..] == frames[f + 1..];
    assert Concat(frames) == (seen + [c]) + rest;
    DistinctSnoc(seen, c);
    DistinctGrows(seen + [c], rest);
  }

  // ─── Packing ──────────────────────────────────────────────────────────────

  method FindInPalette(palette: seq<Color>, c: Color) returns (index: nat)
    requires |palette| == PALETTE_SIZE
    ensures index == NOT_FOUND <==> c !in palette
    ensures index != NOT_FOUND ==> index < PALETTE_SIZE && palette[index] == c && c !in palette[..index]
  {
    for i := 0 to |palette|
      invariant c !in palette[..i]
    {
      if palette[i] == c {
        return i;
      }
    }
    return NOT_FOUND;
  }

  function FirstIndex(palette: seq<Color>, c: Color): (index: nat)
    ensures index <= |palette|
    ensures index < |palette| ==> palette[index] == c && c !in palette[..index]
    ensures index == |palette| ==> c !in palette
  {
    if palette == [] || palette[0] == c then 0
    else
      assert forall k :: 0 < k <= |palette| ==> palette[..k] == [palette[0]] + palette[1..][..k - 1];
      1 + FirstIndex(palette[1..], c)
  }

  /** The nibble for LED `i`: 15 for black and for LEDs the frame does not have. */
  function Nibble(frame: PanelFrame, palette: seq<Color>, i: nat): (n: nat)
    requires |palette| == PALETTE_SIZE
    ensures n < 16
  {
    if i >= |frame| || frame[i] == BLACK then TRANSPARENT
    else if FirstIndex(palette, frame[i]) == PALETTE_SIZE then 0
    else FirstIndex(palette, frame[i])
  }

  /** Byte `k` of the packed graphic after the first `done` nibbles, high nibble first. */
  function PackedByte(frame: PanelFrame, palette: seq<Color>, k: nat, done: nat): byte
    requires |palette| == PALETTE_SIZE
  {
    (if 2 * k < done then 16 * Nibble(frame, palette, 2 * k) else 0)
    + (if 2 * k + 1 < done then Nibble(frame, palette, 2 * k + 1) else 0)
  }

  function Packed(frame: PanelFrame, palette: seq<Color>): (bytes: seq<byte>)
    requires |palette| == PALETTE_SIZE
    ensures |bytes| == GRAPHIC_SIZE
  {
    seq(GRAPHIC_SIZE, k requires 0 <= k < GRAPHIC_SIZE => PackedByte(frame, palette, k, LEDS))
  }

  method PackGraphic(frame: PanelFrame, palette: seq<Color>) returns (bytes: seq<byte>)
    requires |palette| == PALETTE_SIZE
    ensures bytes == Packed(frame, palette)
  {
    var out := new byte[GRAPHIC_SIZE](_ => 0);
    for i := 0 to LEDS
      invariant forall k :: 0 <= k < GRAPHIC_SIZE ==> out[k] == PackedByte(frame, palette, k, i)
    {
      var palIdx := TRANSPARENT;
      if i < |frame| && frame[i] != BLACK {
        var idx := FindInPalette(palette, frame[i]);
        SameIndex(palette, frame[i], idx);
        palIdx := if idx == NOT_FOUND then 0 else idx;
      }
      assert palIdx == Nibble(frame, palette, i);
      // The two nibbles of a byte do not overlap, so OR is a sum.
      if i % 2 == 0 {
        out[i / 2] := out[i / 2] + 16 * palIdx;
      } else {
        out[i / 2] := out[i / 2] + palIdx;
      }
    }
    bytes := out[..];
  }

  lemma SameIndex(palette: seq<Color>, c: Color, idx: nat)
    requires |palette| == PALETTE_SIZE
    requires idx == NOT_FOUND <==> c !in palette
    requires idx != NOT_FOUND ==> idx < PALETTE_SIZE && palette[idx] == c && c !in palette[..idx]
    ensures idx == if FirstIndex(palette, c) == PALETTE_SIZE then NOT_FOUND else FirstIndex(palette, c)
  {
  }

  // ─── Unpacking ────────────────────────────────────────────────────────────

  function UnpackedNibble(bytes: seq<byte>, i: nat): nat
    requires |bytes| == GRAPHIC_SIZE && i < LEDS
  {
    if i % 2 == 0 then bytes[i / 2] as int / 16 else bytes[i / 2] as int % 16
  }

  /** The colour an index stands for. */
  function ColorAt(palette: seq<Color>, nibble: nat): Color
    requires |palette| == PALETTE_SIZE && nibble < 16
  {
    if nibble == TRANSPARENT then BLACK else palette[nibble]
  }

  lemma UnpackNibble(frame: PanelFrame, palette: seq<Color>, i: nat)
    requires |palette| == PALETTE_SIZE && i < LEDS
    ensures UnpackedNibble(Packed(frame, palette), i) == Nibble(frame, palette, i)
  {
    var k := i / 2;
    var b := PackedByte(frame, palette, k, LEDS) as int;
    assert Packed(frame, palette)[k] == b;
    assert i == if i % 2 == 0 then 2 * k else 2 * k + 1;
  }

  /**
   With the palette built from all frames, unpacking any packed frame gives back
   every LED's colour, 15 stands exactly for black, and the fallback for a colour
   missing from the palette is never reached.
   */
  lemma {:induction false} PackedFramesDecode(frames: seq<PanelFrame>, f: nat, i: nat)
    requires |Distinct(Concat(frames))| <= PALETTE_SIZE
    requires f < |frames| && i < |frames[f]|
    ensures var palette := Padded(Distinct(Concat(frames)));
      var nibble := UnpackedNibble(Packed(frames[f], palette), i);
      && nibble < 16
      && ColorAt(palette, nibble) == frames[f][i]
      && (nibble == TRANSPARENT <==> frames[f][i] == BLACK)
      && (frames[f][i] != BLACK ==> frames[f][i] in palette)
  {
    var pixels := Concat(frames);
    var palette := Padded(Distinct(pixels));
    var c := frames[f][i];
    UnpackNibble(frames[f], palette, i);
    DistinctIsUsed(pixels);
    PixelInConcat(frames, f, i);
    if c != BLACK {
      assert c in Distinct(pixels) && c in palette;
    }
  }

  lemma {:induction false} PixelInConcat(frames: seq<PanelFrame>, f: nat, i: nat)
    requires f < |frames| && i < |frames[f]|
    ensures frames[f][i] in Concat(frames)
  {
    if f > 0 {
      PixelInConcat(frames[1..], f - 1, i);
    }
  }

  /** LEDs the frame does not have unpack as transparent. */
  lemma MissingLedsTransparent(frame: PanelFrame, palette: seq<Color>, i: nat)
    requires |palette| == PALETTE_SIZE && |frame| <= i < LEDS
    ensures UnpackedNibble(Packed(frame, palette), i) == TRANSPARENT
  {
    UnpackNibble(frame, palette, i);
  }
}
