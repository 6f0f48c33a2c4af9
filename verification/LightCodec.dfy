/**
 Encoding one pad's LED colours into the three panel-lights commands: '4' carries
 the inner 3x3 grid of every panel, '2' the upper and '3' the lower half of the
 outer 4x4 grid.
 */
module LightCodec {
  import opened Bytes

  const NUM_PANELS := 9
  const OUTER_BYTES := 48      // 4x4 LEDs, RGB
  const HALF_BYTES := 24       // 4x2 LEDs, RGB
  const INNER_BYTES := 27      // 3x3 LEDs, RGB
  const BYTES_PER_PAD_16 := NUM_PANELS * OUTER_BYTES
  const BYTES_PER_PAD_25 := NUM_PANELS * (OUTER_BYTES + INNER_BYTES)
  const COMMAND_BUFFER := 256

  /** `c as f32 * 0.6666` truncated, in integers. */
  function ScaleColor(c: byte): byte {
    c as int * 6666 / 10000
  }

  function Scaled(data: seq<byte>): (out: seq<byte>)
    ensures |out| == |data|
    ensures forall i :: 0 <= i < |data| ==> out[i] == ScaleColor(data[i])
  {
    seq(|data|, i requires 0 <= i < |data| => ScaleColor(data[i]))
  }

  /** The three commands of a frame, in sending order. */
  datatype Part = Inner | Upper | Lower

  function Letter(part: Part): byte {
    match part
    case Inner => 0x34
    case Upper => 0x32
    case Lower => 0x33
  }

  predicate PadData(data: seq<byte>) {
    |data| == BYTES_PER_PAD_16 || |data| == BYTES_PER_PAD_25
  }

  /** Bytes per panel in the input. */
  function Stride(data: seq<byte>): nat {
    if |data| == BYTES_PER_PAD_25 then OUTER_BYTES + INNER_BYTES else OUTER_BYTES
  }

  /** What the command for `part` says about one panel. */
  function PanelPart(data: seq<byte>, panel: nat, part: Part): seq<byte>
    requires PadData(data) && panel < NUM_PANELS
  {
    var base := Stride(data) * panel;
    match part
    case Upper => Scaled(data[base..base + HALF_BYTES])
    case Lower => Scaled(data[base + HALF_BYTES..base + OUTER_BYTES])
    case Inner =>
      if |data| == BYTES_PER_PAD_25 then Scaled(data[base + OUTER_BYTES..base + OUTER_BYTES + INNER_BYTES])
      else Zeros(INNER_BYTES)
  }

  function PartBytes(part: Part): nat {
    if part.Inner? then INNER_BYTES else HALF_BYTES
  }

  /** What the command for `part` says about the first `panels` panels. */
  function PanelParts(data: seq<byte>, panels: nat, part: Part): (parts: seq<seq<byte>>)
    requires PadData(data) && panels <= NUM_PANELS
    ensures |parts| == panels
    ensures forall p :: 0 <= p < panels ==> |parts[p]| == PartBytes(part)
  {
    seq(panels, p requires 0 <= p < panels => PanelPart(data, p, part))
  }

  /** The command so far: its letter and the first `panels` panels. */
  function Begun(data: seq<byte>, panels: nat, part: Part): seq<byte>
    requires PadData(data) && panels <= NUM_PANELS
  {
    [Letter(part)] + Concat(PanelParts(data, panels, part))
  }

  function LightsBody(data: seq<byte>, part: Part): seq<byte>
    requires PadData(data)
  {
    Begun(data, NUM_PANELS, part) + [0x0A]
  }

  /** 245 bytes for '4', 218 for '2' and '3'. */
  lemma LightsBodySize(data: seq<byte>, part: Part)
    requires PadData(data)
    ensures |LightsBody(data, part)| == if part.Inner? then 245 else 218
  {
    ConcatUniform(PanelParts(data, NUM_PANELS, part), PartBytes(part));
  }

  // ─── The encoder ──────────────────────────────────────────────────────────

  /** Writes the scaled bytes `source` into `buffer` from `len` on. */
  method CopyScaled(buffer: array<byte>, len: nat, source: seq<byte>) returns (newLen: nat)
    requires len + |source| <= buffer.Length
    modifies buffer
    ensures newLen == len + |source|
    ensures buffer[..newLen] == old(buffer[..len]) + Scaled(source)
  {
    newLen := len;
    for i := 0 to |source|
      invariant newLen == len + i
      invariant buffer[..newLen] == old(buffer[..len]) + Scaled(source)[..i]
    {
      buffer[newLen] := ScaleColor(source[i]);
      newLen := newLen + 1;
      assert buffer[..newLen] == buffer[..newLen - 1] + [Scaled(source)[i]];
      assert Scaled(source)[..i + 1] == Scaled(source)[..i] + [Scaled(source)[i]];
    }
  }

  /** Writes one panel into the three buffers. */
  method EncodePanel(inner: array<byte>, upper: array<byte>, lower: array<byte>,
                     len4: nat, len2: nat, len3: nat, data: seq<byte>, panel: nat)
    returns (new4: nat, new2: nat, new3: nat)
    requires PadData(data) && panel < NUM_PANELS
    requires inner != upper && inner != lower && upper != lower
    requires len4 + INNER_BYTES <= inner.Length
    requires len2 + HALF_BYTES <= upper.Length && len3 + HALF_BYTES <= lower.Length
    modifies inner, upper, lower
    ensures new4 == len4 + INNER_BYTES && new2 == len2 + HALF_BYTES && new3 == len3 + HALF_BYTES
    ensures inner[..new4] == old(inner[..len4]) + PanelPart(data, panel, Inner)
    ensures upper[..new2] == old(upper[..len2]) + PanelPart(data, panel, Upper)
    ensures lower[..new3] == old(lower[..len3]) + PanelPart(data, panel, Lower)
  {
    var inputIdx := Stride(data) * panel;
    new2 := CopyScaled(upper, len2, data[inputIdx..inputIdx + HALF_BYTES]);
    new3 := CopyScaled(lower, len3, data[inputIdx + HALF_BYTES..inputIdx + OUTER_BYTES]);
    inputIdx := inputIdx + OUTER_BYTES;
    if |data| == BYTES_PER_PAD_25 {
      new4 := CopyScaled(inner, len4, data[inputIdx..inputIdx + INNER_BYTES]);
    } else {
      new4 := len4;
      for i := 0 to INNER_BYTES
        invariant new4 == len4 + i
        invariant inner[..new4] == old(inner[..len4]) + Zeros(i)
        invariant upper[..new2] == old(upper[..len2]) + PanelPart(data, panel, Upper)
        invariant lower[..new3] == old(lower[..len3]) + PanelPart(data, panel, Lower)
      {
        inner[new4] := 0;
        new4 := new4 + 1;
        assert inner[..new4] == inner[..new4 - 1] + [0];
        assert Zeros(i + 1) == Zeros(i) + [0];
      }
    }
  }

  lemma BegunGrows(data: seq<byte>, panel: nat, part: Part)
    requires PadData(data) && panel < NUM_PANELS
    ensures Begun(data, panel, part) + PanelPart(data, panel, part) == Begun(data, panel + 1, part)
  {
    ConcatSnoc(PanelParts(data, panel, part), PanelPart(data, panel, part));
    assert PanelParts(data, panel + 1, part) == PanelParts(data, panel, part) + [PanelPart(data, panel, part)];
    Assoc([Letter(part)], Concat(PanelParts(data, panel, part)), PanelPart(data, panel, part));
  }

  method EndCommand(buffer: array<byte>, len: nat) returns (cmd: seq<byte>)
    requires len < buffer.Length
    modifies buffer
    ensures cmd == old(buffer[..len]) + [0x0A]
  {
    buffer[len] := 0x0A;
    cmd := buffer[..len + 1];
  }

  /** The three commands of one pad, built in fixed 256-byte buffers. */
  method EncodeLights(data: seq<byte>) returns (cmd4: seq<byte>, cmd2: seq<byte>, cmd3: seq<byte>)
    requires PadData(data)
    ensures cmd4 == LightsBody(data, Inner)
    ensures cmd2 == LightsBody(data, Upper)
    ensures cmd3 == LightsBody(data, Lower)
  {
    var inner := new byte[COMMAND_BUFFER](_ => 0);
    var upper := new byte[COMMAND_BUFFER](_ => 0);
    var lower := new byte[COMMAND_BUFFER](_ => 0);
    inner[0], upper[0], lower[0] := Letter(Inner), Letter(Upper), Letter(Lower);
    var len4, len2, len3 := 1, 1, 1;
    assert inner[..1] == [Letter(Inner)] && upper[..1] == [Letter(Upper)] && lower[..1] == [Letter(Lower)];
    for panel := 0 to NUM_PANELS
      invariant len4 == 1 + INNER_BYTES * panel
      invariant len2 == len3 == 1 + HALF_BYTES * panel
      invariant inner[..len4] == Begun(data, panel, Inner)
      invariant upper[..len2] == Begun(data, panel, Upper)
      invariant lower[..len3] == Begun(data, panel, Lower)
    {
      len4, len2, len3 := EncodePanel(inner, upper, lower, len4, len2, len3, data, panel);
      BegunGrows(data, panel, Inner);
      BegunGrows(data, panel, Upper);
      BegunGrows(data, panel, Lower);
    }
    cmd4 := EndCommand(inner, len4);
    cmd2 := EndCommand(upper, len2);
    cmd3 := EndCommand(lower, len3);
  }

  // ─── Decoding ─────────────────────────────────────────────────────────────

  /** The bytes the command for `part` carries for one panel. */
  function CommandPanel(cmd: seq<byte>, panel: nat, part: Part): seq<byte>
    requires |cmd| == 2 + PartBytes(part) * NUM_PANELS && panel < NUM_PANELS
  {
    var start := 1 + PartBytes(part) * panel;
    cmd[start..start + PartBytes(part)]
  }

  /** The LED bytes of one panel as a device puts them back together. */
  function DecodedPanel(cmd4: seq<byte>, cmd2: seq<byte>, cmd3: seq<byte>, panel: nat): seq<byte>
    requires |cmd4| == 245 && |cmd2| == |cmd3| == 218 && panel < NUM_PANELS
  {
    CommandPanel(cmd2, panel, Upper) + CommandPanel(cmd3, panel, Lower) + CommandPanel(cmd4, panel, Inner)
  }

  lemma PanelInCommand(data: seq<byte>, panel: nat, part: Part)
    requires PadData(data) && panel < NUM_PANELS
    requires |LightsBody(data, part)| == 2 + PartBytes(part) * NUM_PANELS
    ensures CommandPanel(LightsBody(data, part), panel, part) == PanelPart(data, panel, part)
  {
    var parts := PanelParts(data, NUM_PANELS, part);
    ConcatPart(parts, PartBytes(part), panel);
    var start := PartBytes(part) * panel;
    assert LightsBody(data, part)[1 + start..1 + start + PartBytes(part)]
        == Concat(parts)[start..start + PartBytes(part)];
  }

  /**
   The three commands determine every scaled LED byte of the pad; for 16-LED data
   the inner grid reads as black.
   */
  lemma LightsDecode(data: seq<byte>, panel: nat)
    requires PadData(data) && panel < NUM_PANELS
    ensures var cmd4, cmd2, cmd3 := LightsBody(data, Inner), LightsBody(data, Upper), LightsBody(data, Lower);
      && |cmd4| == 245 && |cmd2| == |cmd3| == 218
      && DecodedPanel(cmd4, cmd2, cmd3, panel)
         == Scaled(data[Stride(data) * panel..Stride(data) * (panel + 1)])
            + (if |data| == BYTES_PER_PAD_25 then [] else Zeros(INNER_BYTES))
  {
    LightsBodySize(data, Inner);
    LightsBodySize(data, Upper);
    LightsBodySize(data, Lower);
    PanelInCommand(data, panel, Inner);
    PanelInCommand(data, panel, Upper);
    PanelInCommand(data, panel, Lower);
  }
}
