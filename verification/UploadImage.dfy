/**
 What the compiled upload does to the device's memory: exactly the intended image,
 whatever was there before, although panel packets are sent in reverse order,
 interleaved and twice.
 */
module UploadImage {
  import opened Bytes
  import opened SinglePrecision
  import opened Palette
  import opened Frames
  import opened LightCodec
  import opened UploadPackets
  import opened Interleave
  import opened Upload

  // ─── One panel's packets ──────────────────────────────────────────────────

  function GraphicsPackets(frames: seq<Frame>, kind: LightsType, panel: nat): seq<seq<byte>>
    requires AllSized(frames, 23, 24) && panel < PANELS && FewColors(frames, panel)
  {
    BlockPackets(GraphicsBytes(frames, panel), GraphicsAddress(kind), panel as byte, TypeIndex(kind))
  }

  function PalettePackets(frames: seq<Frame>, kind: LightsType, panel: nat): seq<seq<byte>>
    requires AllSized(frames, 23, 24) && panel < PANELS && FewColors(frames, panel)
  {
    BlockPackets(PaletteBytes(PanelPalette(frames, panel)), PaletteAddress(kind), panel as byte, TypeIndex(kind))
  }

  lemma WritesAppend(a: seq<seq<byte>>, b: seq<seq<byte>>, key: Key)
    ensures SomeWrites(a + b, key) <==> SomeWrites(a, key) || SomeWrites(b, key)
  {
    var c := a + b;
    if i :| 0 <= i < |c| && Written(c[i], key).Some? {
      assert if i < |a| then c[i] == a[i] else c[i] == b[i - |a|];
    }
    if i :| 0 <= i < |a| && Written(a[i], key).Some? {
      assert c[i] == a[i];
    }
    if i :| 0 <= i < |b| && Written(b[i], key).Some? {
      assert c[|a| + i] == b[i];
    }
  }

  /** A panel's packets write the intended bytes of that panel and nothing else. */
  lemma PanelWrites(frames: seq<Frame>, kind: LightsType, panel: nat, key: Key)
    requires Uploadable(frames) && AllFewColors(frames) && panel < PANELS
    ensures AllWrite(PanelPackets(frames, kind, panel), key, Intended(frames, kind, key))
    ensures SomeWrites(PanelPackets(frames, kind, panel), key)
      <==> key.panel as int == panel && Intended(frames, kind, key).Some?
  {
    var anim := TypeIndex(kind);
    var g, p := GraphicsPackets(frames, kind, panel), PalettePackets(frames, kind, panel);
    BlockWrites(GraphicsBytes(frames, panel), GraphicsAddress(kind), panel as byte, anim, key);
    BlockWrites(PaletteBytes(PanelPalette(frames, panel)), PaletteAddress(kind), panel as byte, anim, key);
    assert PanelPackets(frames, kind, panel) == g + p;
    WritesAppend(g, p, key);
  }

  lemma FinalWrites(frames: seq<Frame>, kind: LightsType, key: Key)
    requires Uploadable(frames)
    ensures Written(FinalPacket(frames, kind), key) == BlockByte(TimingData(frames, kind), 0, MASTER, TypeIndex(kind), key)
  {
    var timing := TimingData(frames, kind);
    var plain, marked := MakePacket(MASTER, TypeIndex(kind), 0, timing), FinalPacket(frames, kind);
    PacketWrites(MASTER, TypeIndex(kind), 0, timing, key);
    assert Address(marked) == Address(plain) && Size(marked) == Size(plain);
    assert forall i :: HEADER_SIZE <= i < |plain| ==> marked[i] == plain[i];
  }

  // ─── The whole command list ───────────────────────────────────────────────

  predicate IsPacket(cmds: seq<Command>, i: nat) {
    i < |cmds| && cmds[i].Packet?
  }

  /** A packet of the command list is a prepared panel packet or the final one. */
  lemma CommandSource(frames: seq<Frame>, kind: LightsType, i: nat)
    requires Uploadable(frames) && AllFewColors(frames)
    requires IsPacket(UploadCommands(frames, kind), i)
    ensures var pkt := UploadCommands(frames, kind)[i].pkt;
      if i == |UploadCommands(frames, kind)| - 1 then pkt == FinalPacket(frames, kind)
      else exists panel, k :: 0 <= panel < PANELS && 0 <= k < |PanelPackets(frames, kind, panel)|
                              && PanelPackets(frames, kind, panel)[k] == pkt
  {
    var lists := PanelLists(frames, kind);
    var rounds := Rounds(lists);
    var c := UploadCommands(frames, kind)[i];
    if i < |UploadCommands(frames, kind)| - 1 {
      assert c == if i < |rounds| then rounds[i] else rounds[i - |rounds|];
      assert Packet(c.pkt) in rounds;
      RoundsMembers(lists, c.pkt);
      var panel :| 0 <= panel < |lists| && c.pkt in lists[panel];
      var k :| 0 <= k < |lists[panel]| && lists[panel][k] == c.pkt;
      assert PanelPackets(frames, kind, panel)[k] == c.pkt;
    }
  }

  lemma UploadAgrees(frames: seq<Frame>, kind: LightsType, key: Key)
    requires Uploadable(frames) && AllFewColors(frames)
    ensures Agree(UploadCommands(frames, kind), key, Intended(frames, kind, key))
  {
    var cmds := UploadCommands(frames, kind);
    forall i | 0 <= i < |cmds| && cmds[i].Packet? && Written(cmds[i].pkt, key).Some?
      ensures Written(cmds[i].pkt, key) == Intended(frames, kind, key)
    {
      CommandSource(frames, kind, i);
      if i == |cmds| - 1 {
        FinalWrites(frames, kind, key);
      } else {
        var panel, k :| 0 <= panel < PANELS && 0 <= k < |PanelPackets(frames, kind, panel)|
                        && PanelPackets(frames, kind, panel)[k] == cmds[i].pkt;
        PanelWrites(frames, kind, panel, key);
      }
    }
  }

  /** Every packet of a panel is among the commands. */
  lemma PacketSent(frames: seq<Frame>, kind: LightsType, panel: nat, k: nat) returns (i: nat)
    requires Uploadable(frames) && AllFewColors(frames)
    requires panel < PANELS && k < |PanelPackets(frames, kind, panel)|
    ensures i < |UploadCommands(frames, kind)|
    ensures UploadCommands(frames, kind)[i] == Packet(PanelPackets(frames, kind, panel)[k])
  {
    var lists := PanelLists(frames, kind);
    var pkt := PanelPackets(frames, kind, panel)[k];
    assert lists[panel][k] == pkt;
    RoundsMembers(lists, pkt);
    i :| 0 <= i < |Rounds(lists)| && Rounds(lists)[i] == Packet(pkt);
  }

  lemma UploadCovers(frames: seq<Frame>, kind: LightsType, key: Key)
    requires Uploadable(frames) && AllFewColors(frames)
    requires Intended(frames, kind, key).Some?
    ensures Covered(UploadCommands(frames, kind), key)
  {
    if key.panel as int < PANELS {
      var panel := key.panel as nat;
      PanelWrites(frames, kind, panel, key);
      var packets := PanelPackets(frames, kind, panel);
      var k :| 0 <= k < |packets| && Written(packets[k], key).Some?;
      var i := PacketSent(frames, kind, panel, k);
    } else {
      FinalWrites(frames, kind, key);
      var cmds := UploadCommands(frames, kind);
      assert cmds[|cmds| - 1] == Packet(FinalPacket(frames, kind));
    }
  }

  /**
   Upload correctness: after the whole list every intended byte has its intended
   value, and every other byte, those of the other animation type included, is
   what it was before.
   */
  lemma UploadLeavesImage(frames: seq<Frame>, kind: LightsType, key: Key, before: Option<byte>)
    requires Uploadable(frames) && AllFewColors(frames)
    ensures After(UploadCommands(frames, kind), key, before)
         == if Intended(frames, kind, key).Some? then Intended(frames, kind, key) else before
    ensures key.anim != TypeIndex(kind) ==> After(UploadCommands(frames, kind), key, before) == before
  {
    var cmds := UploadCommands(frames, kind);
    UploadAgrees(frames, kind, key);
    AgreeingWrites(cmds, key, Intended(frames, kind, key), before);
    if Intended(frames, kind, key).Some? {
      UploadCovers(frames, kind, key);
    }
  }

  /** Exactly one packet is marked final, and it is the last command. */
  lemma OnlyLastIsFinal(frames: seq<Frame>, kind: LightsType, i: nat)
    requires Uploadable(frames) && AllFewColors(frames)
    requires IsPacket(UploadCommands(frames, kind), i)
    ensures var pkt := UploadCommands(frames, kind)[i].pkt;
      |pkt| > 3 && (pkt[3] != 0 <==> i == |UploadCommands(frames, kind)| - 1)
  {
    CommandSource(frames, kind, i);
    ListsAddressed(frames, kind);
    if i < |UploadCommands(frames, kind)| - 1 {
      var pkt := UploadCommands(frames, kind)[i].pkt;
      var panel, k :| 0 <= panel < PANELS && 0 <= k < |PanelPackets(frames, kind, panel)|
                      && PanelPackets(frames, kind, panel)[k] == pkt;
      assert pkt == PanelLists(frames, kind)[panel][k];
    }
  }

  // ─── Spacing and repetition ───────────────────────────────────────────────

  lemma PacketPanel(frames: seq<Frame>, kind: LightsType, panel: nat, k: nat)
    requires Uploadable(frames) && AllFewColors(frames)
    requires panel < PANELS && k < |PanelPackets(frames, kind, panel)|
    ensures |PanelPackets(frames, kind, panel)[k]| > 1
    ensures PanelOf(PanelPackets(frames, kind, panel)[k]) == panel
  {
    ListsAddressed(frames, kind);
    assert PanelOf(PanelLists(frames, kind)[panel][k]) == panel;
  }

  /** Only the final packet addresses something else than a panel. */
  lemma CommandPanels(frames: seq<Frame>, kind: LightsType, i: nat)
    requires Uploadable(frames) && AllFewColors(frames)
    requires IsPacket(UploadCommands(frames, kind), i)
    ensures PanelOf(UploadCommands(frames, kind)[i].pkt) < PANELS <==> i < |UploadCommands(frames, kind)| - 1
  {
    var pkt := UploadCommands(frames, kind)[i].pkt;
    CommandSource(frames, kind, i);
    if i < |UploadCommands(frames, kind)| - 1 {
      var panel, k :| 0 <= panel < PANELS && 0 <= k < |PanelPackets(frames, kind, panel)|
                      && PanelPackets(frames, kind, panel)[k] == pkt;
      PacketPanel(frames, kind, panel, k);
    } else {
      assert pkt[1] == MASTER;
    }
  }

  /** Between any two packets to one panel the earlier one's write time has passed. */
  lemma UploadSpaced(frames: seq<Frame>, kind: LightsType, i: nat, j: nat)
    requires Uploadable(frames) && AllFewColors(frames)
    requires var cmds := UploadCommands(frames, kind);
      && i < j < |cmds| && cmds[i].Packet? && cmds[j].Packet? && PanelOf(cmds[i].pkt) == PanelOf(cmds[j].pkt)
    ensures Spaced(UploadCommands(frames, kind), i, j)
  {
    var cmds := UploadCommands(frames, kind);
    var lists := PanelLists(frames, kind);
    var twice := Rounds(lists) + Rounds(lists);
    CommandPanels(frames, kind, i);
    CommandPanels(frames, kind, j);
    ListsAddressed(frames, kind);
    assert cmds == twice + [cmds[|cmds| - 1]];
    assert cmds[i] == twice[i] && cmds[j] == twice[j];
    RepeatedRoundsSpaced(lists, i, j);
    var d :| i < d < j && twice[d].Delay? && twice[d].ms >= DelayFor(Size(twice[i].pkt));
    assert cmds[d] == twice[d];
  }

  /** No packet stands twice among ascending ones. */
  lemma {:induction false} AscendingOnce(list: seq<seq<byte>>, pkt: seq<byte>)
    requires Ascending(list)
    ensures OccursIn(list, pkt) <= 1
    decreases |list|
  {
    if list != [] {
      var rest := list[1..];
      AscendingOnce(rest, pkt);
      assert AsPackets(list)[1..] == AsPackets(rest);
      if list[0] == pkt {
        OccursMember(AsPackets(rest), pkt);
        forall k | 0 <= k < |rest|
          ensures AsPackets(rest)[k] != Packet(pkt)
        {
          assert rest[k] == list[k + 1];
        }
      }
    }
  }

  lemma PanelAscends(frames: seq<Frame>, kind: LightsType, panel: nat)
    requires Uploadable(frames) && AllFewColors(frames) && panel < PANELS
    ensures Ascending(PanelPackets(frames, kind, panel))
  {
    var anim := TypeIndex(kind);
    var g, p := GraphicsBytes(frames, panel), PaletteBytes(PanelPalette(frames, panel));
    BlockAscends(g, GraphicsAddress(kind), panel as byte, anim);
    BlockAscends(p, PaletteAddress(kind), panel as byte, anim);
    AscendingAppend(GraphicsPackets(frames, kind, panel), PalettePackets(frames, kind, panel),
                    GraphicsAddress(kind), GraphicsAddress(kind) + |g|, PaletteAddress(kind), PaletteAddress(kind) + |p|);
  }

  /** A packet can only stand in the list of its own panel. */
  lemma OtherPanels(lists: seq<seq<seq<byte>>>, p: nat, pkt: seq<byte>)
    requires Addressed(lists) && p < |lists| && PanelOf(pkt) != p
    ensures OccursIn(lists[p], pkt) == 0
  {
    OccursMember(AsPackets(lists[p]), pkt);
    forall k | 0 <= k < |lists[p]|
      ensures AsPackets(lists[p])[k] != Packet(pkt)
    {
      assert PanelOf(lists[p][k]) == p;
    }
  }

  lemma {:induction false} OnceInAll(lists: seq<seq<seq<byte>>>, n: nat, pkt: seq<byte>)
    requires Addressed(lists) && n <= |lists|
    requires forall p :: 0 <= p < |lists| ==> OccursIn(lists[p], pkt) <= 1
    ensures OccursInAll(lists[..n], pkt) <= if 0 <= PanelOf(pkt) < n then 1 else 0
  {
    if n > 0 {
      OnceInAll(lists, n - 1, pkt);
      assert lists[..n][..n - 1] == lists[..n - 1] && lists[..n][n - 1] == lists[n - 1];
      if PanelOf(pkt) != n - 1 {
        OtherPanels(lists, n - 1, pkt);
      }
    }
  }

  lemma PreparedOnce(frames: seq<Frame>, kind: LightsType, pkt: seq<byte>)
    requires Uploadable(frames) && AllFewColors(frames)
    ensures OccursInAll(PanelLists(frames, kind), pkt) <= 1
  {
    var lists := PanelLists(frames, kind);
    ListsAddressed(frames, kind);
    forall p | 0 <= p < |lists|
      ensures OccursIn(lists[p], pkt) <= 1
    {
      PanelAscends(frames, kind, p);
      AscendingOnce(lists[p], pkt);
    }
    OnceInAll(lists, |lists|, pkt);
    assert lists[..|lists|] == lists;
  }

  /** Every prepared panel packet is sent exactly twice. */
  lemma PanelPacketsTwice(frames: seq<Frame>, kind: LightsType, pkt: seq<byte>)
    requires Uploadable(frames) && AllFewColors(frames)
    requires InSomeList(PanelLists(frames, kind), pkt)
    ensures Occurs(UploadCommands(frames, kind), pkt) == 2
  {
    var lists := PanelLists(frames, kind);
    var rounds := Rounds(lists);
    var last := [Packet(FinalPacket(frames, kind))];
    RoundsOccurs(lists, pkt);
    OccursInAllMember(lists, pkt);
    PreparedOnce(frames, kind, pkt);
    OccursAppend(rounds, rounds, pkt);
    OccursAppend(rounds + rounds, last, pkt);
    ListsAddressed(frames, kind);
    var panel :| 0 <= panel < |lists| && pkt in lists[panel];
    assert pkt[3] == 0 && FinalPacket(frames, kind)[3] == 1;
    assert last[1..] == [];
  }

  // ─── What the device then shows ───────────────────────────────────────────

  /** Where byte `k` of frame `f`'s graphic of a panel is stored. */
  function GraphicKey(kind: LightsType, panel: nat, f: nat, k: nat): Key
    requires panel < PANELS
  {
    Key(panel as byte, TypeIndex(kind), GraphicsAddress(kind) + GRAPHIC_SIZE * f + k)
  }

  /** Where one channel of a palette entry of a panel is stored. */
  function PaletteKey(kind: LightsType, panel: nat, index: nat, channel: nat): Key
    requires panel < PANELS
  {
    Key(panel as byte, TypeIndex(kind), PaletteAddress(kind) + 3 * index + channel)
  }

  lemma GraphicByte(frames: seq<Frame>, panel: nat, f: nat, k: nat)
    requires Uploadable(frames) && AllFewColors(frames)
    requires panel < PANELS && f < |frames| && k < GRAPHIC_SIZE
    ensures GRAPHIC_SIZE * f + k < |GraphicsBytes(frames, panel)|
    ensures GraphicsBytes(frames, panel)[GRAPHIC_SIZE * f + k]
         == Packed(PanelLeds(frames[f], panel), PanelPalette(frames, panel))[k]
  {
    var slots := GraphicSlots(frames, panel);
    ConcatPart(slots, GRAPHIC_SIZE, f);
    var cut := GraphicsBytes(frames, panel)[GRAPHIC_SIZE * f..GRAPHIC_SIZE * f + GRAPHIC_SIZE];
    assert cut == slots[f] == GraphicSlot(frames, panel, f);
    assert GraphicsBytes(frames, panel)[GRAPHIC_SIZE * f + k] == cut[k];
  }

  lemma IntendedInGraphics(frames: seq<Frame>, kind: LightsType, panel: nat, at: nat)
    requires Uploadable(frames) && AllFewColors(frames)
    requires panel < PANELS && at < |GraphicsBytes(frames, panel)|
    ensures Intended(frames, kind, Key(panel as byte, TypeIndex(kind), GraphicsAddress(kind) + at))
         == Some(GraphicsBytes(frames, panel)[at])
  {
  }

  lemma GraphicIntended(frames: seq<Frame>, kind: LightsType, panel: nat, f: nat, k: nat)
    requires Uploadable(frames) && AllFewColors(frames)
    requires panel < PANELS && f < |frames| && k < GRAPHIC_SIZE
    ensures Intended(frames, kind, GraphicKey(kind, panel, f, k))
         == Some(Packed(PanelLeds(frames[f], panel), PanelPalette(frames, panel))[k])
  {
    GraphicByte(frames, panel, f, k);
    IntendedInGraphics(frames, kind, panel, GRAPHIC_SIZE * f + k);
    assert GraphicKey(kind, panel, f, k)
        == Key(panel as byte, TypeIndex(kind), GraphicsAddress(kind) + (GRAPHIC_SIZE * f + k));
  }

  lemma PaletteIntended(frames: seq<Frame>, kind: LightsType, panel: nat, index: nat, channel: nat)
    requires Uploadable(frames) && AllFewColors(frames)
    requires panel < PANELS && index < PALETTE_SIZE && channel < 3
    ensures Intended(frames, kind, PaletteKey(kind, panel, index, channel))
         == Some(ScaleColor(Channel(PanelPalette(frames, panel)[index], channel)))
  {
  }

  /** A byte of memory after the upload; what was there before does not matter where it writes. */
  function Stored(frames: seq<Frame>, kind: LightsType, key: Key, before: Option<byte>): Option<byte>
    requires Uploadable(frames) && AllFewColors(frames)
  {
    After(UploadCommands(frames, kind), key, before)
  }

  /** The nibble of LED `led` in a stored graphic byte. */
  function NibbleOf(stored: Option<byte>, led: nat): nat {
    var b := if stored.Some? then stored.value as nat else 0;
    if led % 2 == 0 then b / 16 else b % 16
  }

  lemma StoredNibble(frames: seq<Frame>, kind: LightsType, panel: nat, f: nat, led: nat, before: Option<byte>)
    requires Uploadable(frames) && AllFewColors(frames)
    requires panel < PANELS && f < |frames| && led < LEDS
    ensures NibbleOf(Stored(frames, kind, GraphicKey(kind, panel, f, led / 2), before), led)
         == UnpackedNibble(Packed(PanelLeds(frames[f], panel), PanelPalette(frames, panel)), led)
  {
    GraphicIntended(frames, kind, panel, f, led / 2);
    UploadLeavesImage(frames, kind, GraphicKey(kind, panel, f, led / 2), before);
  }

  lemma StoredColor(frames: seq<Frame>, kind: LightsType, panel: nat, index: nat, channel: nat, before: Option<byte>)
    requires Uploadable(frames) && AllFewColors(frames)
    requires panel < PANELS && index < PALETTE_SIZE && channel < 3
    ensures Stored(frames, kind, PaletteKey(kind, panel, index, channel), before)
         == Some(ScaleColor(Channel(PanelPalette(frames, panel)[index], channel)))
  {
    PaletteIntended(frames, kind, panel, index, channel);
    UploadLeavesImage(frames, kind, PaletteKey(kind, panel, index, channel), before);
  }

  lemma NibbleShowsColor(leds: seq<PanelFrame>, palette: seq<Color>, f: nat, led: nat)
    requires |Distinct(Concat(leds))| <= PALETTE_SIZE && palette == Padded(Distinct(Concat(leds)))
    requires f < |leds| && led < |leds[f]|
    ensures var nibble := UnpackedNibble(Packed(leds[f], palette), led);
      && nibble < 16
      && (nibble == TRANSPARENT <==> leds[f][led] == BLACK)
      && (nibble < PALETTE_SIZE ==> palette[nibble] == leds[f][led])
  {
    PackedFramesDecode(leds, f, led);
  }

  /**
   Reading the memory back as the device does shows the animation: every LED of
   every uploaded frame is transparent exactly where the image is black, and
   otherwise its palette entry holds the scaled colour.
   */
  lemma UploadedLedReadsBack(frames: seq<Frame>, kind: LightsType, panel: nat, f: nat, led: nat, channel: nat,
                             before: Option<byte>)
    requires Uploadable(frames) && AllFewColors(frames)
    requires panel < PANELS && f < |frames| && led < LEDS && channel < 3
    requires Sized(frames[f], 23, 24)
    ensures var color := LedColor(frames[f], panel, led);
      var nibble := NibbleOf(Stored(frames, kind, GraphicKey(kind, panel, f, led / 2), before), led);
      && (nibble == TRANSPARENT <==> color == BLACK)
      && (color != BLACK ==>
            && nibble < PALETTE_SIZE
            && Stored(frames, kind, PaletteKey(kind, panel, nibble, channel), before)
               == Some(ScaleColor(Channel(color, channel))))
  {
    var leds := PanelFrames(frames, panel);
    assert leds[f][led] == LedColor(frames[f], panel, led);
    StoredNibble(frames, kind, panel, f, led, before);
    DistinctCountsUsed(Concat(leds));
    NibbleShowsColor(leds, PanelPalette(frames, panel), f, led);
    var nibble := UnpackedNibble(Packed(leds[f], PanelPalette(frames, panel)), led);
    if nibble < PALETTE_SIZE {
      StoredColor(frames, kind, panel, nibble, channel, before);
    }
  }

  // ─── Both animations in one memory ────────────────────────────────────────

  /** The two uploads' packets in any order, interleaved and repeated in any way, and none other. */
  predicate MixOf(cmds: seq<Command>, first: seq<Command>, second: seq<Command>) {
    && (forall i :: 0 <= i < |cmds| && cmds[i].Packet? ==> cmds[i] in first || cmds[i] in second)
    && (forall c :: c in first && c.Packet? ==> c in cmds)
    && (forall c :: c in second && c.Packet? ==> c in cmds)
  }

  /** What both uploads mean a panel to hold at `offset`, the animation index left aside. */
  function BothIntended(released: seq<Frame>, pressed: seq<Frame>, panel: byte, offset: nat): Option<byte>
    requires Uploadable(released) && AllFewColors(released) && Uploadable(pressed) && AllFewColors(pressed)
  {
    var r := Intended(released, Released, Key(panel, TypeIndex(Released), offset));
    if r.Some? then r else Intended(pressed, Pressed, Key(panel, TypeIndex(Pressed), offset))
  }

  /** The graphics and palettes of the two animation types lie apart in a panel's memory. */
  lemma TypesApart(released: seq<Frame>, pressed: seq<Frame>, panel: byte, offset: nat)
    requires Uploadable(released) && AllFewColors(released) && Uploadable(pressed) && AllFewColors(pressed)
    requires (panel as int) < PANELS
    ensures Intended(released, Released, Key(panel, TypeIndex(Released), offset)).None?
         || Intended(pressed, Pressed, Key(panel, TypeIndex(Pressed), offset)).None?
  {
  }

  /** A packet of one upload writes at an address what that upload means to have there. */
  lemma FlatWrites(frames: seq<Frame>, kind: LightsType, i: nat, panel: byte, offset: nat)
    requires Uploadable(frames) && AllFewColors(frames) && IsPacket(UploadCommands(frames, kind), i)
    requires FlatWritten(UploadCommands(frames, kind)[i].pkt, panel, offset).Some?
    ensures FlatWritten(UploadCommands(frames, kind)[i].pkt, panel, offset)
         == Intended(frames, kind, Key(panel, TypeIndex(kind), offset))
  {
    var pkt := UploadCommands(frames, kind)[i].pkt;
    UploadAgrees(frames, kind, Key(panel, pkt[2], offset));
    assert Written(pkt, Key(panel, pkt[2], offset)) == Intended(frames, kind, Key(panel, pkt[2], offset));
  }

  lemma FlatCovers(frames: seq<Frame>, kind: LightsType, cmds: seq<Command>, panel: byte, offset: nat)
    requires Uploadable(frames) && AllFewColors(frames)
    requires forall c :: c in UploadCommands(frames, kind) && c.Packet? ==> c in cmds
    requires Intended(frames, kind, Key(panel, TypeIndex(kind), offset)).Some?
    ensures FlatCovered(cmds, panel, offset)
  {
    var key := Key(panel, TypeIndex(kind), offset);
    var all := UploadCommands(frames, kind);
    UploadCovers(frames, kind, key);
    var i :| 0 <= i < |all| && all[i].Packet? && Written(all[i].pkt, key).Some?;
    assert all[i] in cmds;
    var k :| 0 <= k < |cmds| && cmds[k] == all[i];
    assert FlatWritten(cmds[k].pkt, panel, offset).Some?;
  }

  lemma MixWrites(released: seq<Frame>, pressed: seq<Frame>, c: Command, panel: byte, offset: nat)
    requires Uploadable(released) && AllFewColors(released) && Uploadable(pressed) && AllFewColors(pressed)
    requires (panel as int) < PANELS
    requires c in UploadCommands(released, Released) || c in UploadCommands(pressed, Pressed)
    requires c.Packet? && FlatWritten(c.pkt, panel, offset).Some?
    ensures FlatWritten(c.pkt, panel, offset) == BothIntended(released, pressed, panel, offset)
  {
    TypesApart(released, pressed, panel, offset);
    if i :| 0 <= i < |UploadCommands(released, Released)| && UploadCommands(released, Released)[i] == c {
      FlatWrites(released, Released, i, panel, offset);
    } else {
      var i :| 0 <= i < |UploadCommands(pressed, Pressed)| && UploadCommands(pressed, Pressed)[i] == c;
      FlatWrites(pressed, Pressed, i, panel, offset);
    }
  }

  /**
   Even where a panel's memory is one address space for both types, uploading a released and a
   pressed animation, one after the other or mixed, leaves both images there whole and the rest
   as it was.
   */
  lemma BothImagesLeft(released: seq<Frame>, pressed: seq<Frame>, cmds: seq<Command>, panel: byte, offset: nat,
                       before: Option<byte>)
    requires Uploadable(released) && AllFewColors(released) && Uploadable(pressed) && AllFewColors(pressed)
    requires MixOf(cmds, UploadCommands(released, Released), UploadCommands(pressed, Pressed))
    requires (panel as int) < PANELS
    ensures var r := Intended(released, Released, Key(panel, TypeIndex(Released), offset));
      var p := Intended(pressed, Pressed, Key(panel, TypeIndex(Pressed), offset));
      && (r.None? || p.None?)
      && FlatAfter(cmds, panel, offset, before) == if r.Some? then r else if p.Some? then p else before
  {
    var intended := BothIntended(released, pressed, panel, offset);
    forall i | 0 <= i < |cmds| && cmds[i].Packet? && FlatWritten(cmds[i].pkt, panel, offset).Some?
      ensures FlatWritten(cmds[i].pkt, panel, offset) == intended
    {
      MixWrites(released, pressed, cmds[i], panel, offset);
    }
    FlatAgreeing(cmds, panel, offset, intended, before);
    TypesApart(released, pressed, panel, offset);
    if Intended(released, Released, Key(panel, TypeIndex(Released), offset)).Some? {
      FlatCovers(released, Released, cmds, panel, offset);
    } else if Intended(pressed, Pressed, Key(panel, TypeIndex(Pressed), offset)).Some? {
      FlatCovers(pressed, Pressed, cmds, panel, offset);
    }
  }

  // ─── The timing block ─────────────────────────────────────────────────────

  /** What single precision may add to or take from a number of ticks. */
  const TICK_ROUNDING: real := 1.0 / 32768.0

  /**
   `ticks` thirtieths of a second are the duration, rounded and kept between 1 and 255: to a
   nearest one, except that within `TICK_ROUNDING` of a tie it may be either.
   */
  predicate NearestTicks(duration: real, ticks: byte) {
    && 1 <= ticks
    && (1 < ticks ==> ticks as real - 0.5 - TICK_ROUNDING <= duration * 30.0)
    && (ticks < 255 ==> duration * 30.0 <= ticks as real + 0.5 + TICK_ROUNDING)
  }

  lemma DelayIsNearest(duration: real)
    ensures NearestTicks(duration, DelayFrames(duration))
  {
    var product := Single(duration * 30.0);
    var v := Single(product + 0.5);
    if 1.0 <= v <= 255.0 {
      assert v.Floor as real <= v < v.Floor as real + 1.0;
    }
  }

  function MasterKey(kind: LightsType, offset: nat): Key {
    Key(0xFF, if kind.Released? then 0 else 1, offset)
  }

  lemma TimingStored(frames: seq<Frame>, kind: LightsType, offset: nat, before: Option<byte>)
    requires Uploadable(frames) && AllFewColors(frames) && offset < TIMING_SIZE
    ensures Stored(frames, kind, MasterKey(kind, offset), before) == Some(TimingData(frames, kind)[offset])
  {
    UploadLeavesImage(frames, kind, MasterKey(kind, offset), before);
  }

  /** The loop frame, and what slot `f` shows and for how long; slots beyond the last frame are unused. */
  predicate TimingRight(frames: seq<Frame>, kind: LightsType, f: nat, loop: byte, graphic: byte, ticks: byte)
    requires Uploadable(frames)
  {
    && IsLoopFrame(frames, 23, 24, loop)
    && (f < |frames| ==> graphic as int == (if kind.Released? then 0 else 32) + f && NearestTicks(frames[f].duration, ticks))
    && (f >= |frames| ==> graphic == 255 && ticks == 0)
  }

  lemma TimingParts(frames: seq<Frame>, kind: LightsType, f: nat)
    requires Uploadable(frames) && f < GRAPHIC_SLOTS
    ensures var t := TimingData(frames, kind); TimingRight(frames, kind, f, t[0], t[1 + f], t[65 + f])
  {
    var t := TimingData(frames, kind);
    assert IsLoopFrame(frames, 23, 24, LoopFrame(frames, 23, 24));
    assert t[1 + f] == TimingFrame(frames, kind, f) && t[65 + f] == TimingDelay(frames, f);
    if f < |frames| {
      DelayIsNearest(frames[f].duration);
    }
  }

  /**
   The master block in memory says where the animation loops, which graphic each frame
   shows and for how long.
   */
  lemma UploadedTimingReadsBack(frames: seq<Frame>, kind: LightsType, f: nat, before: Option<byte>)
    requires Uploadable(frames) && AllFewColors(frames) && f < GRAPHIC_SLOTS
    ensures var loop := Stored(frames, kind, MasterKey(kind, 0), before);
      var graphic := Stored(frames, kind, MasterKey(kind, 1 + f), before);
      var ticks := Stored(frames, kind, MasterKey(kind, 65 + f), before);
      && loop.Some? && graphic.Some? && ticks.Some?
      && TimingRight(frames, kind, f, loop.value, graphic.value, ticks.value)
  {
    TimingStored(frames, kind, 0, before);
    TimingStored(frames, kind, 1 + f, before);
    TimingStored(frames, kind, 65 + f, before);
    TimingParts(frames, kind, f);
  }

  // ─── Integers for single precision ────────────────────────────────────────

  /** 3333 has no factor in common with 5000. */
  lemma FiveThousandth(n: nat, whole: int)
    requires n * 3333 == 5000 * whole
    ensures n % 5000 == 0
  {
    assert n == 5000 * (2 * n - 3 * whole);
  }

  /** The product of a colour byte, in ten-thousandths, is at least two away from any integer. */
  lemma ColorResidue(n: nat, whole: int)
    requires 0 < n <= 255 && 10000 * whole <= n * 6666 < 10000 * whole + 10000
    ensures 10000 * whole + 2 <= n * 6666 <= 10000 * whole + 9998
  {
    var thousands := n * 3333;
    assert n * 6666 == 2 * thousands;
    if thousands == 5000 * whole {
      FiveThousandth(n, whole);
    }
  }

  /** A number near a fraction well inside a unit has that unit's floor. */
  lemma FloorNear(v: real, whole: int, exact: real, error: real)
    requires Near(v, exact, error)
    requires whole as real + error <= exact && exact + error < whole as real + 1.0
    ensures v.Floor == whole
  {
  }

  lemma InTenThousandths(n: nat, whole: int)
    requires 10000 * whole + 2 <= n * 6666 <= 10000 * whole + 9998
    ensures whole as real + 0.0002 <= n as real * 0.6666 <= whole as real + 0.9998
  {
  }

  /** No product but 0 is near an integer, so scaling a colour truncates as in integers. */
  lemma ScaleColorIsRounded(round: real -> real, c: byte)
    requires IsRounding(round)
    ensures round(c as real * round(0.6666)).Floor == ScaleColor(c) as int
  {
    var n := c as int;
    ByteProduct(round, n as real, 0.6666, 171.0);
    if n == 0 {
      assert c as real * round(0.6666) == 0.0;
    } else {
      ColorResidue(n, n * 6666 / 10000);
      InTenThousandths(n, n * 6666 / 10000);
      FloorNear(round(n as real * round(0.6666)), n * 6666 / 10000, n as real * 0.6666, 0.0001);
    }
  }

  /** Half a millisecond more, in tenths, is never an integer. */
  lemma DelayResidue(size: nat, whole: int)
    requires whole == (34 * size + 5) / 10
    ensures whole as real + 0.1 <= size as real * 3.4 + 0.5 <= whole as real + 0.9
  {
    var tenths := 34 * size + 5;
    assert tenths == 2 * (17 * size + 2) + 1;
    assert 10 * whole + 1 <= tenths <= 10 * whole + 9;
  }

  /** No product is near a tie, so a delay rounds as in integers. */
  lemma DelayIsRounded(round: real -> real, size: nat)
    requires IsRounding(round) && size <= 255
    ensures round(round(size as real * round(3.4)) + 0.5).Floor == DelayFor(size)
  {
    ByteProduct(round, size as real, 3.4, 868.0);
    var product := round(size as real * round(3.4));
    SlackGrows(product + 0.5, 869.0);
    DelayResidue(size, DelayFor(size));
    FloorNear(round(product + 0.5), DelayFor(size), size as real * 3.4 + 0.5, 0.002);
  }
}
