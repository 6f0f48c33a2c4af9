/**
 Interleaving the panels' upload packets: each round sends the last packet of
 every panel that has one left and then waits for the slowest of them.
 */
module Interleave {
  import opened Bytes
  import opened UploadPackets

  /** 3.4 ms per byte, rounded, in integers. */
  function DelayFor(size: nat): nat {
    (34 * size + 5) / 10
  }

  predicate Sendable(pkt: seq<byte>) {
    |pkt| >= HEADER_SIZE
  }

  predicate AllSendable(lists: seq<seq<seq<byte>>>) {
    forall p, k :: 0 <= p < |lists| && 0 <= k < |lists[p]| ==> Sendable(lists[p][k])
  }

  function LastOf(list: seq<seq<byte>>): seq<seq<byte>> {
    if list == [] then [] else [list[|list| - 1]]
  }

  function InitOf(list: seq<seq<byte>>): seq<seq<byte>> {
    if list == [] then [] else list[..|list| - 1]
  }

  /** The packets one round sends, panel by panel. */
  function Tops(lists: seq<seq<seq<byte>>>): seq<seq<byte>> {
    if lists == [] then [] else Tops(lists[..|lists| - 1]) + LastOf(lists[|lists| - 1])
  }

  function Popped(lists: seq<seq<seq<byte>>>): (rest: seq<seq<seq<byte>>>)
    ensures |rest| == |lists|
  {
    seq(|lists|, p requires 0 <= p < |lists| => InitOf(lists[p]))
  }

  function MaxSize(pkts: seq<seq<byte>>): nat {
    if pkts == [] then 0 else Max(MaxSize(pkts[..|pkts| - 1]), Size(pkts[|pkts| - 1]))
  }

  function Total(lists: seq<seq<seq<byte>>>): nat {
    if lists == [] then 0 else Total(lists[..|lists| - 1]) + |lists[|lists| - 1]|
  }

  function AsPackets(pkts: seq<seq<byte>>): (cmds: seq<Command>)
    ensures |cmds| == |pkts|
  {
    seq(|pkts|, i requires 0 <= i < |pkts| => Packet(pkts[i]))
  }

  /** A round takes one packet from each panel that has one. */
  lemma {:induction false} RoundShrinks(lists: seq<seq<seq<byte>>>)
    ensures Total(Popped(lists)) + |Tops(lists)| == Total(lists)
  {
    if lists != [] {
      var init := lists[..|lists| - 1];
      RoundShrinks(init);
      assert Popped(lists)[..|lists| - 1] == Popped(init);
    }
  }

  /** One round: its packets, then the delay. */
  function Round(lists: seq<seq<seq<byte>>>): seq<Command> {
    AsPackets(Tops(lists)) + [Delay(DelayFor(MaxSize(Tops(lists))))]
  }

  function Rounds(lists: seq<seq<seq<byte>>>): seq<Command>
    decreases Total(lists)
  {
    if Tops(lists) == [] then []
    else
      RoundShrinks(lists);
      Round(lists) + Rounds(Popped(lists))
  }

  lemma TopsSnoc(lists: seq<seq<seq<byte>>>, p: nat)
    requires p < |lists|
    ensures Tops(lists[..p + 1]) == Tops(lists[..p]) + LastOf(lists[p])
  {
    assert lists[..p + 1][..p] == lists[..p];
  }

  lemma AsPacketsSnoc(pkts: seq<seq<byte>>, pkt: seq<byte>)
    ensures AsPackets(pkts + [pkt]) == AsPackets(pkts) + [Packet(pkt)]
  {
  }

  lemma MaxSizeSnoc(pkts: seq<seq<byte>>, pkt: seq<byte>)
    ensures MaxSize(pkts + [pkt]) == Max(MaxSize(pkts), Size(pkt))
  {
    assert (pkts + [pkt])[..|pkts|] == pkts;
  }

  /** The lists after the first `p` of them gave up their last packet. */
  function PartlyPopped(lists: seq<seq<seq<byte>>>, p: nat): (rest: seq<seq<seq<byte>>>)
    requires p <= |lists|
    ensures |rest| == |lists|
  {
    Popped(lists[..p]) + lists[p..]
  }

  lemma PoppedMore(lists: seq<seq<seq<byte>>>, p: nat)
    requires p < |lists|
    ensures PartlyPopped(lists, p)[p] == lists[p]
    ensures PartlyPopped(lists, p)[p := InitOf(lists[p])] == PartlyPopped(lists, p + 1)
  {
    var before, after := PartlyPopped(lists, p)[p := InitOf(lists[p])], PartlyPopped(lists, p + 1);
    forall k | 0 <= k < |lists|
      ensures before[k] == after[k]
    {
    }
  }

  /** What a round has sent so far. */
  predicate Sending(tops: seq<seq<byte>>, commands: seq<Command>, maxSize: nat) {
    commands == AsPackets(tops) && maxSize == MaxSize(tops)
  }

  lemma TopSent(tops: seq<seq<byte>>, commands: seq<Command>, maxSize: nat, pkt: seq<byte>)
    requires Sending(tops, commands, maxSize) && Sendable(pkt)
    ensures Sending(tops + [pkt], commands + [Packet(pkt)], Max(maxSize, pkt[6] as int))
  {
    MaxSizeSnoc(tops, pkt);
    AsPacketsSnoc(tops, pkt);
  }

  /** A round has reached panel `p`. */
  predicate RoundAt(lists: seq<seq<seq<byte>>>, p: nat, commands: seq<Command>, remaining: seq<seq<seq<byte>>>,
                    addedAny: bool, maxSize: nat)
    requires p <= |lists|
  {
    && remaining == PartlyPopped(lists, p)
    && Sending(Tops(lists[..p]), commands, maxSize)
    && addedAny == (Tops(lists[..p]) != [])
  }

  /** Pops and sends the last packet of one panel's list, if it has one. */
  method SendTop(ghost lists: seq<seq<seq<byte>>>, panel: nat, commands: seq<Command>,
                 remaining: seq<seq<seq<byte>>>, addedAny: bool, maxSize: nat)
    returns (sent: seq<Command>, left: seq<seq<seq<byte>>>, any: bool, size: nat)
    requires AllSendable(lists) && panel < |lists| && RoundAt(lists, panel, commands, remaining, addedAny, maxSize)
    ensures RoundAt(lists, panel + 1, sent, left, any, size)
  {
    TopsSnoc(lists, panel);
    PoppedMore(lists, panel);
    sent, left, any, size := commands, remaining, addedAny, maxSize;
    var list := remaining[panel];
    if list != [] {
      var pkt := list[|list| - 1];
      assert Sendable(lists[panel][|list| - 1]);
      TopSent(Tops(lists[..panel]), commands, maxSize, pkt);
      left := remaining[panel := list[..|list| - 1]];
      size := Max(maxSize, pkt[6] as int);
      sent := commands + [Packet(pkt)];
      any := true;
    } else {
      assert Tops(lists[..panel]) + [] == Tops(lists[..panel]);
      assert remaining[panel := list] == remaining;
    }
  }

  /** One pass over the panels: pops the last packet of each list that has one. */
  method SendRound(lists: seq<seq<seq<byte>>>)
    returns (commands: seq<Command>, remaining: seq<seq<seq<byte>>>, addedAny: bool, maxSize: nat)
    requires AllSendable(lists)
    ensures commands == AsPackets(Tops(lists))
    ensures remaining == Popped(lists)
    ensures addedAny <==> Tops(lists) != []
    ensures maxSize == MaxSize(Tops(lists))
  {
    commands, remaining, addedAny, maxSize := [], lists, false, 0;
    assert PartlyPopped(lists, 0) == lists;
    for panel := 0 to |lists|
      invariant RoundAt(lists, panel, commands, remaining, addedAny, maxSize)
    {
      commands, remaining, addedAny, maxSize := SendTop(lists, panel, commands, remaining, addedAny, maxSize);
    }
    assert lists[..|lists|] == lists;
    assert PartlyPopped(lists, |lists|) == Popped(lists);
  }

  method InterleavePackets(lists: seq<seq<seq<byte>>>) returns (commands: seq<Command>)
    requires AllSendable(lists)
    ensures commands == Rounds(lists)
  {
    commands := [];
    var left := lists;
    while true
      invariant AllSendable(left)
      invariant commands + Rounds(left) == Rounds(lists)
      decreases Total(left)
    {
      var sent, remaining, addedAny, maxSize := SendRound(left);
      if !addedAny {
        break;
      }
      RoundShrinks(left);
      Assoc(commands, Round(left), Rounds(remaining));
      Assoc(commands, sent, [Delay(DelayFor(maxSize))]);
      commands := commands + sent + [Delay(DelayFor(maxSize))];
      left := remaining;
    }
  }

  // ─── Spacing ──────────────────────────────────────────────────────────────

  /** The packet at `i` has a long enough delay behind it before its panel is written again. */
  predicate Settled(cmds: seq<Command>, i: nat)
    requires i < |cmds| && cmds[i].Packet?
  {
    exists d :: i < d < |cmds| && SettledBy(cmds, i, d)
  }

  predicate SettledBy(cmds: seq<Command>, i: nat, d: nat)
    requires i < d < |cmds| && cmds[i].Packet?
  {
    && cmds[d].Delay? && cmds[d].ms >= DelayFor(Size(cmds[i].pkt))
    && (forall j :: i < j < d && cmds[j].Packet? ==> PanelOf(cmds[j].pkt) != PanelOf(cmds[i].pkt))
  }

  predicate WellDelayed(cmds: seq<Command>) {
    forall i :: 0 <= i < |cmds| && cmds[i].Packet? ==> Settled(cmds, i)
  }

  lemma WellDelayedAppend(a: seq<Command>, b: seq<Command>)
    requires WellDelayed(a) && WellDelayed(b)
    ensures WellDelayed(a + b)
  {
    var c := a + b;
    forall i | 0 <= i < |c| && c[i].Packet?
      ensures Settled(c, i)
    {
      if i < |a| {
        assert Settled(a, i);
        var d :| i < d < |a| && SettledBy(a, i, d);
        assert SettledBy(c, i, d);
      } else {
        assert Settled(b, i - |a|);
        var d :| i - |a| < d < |b| && SettledBy(b, i - |a|, d);
        assert SettledBy(c, i, d + |a|);
      }
    }
  }

  /** The packets of panel `p`'s list carry panel byte `p`. */
  predicate Addressed(lists: seq<seq<seq<byte>>>) {
    forall p, k :: 0 <= p < |lists| && 0 <= k < |lists[p]| ==> PanelOf(lists[p][k]) == p
  }

  lemma {:induction false} TopsPanels(lists: seq<seq<seq<byte>>>)
    requires Addressed(lists)
    ensures forall i :: 0 <= i < |Tops(lists)| ==> PanelOf(Tops(lists)[i]) < |lists|
    ensures forall i, j :: 0 <= i < j < |Tops(lists)| ==> PanelOf(Tops(lists)[i]) < PanelOf(Tops(lists)[j])
  {
    if lists != [] {
      assert Addressed(lists[..|lists| - 1]);
      TopsPanels(lists[..|lists| - 1]);
    }
  }

  lemma {:induction false} MaxSizeBounds(pkts: seq<seq<byte>>, i: nat)
    requires i < |pkts|
    ensures Size(pkts[i]) <= MaxSize(pkts)
  {
    if i < |pkts| - 1 {
      MaxSizeBounds(pkts[..|pkts| - 1], i);
    }
  }

  lemma RoundWellDelayed(lists: seq<seq<seq<byte>>>)
    requires Addressed(lists)
    ensures WellDelayed(Round(lists))
  {
    var cmds := Round(lists);
    var tops := Tops(lists);
    TopsPanels(lists);
    forall i | 0 <= i < |cmds| && cmds[i].Packet?
      ensures Settled(cmds, i)
    {
      MaxSizeBounds(tops, i);
      assert SettledBy(cmds, i, |tops|);
    }
  }

  lemma {:induction false} RoundsWellDelayed(lists: seq<seq<seq<byte>>>)
    requires Addressed(lists)
    ensures WellDelayed(Rounds(lists))
    decreases Total(lists)
  {
    if Tops(lists) != [] {
      RoundShrinks(lists);
      RoundWellDelayed(lists);
      RoundsWellDelayed(Popped(lists));
      WellDelayedAppend(Round(lists), Rounds(Popped(lists)));
    }
  }

  /** Between two packets to one panel there is a delay long enough for the earlier one. */
  predicate Spaced(cmds: seq<Command>, i: nat, j: nat)
    requires i < j < |cmds| && cmds[i].Packet?
  {
    exists d :: i < d < j && cmds[d].Delay? && cmds[d].ms >= DelayFor(Size(cmds[i].pkt))
  }

  lemma WellDelayedSpaced(cmds: seq<Command>, i: nat, j: nat)
    requires WellDelayed(cmds) && i < j < |cmds|
    requires cmds[i].Packet? && cmds[j].Packet?
    requires PanelOf(cmds[i].pkt) == PanelOf(cmds[j].pkt)
    ensures Spaced(cmds, i, j)
  {
    assert Settled(cmds, i);
    var d :| i < d < |cmds| && SettledBy(cmds, i, d);
    assert d != j && !(i < j < d);
  }

  /**
   EEPROM spacing, for any packet lists: when the rounds are sent twice, two packets
   to the same panel always have the earlier one's delay between them, across the
   seam of the two halves too.
   */
  lemma RepeatedRoundsSpaced(lists: seq<seq<seq<byte>>>, i: nat, j: nat)
    requires Addressed(lists)
    requires var cmds := Rounds(lists) + Rounds(lists);
      && i < j < |cmds| && cmds[i].Packet? && cmds[j].Packet?
      && PanelOf(cmds[i].pkt) == PanelOf(cmds[j].pkt)
    ensures Spaced(Rounds(lists) + Rounds(lists), i, j)
  {
    RoundsWellDelayed(lists);
    WellDelayedAppend(Rounds(lists), Rounds(lists));
    WellDelayedSpaced(Rounds(lists) + Rounds(lists), i, j);
  }

  // ─── Every packet is sent ─────────────────────────────────────────────────

  /** How often a packet is sent. */
  function Occurs(cmds: seq<Command>, pkt: seq<byte>): nat {
    if cmds == [] then 0 else (if cmds[0] == Packet(pkt) then 1 else 0) + Occurs(cmds[1..], pkt)
  }

  function OccursIn(list: seq<seq<byte>>, pkt: seq<byte>): nat {
    Occurs(AsPackets(list), pkt)
  }

  function OccursInAll(lists: seq<seq<seq<byte>>>, pkt: seq<byte>): nat {
    if lists == [] then 0 else OccursInAll(lists[..|lists| - 1], pkt) + OccursIn(lists[|lists| - 1], pkt)
  }

  lemma {:induction false} OccursAppend(a: seq<Command>, b: seq<Command>, pkt: seq<byte>)
    ensures Occurs(a + b, pkt) == Occurs(a, pkt) + Occurs(b, pkt)
  {
    if a == [] {
      assert a + b == b;
    } else {
      OccursAppend(a[1..], b, pkt);
      assert (a + b)[0] == a[0] && (a + b)[1..] == a[1..] + b;
    }
  }

  lemma LastAndInit(list: seq<seq<byte>>, pkt: seq<byte>)
    ensures OccursIn(list, pkt) == OccursIn(InitOf(list), pkt) + OccursIn(LastOf(list), pkt)
  {
    OccursAppend(AsPackets(InitOf(list)), AsPackets(LastOf(list)), pkt);
    assert AsPackets(list) == AsPackets(InitOf(list)) + AsPackets(LastOf(list));
  }

  lemma PoppedLast(lists: seq<seq<seq<byte>>>)
    requires lists != []
    ensures Popped(lists)[..|lists| - 1] == Popped(lists[..|lists| - 1])
    ensures Popped(lists)[|lists| - 1] == InitOf(lists[|lists| - 1])
  {
  }

  lemma {:induction false} TopsLast(lists: seq<seq<seq<byte>>>)
    requires lists != []
    ensures AsPackets(Tops(lists)) == AsPackets(Tops(lists[..|lists| - 1])) + AsPackets(LastOf(lists[|lists| - 1]))
  {
  }

  lemma {:induction false} RoundOccurs(lists: seq<seq<seq<byte>>>, pkt: seq<byte>)
    ensures OccursInAll(lists, pkt) == OccursInAll(Popped(lists), pkt) + OccursIn(Tops(lists), pkt)
  {
    if lists != [] {
      var init, last := lists[..|lists| - 1], lists[|lists| - 1];
      RoundOccurs(init, pkt);
      LastAndInit(last, pkt);
      PoppedLast(lists);
      TopsLast(lists);
      OccursAppend(AsPackets(Tops(init)), AsPackets(LastOf(last)), pkt);
    }
  }

  lemma {:induction false} NothingLeft(lists: seq<seq<seq<byte>>>, pkt: seq<byte>)
    requires Tops(lists) == []
    ensures OccursInAll(lists, pkt) == 0
  {
    if lists != [] {
      NothingLeft(lists[..|lists| - 1], pkt);
    }
  }

  /** The rounds send every packet exactly as often as the lists hold it. */
  lemma {:induction false} RoundsOccurs(lists: seq<seq<seq<byte>>>, pkt: seq<byte>)
    ensures Occurs(Rounds(lists), pkt) == OccursInAll(lists, pkt)
    decreases Total(lists)
  {
    if Tops(lists) == [] {
      NothingLeft(lists, pkt);
    } else {
      RoundShrinks(lists);
      RoundOccurs(lists, pkt);
      RoundsOccurs(Popped(lists), pkt);
      var delay := [Delay(DelayFor(MaxSize(Tops(lists))))];
      OccursAppend(AsPackets(Tops(lists)), delay, pkt);
      assert delay[1..] == [] && Occurs(delay, pkt) == 0;
      OccursAppend(Round(lists), Rounds(Popped(lists)), pkt);
    }
  }

  lemma {:induction false} OccursMember(cmds: seq<Command>, pkt: seq<byte>)
    ensures Occurs(cmds, pkt) > 0 <==> Packet(pkt) in cmds
  {
    if cmds != [] {
      assert cmds == [cmds[0]] + cmds[1..];
      OccursMember(cmds[1..], pkt);
    }
  }

  predicate InSomeList(lists: seq<seq<seq<byte>>>, pkt: seq<byte>) {
    exists p :: 0 <= p < |lists| && pkt in lists[p]
  }

  lemma {:induction false} OccursInAllMember(lists: seq<seq<seq<byte>>>, pkt: seq<byte>)
    ensures OccursInAll(lists, pkt) > 0 <==> InSomeList(lists, pkt)
  {
    if lists != [] {
      var init, last := lists[..|lists| - 1], lists[|lists| - 1];
      OccursInAllMember(init, pkt);
      OccursMember(AsPackets(last), pkt);
      PacketMember(last, pkt);
      if p :| 0 <= p < |init| && pkt in init[p] {
        assert pkt in lists[p];
      }
    }
  }

  lemma PacketMember(list: seq<seq<byte>>, pkt: seq<byte>)
    ensures Packet(pkt) in AsPackets(list) <==> pkt in list
  {
    if pkt in list {
      var k :| 0 <= k < |list| && list[k] == pkt;
      assert AsPackets(list)[k] == Packet(pkt);
    }
  }

  /** A packet is sent in the rounds exactly if some list holds it. */
  lemma RoundsMembers(lists: seq<seq<seq<byte>>>, pkt: seq<byte>)
    ensures Packet(pkt) in Rounds(lists) <==> InSomeList(lists, pkt)
  {
    RoundsOccurs(lists, pkt);
    OccursMember(Rounds(lists), pkt);
    OccursInAllMember(lists, pkt);
  }
}
