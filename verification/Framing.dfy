/**
 The Report 6 byte buffer between the poll thread and the main thread: bytes are
 appended, taken as a whole, cut into packets, and the unfinished remainder is
 put back in front of whatever arrived in the meantime.
 */
module Framing {
  import opened Bytes
  import opened Protocol

  /** The buffer starts with a whole packet. */
  predicate HasFrame(data: seq<byte>) {
    |data| >= 3 && |data| >= PacketLength(data)
  }

  /** One-shot parse: the whole packets of `data`, in order. */
  function Frames(data: seq<byte>): seq<seq<byte>>
    decreases |data|
  {
    if HasFrame(data) then
      [data[..PacketLength(data)]] + Frames(data[PacketLength(data)..])
    else
      []
  }

  /** What the one-shot parse leaves over. */
  function Rest(data: seq<byte>): (rest: seq<byte>)
    ensures !HasFrame(rest)
    decreases |data|
  {
    if HasFrame(data) then Rest(data[PacketLength(data)..]) else data
  }

  lemma FrameStays(a: seq<byte>, b: seq<byte>)
    requires HasFrame(a)
    ensures HasFrame(a + b) && PacketLength(a + b) == PacketLength(a)
    ensures (a + b)[..PacketLength(a)] == a[..PacketLength(a)]
    ensures (a + b)[PacketLength(a)..] == a[PacketLength(a)..] + b
  {
  }

  /** More bytes never change the packets already cut, and continue from the remainder. */
  lemma {:induction false} FramesAppend(a: seq<byte>, b: seq<byte>)
    ensures Frames(a + b) == Frames(a) + Frames(Rest(a) + b)
    ensures Rest(a + b) == Rest(Rest(a) + b)
    decreases |a|
  {
    if HasFrame(a) {
      FrameStays(a, b);
      FramesAppend(a[PacketLength(a)..], b);
    }
  }

  /** Cutting loses and invents nothing. */
  lemma {:induction false} FramesCover(data: seq<byte>)
    ensures Concat(Frames(data)) + Rest(data) == data
    decreases |data|
  {
    if HasFrame(data) {
      FramesCover(data[PacketLength(data)..]);
      assert data == data[..PacketLength(data)] + data[PacketLength(data)..];
    }
  }

  // ─── The exchange, for any stream and any interleaving ────────────────────

  datatype Exchange = Exchange(
    arrived: seq<byte>,           // every byte appended so far
    buffer: seq<byte>,            // the shared buffer
    taken: Option<seq<byte>>,     // bytes the main thread is cutting, not yet cut
    handled: seq<seq<byte>>)      // packets handled so far

  datatype ExchangeStep =
    | Append(bytes: seq<byte>)
    | Take
    | HandleOne
    | PutBack

  const EXCHANGE_START := Exchange([], [], None, [])

  /** A step that is not possible leaves the exchange as it is. */
  function Exchanged(x: Exchange, step: ExchangeStep): Exchange {
    match step
    case Append(bytes) =>
      x.(arrived := x.arrived + bytes, buffer := x.buffer + bytes)
    case Take =>
      if x.taken.Some? then x else x.(taken := Some(x.buffer), buffer := [])
    case HandleOne =>
      if x.taken.None? || !HasFrame(x.taken.value) then x
      else
        var n := PacketLength(x.taken.value);
        x.(handled := x.handled + [x.taken.value[..n]], taken := Some(x.taken.value[n..]))
    case PutBack =>
      if x.taken.None? || HasFrame(x.taken.value) then x
      else x.(taken := None, buffer := x.taken.value + x.buffer)
  }

  function ExchangeRun(steps: seq<ExchangeStep>): Exchange {
    if steps == [] then EXCHANGE_START
    else Exchanged(ExchangeRun(steps[..|steps| - 1]), steps[|steps| - 1])
  }

  /** The bytes still to be cut, in stream order. */
  function Outstanding(x: Exchange): seq<byte> {
    (if x.taken.Some? then x.taken.value else []) + x.buffer
  }

  ghost predicate StreamAccounted(x: Exchange) {
    && Concat(x.handled) + Outstanding(x) == x.arrived
    && x.handled + Frames(Outstanding(x)) == Frames(x.arrived)
  }

  lemma MoreFrames(handled: seq<seq<byte>>, outstanding: seq<byte>, arrived: seq<byte>, bytes: seq<byte>)
    requires handled + Frames(outstanding) == Frames(arrived)
    requires Rest(outstanding) == Rest(arrived)
    ensures handled + Frames(outstanding + bytes) == Frames(arrived + bytes)
  {
    var more := Frames(Rest(arrived) + bytes);
    assert Frames(arrived + bytes) == Frames(arrived) + more by {
      FramesAppend(arrived, bytes);
    }
    assert Frames(outstanding + bytes) == Frames(outstanding) + more by {
      FramesAppend(outstanding, bytes);
    }
    Assoc(handled, Frames(outstanding), more);
  }

  lemma AppendAccounted(x: Exchange, bytes: seq<byte>)
    requires StreamAccounted(x)
    ensures StreamAccounted(Exchanged(x, Append(bytes)))
  {
    var y := Exchanged(x, Append(bytes));
    assert Outstanding(y) == Outstanding(x) + bytes;
    assert Concat(x.handled) + (Outstanding(x) + bytes) == (Concat(x.handled) + Outstanding(x)) + bytes;
    SameRest(x);
    MoreFrames(x.handled, Outstanding(x), x.arrived, bytes);
  }

  lemma SameRest(x: Exchange)
    requires StreamAccounted(x)
    ensures Rest(Outstanding(x)) == Rest(x.arrived)
  {
    var out := Outstanding(x);
    FramesCover(x.arrived);
    FramesCover(out);
    ConcatAppend(x.handled, Frames(out));
    Assoc(Concat(x.handled), Concat(Frames(out)), Rest(out));
    SameTail(Concat(Frames(x.arrived)), Rest(out), Concat(Frames(x.arrived)), Rest(x.arrived));
  }

  lemma HandleAccounted(x: Exchange)
    requires StreamAccounted(x)
    ensures StreamAccounted(Exchanged(x, HandleOne))
  {
    if x.taken.Some? && HasFrame(x.taken.value) {
      var n := PacketLength(x.taken.value);
      var packet := x.taken.value[..n];
      var y := Exchanged(x, HandleOne);
      FrameStays(x.taken.value, x.buffer);
      assert Outstanding(x) == packet + Outstanding(y);
      assert Outstanding(x)[..n] == packet && Outstanding(x)[n..] == Outstanding(y);
      ConcatSnoc(x.handled, packet);
      Assoc(Concat(x.handled), packet, Outstanding(y));
      Assoc(x.handled, [packet], Frames(Outstanding(y)));
    }
  }

  lemma {:induction false} ExchangeAccounted(steps: seq<ExchangeStep>)
    ensures StreamAccounted(ExchangeRun(steps))
  {
    if steps != [] {
      var x := ExchangeRun(steps[..|steps| - 1]);
      ExchangeAccounted(steps[..|steps| - 1]);
      match steps[|steps| - 1] {
        case Append(bytes) => AppendAccounted(x, bytes);
        case Take => assert Outstanding(Exchanged(x, Take)) == Outstanding(x);
        case HandleOne => HandleAccounted(x);
        case PutBack => assert Outstanding(Exchanged(x, PutBack)) == Outstanding(x);
      }
    }
  }

  /**
   Incremental framing is one-shot parsing: whatever the stream, its chunking and
   the appends between a take and the put-back, the packets handled are a prefix
   of the one-shot parse of everything that arrived, and all of it once the
   outstanding bytes hold no whole packet.
   */
  lemma IncrementalIsOneShot(steps: seq<ExchangeStep>)
    ensures var x := ExchangeRun(steps);
      && x.handled <= Frames(x.arrived)
      && (!HasFrame(Outstanding(x)) ==>
            x.handled == Frames(x.arrived) && Outstanding(x) == Rest(x.arrived))
  {
    ExchangeAccounted(steps);
    var x := ExchangeRun(steps);
    if !HasFrame(Outstanding(x)) {
      SameRest(x);
      assert x.handled + [] == x.handled;
    }
  }

  // ─── Streams made of whole packets ────────────────────────────────────────

  /** A packet exactly as long as its header says. */
  predicate Exact(packet: seq<byte>) {
    |packet| >= 3 && |packet| == PacketLength(packet)
  }

  /** Whole packets one after another are cut back into exactly those packets. */
  lemma {:induction false} ExactFrames(packets: seq<seq<byte>>)
    requires forall i :: 0 <= i < |packets| ==> Exact(packets[i])
    ensures Frames(Concat(packets)) == packets
    ensures Rest(Concat(packets)) == []
  {
    if packets != [] {
      FrameStays(packets[0], Concat(packets[1..]));
      assert packets[0][|packets[0]|..] == [];
      ExactFrames(packets[1..]);
      assert Concat(packets)[|packets[0]|..] == Concat(packets[1..]);
      assert packets == [packets[0]] + packets[1..];
    }
  }
}
