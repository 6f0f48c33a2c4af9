/**
 Replaying a capture: every recorded read becomes available once as many writes were
 made as had been recorded before it.
 */
module Replay {
  import opened Bytes
  import opened Capture

  /** A recorded read and the number of writes it waits for. */
  datatype GatedRead<T> = GatedRead(gate: nat, data: T)

  /** What a replay comes down to: one list of reads in recorded order, and the writes made. */
  datatype Tape = Tape(queue: seq<GatedRead<seq<byte>>>, writes: seq<seq<byte>>)

  /** The recorded reads, each with the number of writes recorded before it. */
  function GatedReads(records: seq<Record>, writes: nat): seq<GatedRead<seq<byte>>> {
    if records == [] then []
    else if records[0].kind == READ_RECORD then
      [GatedRead(writes, records[0].data)] + GatedReads(records[1..], writes)
    else if records[0].kind == WRITE_RECORD then GatedReads(records[1..], writes + 1)
    else GatedReads(records[1..], writes)
  }

  function RecordedWrites(records: seq<Record>): seq<seq<byte>> {
    if records == [] then []
    else (if records[0].kind == WRITE_RECORD then [records[0].data] else []) + RecordedWrites(records[1..])
  }

  function Gated<T>(batch: seq<T>, gate: nat): (g: seq<GatedRead<T>>)
    ensures |g| == |batch|
    ensures forall i :: 0 <= i < |g| ==> g[i].gate == gate
    decreases |batch|
  {
    if batch == [] then [] else [GatedRead(gate, batch[0])] + Gated(batch[1..], gate)
  }

  lemma {:induction false} GatedSnoc<T>(batch: seq<T>, data: T, gate: nat)
    ensures Gated(batch + [data], gate) == Gated(batch, gate) + [GatedRead(gate, data)]
    decreases |batch|
  {
    if batch != [] {
      GatedSnoc(batch[1..], data, gate);
      assert (batch + [data])[1..] == batch[1..] + [data];
    }
  }

  /** All batches as one list; batch `i` of `batches` waits for `from + i` writes. */
  function Flat<T>(batches: seq<seq<T>>, from: nat): seq<GatedRead<T>>
    decreases |batches|
  {
    if batches == [] then [] else Gated(batches[0], from) + Flat(batches[1..], from + 1)
  }

  lemma {:induction false} FlatCut<T>(batches: seq<seq<T>>, i: nat, from: nat)
    requires i <= |batches|
    ensures Flat(batches, from) == Flat(batches[..i], from) + Flat(batches[i..], from + i)
    decreases i
  {
    if i > 0 {
      var rest := batches[1..];
      FlatCut(rest, i - 1, from + 1);
      assert batches[..i][1..] == rest[..i - 1] && batches[i..] == rest[i - 1..];
      Assoc(Gated(batches[0], from), Flat(rest[..i - 1], from + 1), Flat(rest[i - 1..], from + i));
    }
  }

  /** The list around one batch. */
  lemma FlatAt<T>(batches: seq<seq<T>>, i: nat, from: nat)
    requires i < |batches|
    ensures Flat(batches, from)
         == Flat(batches[..i], from) + (Gated(batches[i], from + i) + Flat(batches[i + 1..], from + i + 1))
  {
    FlatCut(batches, i, from);
    var rest := batches[i..];
    assert rest[0] == batches[i] && rest[1..] == batches[i + 1..];
    assert Flat(rest, from + i) == Gated(rest[0], from + i) + Flat(rest[1..], from + i + 1);
  }

  lemma {:induction false} FlatEmpty<T>(batches: seq<seq<T>>, from: nat)
    requires forall k :: 0 <= k < |batches| ==> batches[k] == []
    ensures Flat(batches, from) == []
    decreases |batches|
  {
    if batches != [] {
      FlatEmpty(batches[1..], from + 1);
      assert Gated(batches[0], from) == [];
    }
  }

  lemma {:induction false} GatesFrom<T>(batches: seq<seq<T>>, from: nat, k: nat)
    requires k < |Flat(batches, from)|
    ensures Flat(batches, from)[k].gate >= from
    decreases |batches|
  {
    if k >= |batches[0]| {
      GatesFrom(batches[1..], from + 1, k - |batches[0]|);
    }
  }

  // ─── The tape ─────────────────────────────────────────────────────────────

  predicate Ready(t: Tape) {
    t.queue != [] && t.queue[0].gate <= |t.writes|
  }

  function AfterRead(t: Tape): Tape {
    if Ready(t) then t.(queue := t.queue[1..]) else t
  }

  function AfterWrite(t: Tape, data: seq<byte>): Tape {
    t.(writes := t.writes + [data])
  }

  /** Only as much of a packet as the reader has room for. */
  function Cut(data: seq<byte>, room: nat): seq<byte> {
    data[..Min(|data|, room)]
  }

  class ReplayDevice {
    var readBatches: seq<seq<seq<byte>>>
    var writeCount: nat
    var actualWrites: seq<seq<byte>>
    var expectedWrites: seq<seq<byte>>

    ghost predicate Valid()
      reads this
    {
      writeCount == |actualWrites|
    }

    function View(): Tape
      reads this
    {
      Tape(Flat(readBatches, 0), actualWrites)
    }

    constructor FromRecords(records: seq<Record>)
      ensures Valid() && View() == Tape(GatedReads(records, 0), [])
      ensures expectedWrites == RecordedWrites(records)
    {
      var batches: seq<seq<seq<byte>>>, writes: seq<seq<byte>> := [[]], [];
      assert Flat(batches, 0) == [];
      assert [] + GatedReads(records, 0) == GatedReads(records, 0);
      assert [] + RecordedWrites(records) == RecordedWrites(records);
      for i := 0 to |records|
        invariant |batches| == |writes| + 1
        invariant Flat(batches, 0) + GatedReads(records[i..], |writes|) == GatedReads(records, 0)
        invariant writes + RecordedWrites(records[i..]) == RecordedWrites(records)
      {
        assert records[i..][1..] == records[i + 1..];
        var rec := records[i];
        if rec.kind == READ_RECORD {
          ReadAdded(batches, rec.data, GatedReads(records[i + 1..], |writes|));
          batches := batches[|batches| - 1 := batches[|batches| - 1] + [rec.data]];
        } else if rec.kind == WRITE_RECORD {
          BatchAdded(batches);
          batches, writes := batches + [[]], writes + [rec.data];
        }
      }
      readBatches, writeCount, actualWrites, expectedWrites := batches, 0, [], writes;
    }

    /** Delivers the first available read, cut to the reader's room; None when there is none. */
    method Read(room: nat) returns (data: Option<seq<byte>>)
      requires Valid()
      modifies this`readBatches
      ensures Valid() && View() == AfterRead(old(View()))
      ensures data == if Ready(old(View())) then Some(Cut(old(View()).queue[0].data, room)) else None
    {
      var i := 0;
      while i <= writeCount && i < |readBatches|
        invariant i <= |readBatches| && i <= writeCount + 1
        invariant readBatches == old(readBatches)
        invariant forall k :: 0 <= k < i ==> readBatches[k] == []
        decreases |readBatches| - i
      {
        if readBatches[i] != [] {
          FirstAt(readBatches, i, 0);
          var pkt := readBatches[i][0];
          readBatches := readBatches[i := readBatches[i][1..]];
          return Some(pkt[..Min(|pkt|, room)]);
        }
        i := i + 1;
      }
      NoneReady(readBatches, writeCount, i);
      return None;
    }

    method Write(data: seq<byte>) returns (n: nat)
      requires Valid()
      modifies this`writeCount, this`actualWrites
      ensures Valid() && View() == AfterWrite(old(View()), data) && n == |data|
    {
      actualWrites := actualWrites + [data];
      writeCount := writeCount + 1;
      n := |data|;
    }
  }

  lemma ReadAdded<T>(batches: seq<seq<T>>, data: T, rest: seq<GatedRead<T>>)
    requires batches != []
    ensures var n := |batches| - 1;
      Flat(batches[n := batches[n] + [data]], 0) + rest == Flat(batches, 0) + ([GatedRead(n, data)] + rest)
  {
    var n := |batches| - 1;
    var after := batches[n := batches[n] + [data]];
    FlatAt(batches, n, 0);
    FlatAt(after, n, 0);
    assert after[..n] == batches[..n] && after[n + 1..] == [] && batches[n + 1..] == [];
    GatedSnoc(batches[n], data, n);
  }

  lemma BatchAdded<T>(batches: seq<seq<T>>)
    ensures Flat(batches + [[]], 0) == Flat(batches, 0)
  {
    var more := batches + [[]];
    FlatCut(more, |batches|, 0);
    assert more[..|batches|] == batches;
    FlatEmpty(more[|batches|..], |batches|);
  }

  /** Taking the first packet of the first non-empty batch takes the head of the list. */
  lemma {:induction false} FirstAt<T>(batches: seq<seq<T>>, i: nat, from: nat)
    requires i < |batches| && batches[i] != [] && (forall k :: 0 <= k < i ==> batches[k] == [])
    ensures Flat(batches, from) == [GatedRead(from + i, batches[i][0])] + Flat(batches[i := batches[i][1..]], from)
    decreases i
  {
    var after := batches[i := batches[i][1..]];
    if i == 0 {
      assert after[1..] == batches[1..];
      Assoc([GatedRead(from, batches[0][0])], Gated(batches[0][1..], from), Flat(batches[1..], from + 1));
    } else {
      FirstAt(batches[1..], i - 1, from + 1);
      assert after[1..] == batches[1..][i - 1 := batches[i][1..]];
      assert Gated(batches[0], from) == [] && Gated(after[0], from) == [];
    }
  }

  lemma NoneReady<T>(batches: seq<seq<T>>, writes: nat, n: nat)
    requires n <= |batches| && (forall k :: 0 <= k < n ==> batches[k] == [])
    requires n == |batches| || n > writes
    ensures Flat(batches, 0) != [] ==> Flat(batches, 0)[0].gate > writes
  {
    FlatEmpty(batches[..n], 0);
    FlatCut(batches, n, 0);
    if Flat(batches[n..], n) != [] {
      GatesFrom(batches[n..], n, 0);
    }
  }

  // ─── Whole replays ────────────────────────────────────────────────────────

  datatype Op = DoRead | DoWrite(data: seq<byte>)

  /** A tape being replayed; `delivered` are the reads so far with the writes made before each. */
  datatype Playing = Playing(tape: Tape, delivered: seq<GatedRead<seq<byte>>>, at: seq<nat>)

  function Played(p: Playing, op: Op): Playing {
    match op
    case DoWrite(data) => p.(tape := AfterWrite(p.tape, data))
    case DoRead =>
      if Ready(p.tape) then
        Playing(AfterRead(p.tape), p.delivered + [p.tape.queue[0]], p.at + [|p.tape.writes|])
      else p
  }

  function PlayedAll(records: seq<Record>, ops: seq<Op>): Playing {
    if ops == [] then Playing(Tape(GatedReads(records, 0), []), [], [])
    else Played(PlayedAll(records, ops[..|ops| - 1]), ops[|ops| - 1])
  }

  /**
   However reads and writes are mixed, the reads delivered and still to come are the recorded
   ones in order, and each came only after as many writes as were recorded before it.
   */
  lemma {:induction false} ReplayKeepsOrder(records: seq<Record>, ops: seq<Op>)
    ensures var p := PlayedAll(records, ops);
      && p.delivered + p.tape.queue == GatedReads(records, 0)
      && |p.at| == |p.delivered|
      && (forall i :: 0 <= i < |p.delivered| ==> p.delivered[i].gate <= p.at[i] <= |p.tape.writes|)
  {
    if ops != [] {
      ReplayKeepsOrder(records, ops[..|ops| - 1]);
      var p := PlayedAll(records, ops[..|ops| - 1]);
      if ops[|ops| - 1].DoRead? && Ready(p.tape) {
        assert p.delivered + [p.tape.queue[0]] + p.tape.queue[1..] == p.delivered + p.tape.queue;
      }
    }
  }

  function Drained(p: Playing, n: nat): Playing {
    if n == 0 then p else Played(Drained(p, n - 1), DoRead)
  }

  function WriteGate(records: seq<Record>): nat {
    |RecordedWrites(records)|
  }

  lemma {:induction false} GatesWithinWrites(records: seq<Record>, writes: nat, k: nat)
    requires k < |GatedReads(records, writes)|
    ensures GatedReads(records, writes)[k].gate <= writes + WriteGate(records)
    decreases |records|
  {
    if records[0].kind == READ_RECORD {
      if k > 0 {
        GatesWithinWrites(records[1..], writes, k - 1);
      }
    } else if records[0].kind == WRITE_RECORD {
      GatesWithinWrites(records[1..], writes + 1, k);
    } else {
      GatesWithinWrites(records[1..], writes, k);
    }
  }

  lemma {:induction false} DrainsReady(p: Playing, n: nat)
    requires n <= |p.tape.queue|
    requires forall k :: 0 <= k < |p.tape.queue| ==> p.tape.queue[k].gate <= |p.tape.writes|
    ensures Drained(p, n).tape == p.tape.(queue := p.tape.queue[n..])
    ensures Drained(p, n).delivered == p.delivered + p.tape.queue[..n]
  {
    if n > 0 {
      DrainsReady(p, n - 1);
      assert p.tape.queue[n - 1..][1..] == p.tape.queue[n..];
      assert p.tape.queue[..n] == p.tape.queue[..n - 1] + [p.tape.queue[n - 1]];
    }
  }

  /** Once as many writes were made as were recorded, reading on delivers everything that was recorded. */
  lemma ReplayCompletes(records: seq<Record>, ops: seq<Op>)
    requires |PlayedAll(records, ops).tape.writes| >= WriteGate(records)
    ensures var p := PlayedAll(records, ops);
      Drained(p, |p.tape.queue|).delivered == GatedReads(records, 0)
  {
    ReplayKeepsOrder(records, ops);
    var p := PlayedAll(records, ops);
    forall k | 0 <= k < |p.tape.queue|
      ensures p.tape.queue[k].gate <= |p.tape.writes|
    {
      var i := |p.delivered| + k;
      assert GatedReads(records, 0)[i] == p.tape.queue[k];
      GatesWithinWrites(records, 0, i);
    }
    DrainsReady(p, |p.tape.queue|);
    assert p.tape.queue[..|p.tape.queue|] == p.tape.queue;
  }
}
