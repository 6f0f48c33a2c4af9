/**
 What an enumeration finds: which of the listed devices end up open, which as failed, and
 that nothing but pads is ever opened. Stated about the listed devices alone.
 */
module Discovery {
  import opened Bytes
  import opened Slots

  // ─── In the listing's own terms ───────────────────────────────────────────

  /** The listed device is a pad: it has a path and "StepManiaX" stands in its product name. */
  ghost predicate IsPad(d: Found) {
    d.path != "" && exists i :: StandsAt(d.product, "StepManiaX", i)
  }

  predicate StandsAt(text: string, word: string, i: int) {
    0 <= i && i + |word| <= |text| && text[i..i + |word|] == word
  }

  predicate Open(t: Table, path: string) {
    exists pad: Pad :: OpenAt(t, pad, path)
  }

  predicate OpenAt(t: Table, pad: Pad, path: string) {
    t.devices.At(pad).conn.Some? && t.devices.At(pad).conn.value.path == path
  }

  predicate Taken(t: Table, pad: Pad) {
    t.devices.At(pad).conn.Some?
  }

  predicate Full(t: Table) {
    Taken(t, 0) && Taken(t, 1)
  }

  /** An attempt lists the devices: a slot is free and the last listing a second ago or never. */
  predicate Due(t: Table, asked: nat) {
    !Full(t) && (t.lastEnumeration.Some? ==> asked >= t.lastEnumeration.value + 1_000_000_000)
  }

  /** No entry of the pad's path before `i` fails to open for reading. */
  ghost predicate NeverFailsBefore(devs: seq<Found>, i: nat)
    requires i < |devs|
  {
    forall j :: 0 <= j < i && devs[j].path == devs[i].path && IsPad(devs[j]) ==> !devs[j].opening.ReadFails?
  }

  // ─── Meaning of the tests ─────────────────────────────────────────────────

  lemma {:induction false} ContainsMeaning(text: string, word: string)
    ensures Contains(text, word) <==> exists i :: StandsAt(text, word, i)
  {
    if word <= text {
      assert StandsAt(text, word, 0);
    } else if text != "" {
      ContainsMeaning(text[1..], word);
      if i :| StandsAt(text[1..], word, i) {
        assert text[i + 1..i + 1 + |word|] == word;
        assert StandsAt(text, word, i + 1);
      }
      if i :| StandsAt(text, word, i) {
        assert i > 0;
        assert text[1..][i - 1..i - 1 + |word|] == word;
        assert StandsAt(text[1..], word, i - 1);
      }
    } else {
      assert forall i :: StandsAt(text, word, i) ==> word == [];
    }
  }

  lemma SkippedMeaning(t: Table, d: Found)
    ensures Skipped(t, d) <==> !IsPad(d) || d.path in t.failedPaths || Open(t, d.path)
  {
    ContainsMeaning(d.product, PRODUCT);
    assert OpenAt(t, 0, d.path) == Holds(t.devices.first, d.path);
    assert OpenAt(t, 1, d.path) == Holds(t.devices.second, d.path);
  }

  // ─── A scan ───────────────────────────────────────────────────────────────

  /** Once no slot is free a scan changes nothing. */
  lemma {:induction false} FullScan(t: Table, devs: seq<Found>)
    requires Full(t)
    ensures Scanned(t, devs) == t
    decreases |devs|
  {
    if devs != [] && Skipped(t, devs[0]) {
      FullScan(t, devs[1..]);
    }
  }

  /** A scan is the scan of the first devices, then of the others. */
  lemma {:induction false} ScanAppend(t: Table, a: seq<Found>, b: seq<Found>)
    ensures Scanned(t, a + b) == Scanned(Scanned(t, a), b)
    decreases |a|
  {
    if a == [] {
      assert a + b == b;
    } else {
      assert (a + b)[0] == a[0] && (a + b)[1..] == a[1..] + b;
      if Skipped(t, a[0]) {
        ScanAppend(t, a[1..], b);
      } else if FreeSlot(t).Some? {
        ScanAppend(Tried(t, FreeSlot(t).value, a[0]), a[1..], b);
      } else {
        FullScan(t, b);
      }
    }
  }

  /** What one scan keeps: open connections, and slot 0 before slot 1. */
  predicate Grown(t: Table, after: Table) {
    && (forall pad: Pad :: Taken(t, pad) ==> after.devices.At(pad) == t.devices.At(pad))
    && (Taken(after, 1) && !Taken(t, 1) ==> Taken(after, 0))
    && (forall path :: path in t.failedPaths ==> path in after.failedPaths)
  }

  lemma TriedGrown(t: Table, d: Found)
    requires FreeSlot(t).Some?
    ensures Grown(t, Tried(t, FreeSlot(t).value, d))
  {
  }

  lemma {:induction false} ScanGrown(t: Table, devs: seq<Found>)
    ensures Grown(t, Scanned(t, devs))
    decreases |devs|
  {
    if devs != [] {
      if Skipped(t, devs[0]) {
        ScanGrown(t, devs[1..]);
      } else if FreeSlot(t).Some? {
        var next := Tried(t, FreeSlot(t).value, devs[0]);
        TriedGrown(t, devs[0]);
        ScanGrown(next, devs[1..]);
        GrownTwice(t, next, Scanned(t, devs));
      }
    }
  }

  lemma GrownTwice(a: Table, b: Table, c: Table)
    requires Grown(a, b) && Grown(b, c)
    ensures Grown(a, c)
  {
    assert Taken(b, 0) ==> c.devices.At(0) == b.devices.At(0);
    assert Taken(b, 1) ==> c.devices.At(1) == b.devices.At(1);
  }

  /** The slot was so before, or holds a connection to a listed pad that opened and had not failed. */
  ghost predicate Explained(t: Table, devs: seq<Found>, after: Table, pad: Pad) {
    || after.devices.At(pad) == t.devices.At(pad)
    || exists i :: 0 <= i < |devs| && OpenAt(after, pad, devs[i].path)
                   && IsPad(devs[i]) && devs[i].opening.Opens? && devs[i].path !in t.failedPaths
  }

  /** A path counts as failed if it did before, or is that of a listed pad whose read open failed. */
  ghost predicate FailureExplained(t: Table, devs: seq<Found>, path: string) {
    || path in t.failedPaths
    || exists i :: 0 <= i < |devs| && devs[i].path == path && IsPad(devs[i]) && devs[i].opening.ReadFails?
  }

  lemma ExplainedLater(t: Table, devs: seq<Found>, after: Table, pad: Pad)
    requires devs != [] && Explained(t, devs[1..], after, pad)
    ensures Explained(t, devs, after, pad)
  {
    if after.devices.At(pad) != t.devices.At(pad) {
      var i :| 0 <= i < |devs[1..]| && OpenAt(after, pad, devs[1..][i].path)
               && IsPad(devs[1..][i]) && devs[1..][i].opening.Opens? && devs[1..][i].path !in t.failedPaths;
      assert devs[i + 1] == devs[1..][i];
    }
  }

  lemma ExplainedStep(t: Table, next: Table, devs: seq<Found>, after: Table, pad: Pad)
    requires devs != [] && !Skipped(t, devs[0]) && FreeSlot(t).Some? && next == Tried(t, FreeSlot(t).value, devs[0])
    requires Grown(next, after) && Explained(next, devs[1..], after, pad)
    ensures Explained(t, devs, after, pad)
  {
    SkippedMeaning(t, devs[0]);
    if after.devices.At(pad) == next.devices.At(pad) {
      if next.devices.At(pad) != t.devices.At(pad) {
        assert OpenAt(after, pad, devs[0].path);
      }
    } else {
      var i :| 0 <= i < |devs[1..]| && OpenAt(after, pad, devs[1..][i].path)
               && IsPad(devs[1..][i]) && devs[1..][i].opening.Opens? && devs[1..][i].path !in next.failedPaths;
      assert devs[i + 1] == devs[1..][i];
    }
  }

  lemma {:induction false} ScanExplained(t: Table, devs: seq<Found>, pad: Pad)
    ensures Explained(t, devs, Scanned(t, devs), pad)
    decreases |devs|
  {
    if devs != [] {
      if Skipped(t, devs[0]) {
        ScanExplained(t, devs[1..], pad);
        ExplainedLater(t, devs, Scanned(t, devs), pad);
      } else if FreeSlot(t).Some? {
        var next := Tried(t, FreeSlot(t).value, devs[0]);
        ScanExplained(next, devs[1..], pad);
        ScanGrown(next, devs[1..]);
        ExplainedStep(t, next, devs, Scanned(t, devs), pad);
      }
    }
  }

  lemma {:induction false} ScanFailures(t: Table, devs: seq<Found>, path: string)
    requires path in Scanned(t, devs).failedPaths
    ensures FailureExplained(t, devs, path)
    decreases |devs|
  {
    if devs != [] {
      SkippedMeaning(t, devs[0]);
      if Skipped(t, devs[0]) {
        ScanFailures(t, devs[1..], path);
        FailureLater(t, t, devs, path);
      } else if FreeSlot(t).Some? {
        var next := Tried(t, FreeSlot(t).value, devs[0]);
        ScanFailures(next, devs[1..], path);
        FailureLater(t, next, devs, path);
      }
    }
  }

  lemma FailureLater(t: Table, next: Table, devs: seq<Found>, path: string)
    requires devs != [] && FailureExplained(next, devs[1..], path)
    requires path in next.failedPaths ==>
      path in t.failedPaths || (devs[0].path == path && IsPad(devs[0]) && devs[0].opening.ReadFails?)
    ensures FailureExplained(t, devs, path)
  {
    if path !in next.failedPaths {
      var i :| 0 <= i < |devs[1..]| && devs[1..][i].path == path && IsPad(devs[1..][i])
               && devs[1..][i].opening.ReadFails?;
      assert devs[i + 1] == devs[1..][i];
    } else if path !in t.failedPaths {
      assert devs[0].path == path;
    }
  }

  // ─── A whole attempt ──────────────────────────────────────────────────────

  /** The table the scan starts from: paths that are no longer listed are forgotten. */
  function Purged(t: Table, devs: seq<Found>, now: nat): Table {
    t.(lastEnumeration := Some(now), failedPaths := StillListed(t.failedPaths, devs))
  }

  /** The scan up to a device, that device's turn, and the rest. */
  lemma TurnSplits(t: Table, devs: seq<Found>, i: nat)
    requires i < |devs|
    ensures Scanned(t, devs) == Scanned(Scanned(Scanned(t, devs[..i]), [devs[i]]), devs[i + 1..])
  {
    assert devs == devs[..i] + ([devs[i]] + devs[i + 1..]);
    ScanAppend(t, devs[..i], [devs[i]] + devs[i + 1..]);
    ScanAppend(Scanned(t, devs[..i]), [devs[i]], devs[i + 1..]);
  }

  lemma OneScanned(t: Table, d: Found)
    requires IsPad(d) && d.path !in t.failedPaths && !Full(t)
    ensures d.opening.Opens? ==> Open(Scanned(t, [d]), d.path)
    ensures d.opening.ReadFails? && !Open(t, d.path) ==> d.path in Scanned(t, [d]).failedPaths
  {
    SkippedMeaning(t, d);
    if Skipped(t, d) {
      assert Scanned(t, [d]) == Scanned(t, [d][1..]) == t;
    } else {
      var pad := FreeSlot(t).value;
      var after := Tried(t, pad, d);
      assert Scanned(t, [d]) == Scanned(after, [d][1..]) == after;
      assert d.opening.Opens? ==> OpenAt(after, pad, d.path);
    }
  }

  lemma OpenStays(t: Table, after: Table, path: string)
    requires Grown(t, after) && Open(t, path)
    ensures Open(after, path)
  {
    var pad: Pad :| OpenAt(t, pad, path);
    assert Taken(t, pad);
    assert OpenAt(after, pad, path);
  }

  /**
   Every pad is found: a listed pad that opens and has not failed before is open after the
   attempt, unless no slot is free by then.
   */
  lemma ListedPadsOpen(t: Table, devs: seq<Found>, asked: nat, now: nat, i: nat)
    requires Due(t, asked) && i < |devs|
    requires IsPad(devs[i]) && devs[i].opening.Opens? && devs[i].path !in t.failedPaths && NeverFailsBefore(devs, i)
    ensures var after := Attempted(t, devs, asked, now); Open(after, devs[i].path) || Full(after)
  {
    var start := Purged(t, devs, now);
    var turn := Scanned(start, devs[..i]);
    StillListedMembers(t.failedPaths, devs, devs[i].path);
    if devs[i].path in turn.failedPaths {
      ScanFailures(start, devs[..i], devs[i].path);
    }
    TurnSplits(start, devs, i);
    ScanGrown(Scanned(turn, [devs[i]]), devs[i + 1..]);
    if Full(turn) {
      FullScan(turn, [devs[i]]);
    } else {
      OneScanned(turn, devs[i]);
      OpenStays(Scanned(turn, [devs[i]]), Attempted(t, devs, asked, now), devs[i].path);
    }
  }

  /**
   Only pads are opened: after an attempt each slot is as before, or connected to a listed pad
   that opened and had not failed; open connections stay, and slot 0 is filled first.
   */
  lemma OnlyPadsOpen(t: Table, devs: seq<Found>, asked: nat, now: nat, pad: Pad)
    requires Due(t, asked)
    ensures var after := Attempted(t, devs, asked, now);
      && (Taken(t, pad) ==> after.devices.At(pad) == t.devices.At(pad))
      && (Taken(after, 1) && !Taken(t, 1) ==> Taken(after, 0))
      && (after.devices.At(pad) == t.devices.At(pad)
          || exists i :: 0 <= i < |devs| && OpenAt(after, pad, devs[i].path)
                         && IsPad(devs[i]) && devs[i].opening.Opens? && devs[i].path !in t.failedPaths)
  {
    var start := Purged(t, devs, now);
    ScanGrown(start, devs);
    ScanExplained(start, devs, pad);
    var after := Attempted(t, devs, asked, now);
    if after.devices.At(pad) != t.devices.At(pad) {
      var i :| 0 <= i < |devs| && OpenAt(after, pad, devs[i].path)
               && IsPad(devs[i]) && devs[i].opening.Opens? && devs[i].path !in start.failedPaths;
      StillListedMembers(t.failedPaths, devs, devs[i].path);
      assert Listed(devs, devs[i].path);
    }
  }

  /** After an attempt nothing counts as failed but what did before, and listed pads that failed to open for reading. */
  lemma OnlyReadFailuresMarked(t: Table, devs: seq<Found>, asked: nat, now: nat, path: string)
    requires path in Attempted(t, devs, asked, now).failedPaths
    ensures path in t.failedPaths
         || exists i :: 0 <= i < |devs| && devs[i].path == path && IsPad(devs[i]) && devs[i].opening.ReadFails?
  {
    if MayEnumerate(t, asked) {
      ScanFailures(Purged(t, devs, now), devs, path);
      StillListedMembers(t.failedPaths, devs, path);
    }
  }

  /** Tables that differ in failed paths that are not listed scan alike. */
  lemma {:induction false} SameScan(t: Table, u: Table, devs: seq<Found>)
    requires t.devices == u.devices && t.started == u.started
    requires forall i :: 0 <= i < |devs| ==> (devs[i].path in t.failedPaths <==> devs[i].path in u.failedPaths)
    ensures Scanned(t, devs).devices == Scanned(u, devs).devices
    decreases |devs|
  {
    if devs != [] {
      if Skipped(t, devs[0]) {
        SameScan(t, u, devs[1..]);
      } else if FreeSlot(t).Some? {
        var pad := FreeSlot(t).value;
        SameScan(Tried(t, pad, devs[0]), Tried(u, pad, devs[0]), devs[1..]);
      }
    }
  }

  /** What the slots are at a device's turn is what an attempt on the devices before it leaves. */
  lemma TurnTable(t: Table, devs: seq<Found>, asked: nat, now: nat, i: nat)
    requires Due(t, asked) && i < |devs|
    ensures Scanned(Purged(t, devs, now), devs[..i]).devices == Attempted(t, devs[..i], asked, now).devices
  {
    forall k | 0 <= k < |devs[..i]|
      ensures devs[..i][k].path in Purged(t, devs, now).failedPaths
         <==> devs[..i][k].path in Purged(t, devs[..i], now).failedPaths
    {
      StillListedMembers(t.failedPaths, devs, devs[k].path);
      StillListedMembers(t.failedPaths, devs[..i], devs[k].path);
      assert devs[..i][k] == devs[k];
      assert Listed(devs, devs[k].path) && Listed(devs[..i], devs[k].path);
    }
    SameScan(Purged(t, devs, now), Purged(t, devs[..i], now), devs[..i]);
  }

  /**
   A listed pad that fails to open for reading counts as failed after the attempt, when at its
   turn a slot is free and its path not open.
   */
  lemma FailingPadsMarked(t: Table, devs: seq<Found>, asked: nat, now: nat, i: nat)
    requires Due(t, asked) && i < |devs| && IsPad(devs[i]) && devs[i].opening.ReadFails?
    requires var turn := Attempted(t, devs[..i], asked, now); !Full(turn) && !Open(turn, devs[i].path)
    ensures devs[i].path in Attempted(t, devs, asked, now).failedPaths
  {
    var start := Purged(t, devs, now);
    var turn := Scanned(start, devs[..i]);
    TurnTable(t, devs, asked, now, i);
    TurnSplits(start, devs, i);
    ScanGrown(turn, [devs[i]]);
    ScanGrown(Scanned(turn, [devs[i]]), devs[i + 1..]);
    SameOpen(turn, Attempted(t, devs[..i], asked, now), devs[i].path);
    if devs[i].path !in turn.failedPaths {
      OneScanned(turn, devs[i]);
    }
  }

  lemma SameOpen(t: Table, u: Table, path: string)
    requires t.devices == u.devices
    ensures Open(t, path) == Open(u, path) && Full(t) == Full(u)
  {
    assert forall pad: Pad :: OpenAt(t, pad, path) == OpenAt(u, pad, path);
  }
}
