/**
 Which connection, path and poll thread belongs to which slot: discovery, failure,
 closing and the reordering of the two slots. Each function is one section under
 the state lock.
 */
module Slots {
  import opened Bytes

  const PRODUCT := "StepManiaX"
  const ENUMERATION_INTERVAL: nat := 1_000_000_000

  // ─── State ────────────────────────────────────────────────────────────────

  /** What `get_info` tells about a device; all default unless it is fully connected. */
  datatype Info = Info(connected: bool, isPlayer2: bool, serial: string)

  const NO_INFO := Info(false, false, "")

  /** An open connection. Its input callback reads the index cell of the device it was opened for. */
  datatype OpenConn = OpenConn(id: nat, path: string, indexCell: nat)

  /** A device object: `cell` names its shared pad index, `padIndex` is the index stored there. */
  datatype Slot = Slot(cell: nat, padIndex: nat, conn: Option<OpenConn>, info: Info)

  /** `threads` names the connection each slot's poll thread reads; `stopped` the threads ended so far. */
  datatype Table = Table(
    devices: Pair<Slot>,
    threads: Pair<Option<nat>>,
    failedPaths: seq<string>,
    lastEnumeration: Option<nat>,
    assignment: Pair<Option<string>>,
    started: nat,
    stopped: seq<nat>)

  const NO_THREADS: Pair<Option<nat>> := Pair(None, None)
  const UNASSIGNED: Pair<Option<string>> := Pair(None, None)
  const EMPTY_TABLE := Table(Pair(Slot(0, 0, None, NO_INFO), Slot(1, 1, None, NO_INFO)), NO_THREADS, [], None,
    UNASSIGNED, 0, [])

  // ─── Discovery ────────────────────────────────────────────────────────────

  /** How opening one enumerated device goes. */
  datatype Opening = ReadFails | WriteFails | SetupFails | Opens

  datatype Found = Found(path: string, product: string, opening: Opening)

  predicate Contains(text: string, word: string) {
    word <= text || (text != "" && Contains(text[1..], word))
  }

  predicate Listed(devs: seq<Found>, path: string) {
    exists i :: 0 <= i < |devs| && devs[i].path == path
  }

  function StillListed(paths: seq<string>, devs: seq<Found>): seq<string> {
    if paths == [] then []
    else if Listed(devs, paths[0]) then [paths[0]] + StillListed(paths[1..], devs)
    else StillListed(paths[1..], devs)
  }

  predicate Holds(s: Slot, path: string) {
    s.conn.Some? && s.conn.value.path == path
  }

  predicate AlreadyOpen(t: Table, path: string) {
    Holds(t.devices.first, path) || Holds(t.devices.second, path)
  }

  predicate Skipped(t: Table, d: Found) {
    d.path == "" || !Contains(d.product, PRODUCT) || d.path in t.failedPaths || AlreadyOpen(t, d.path)
  }

  function FreeSlot(t: Table): Option<Pad> {
    if t.devices.first.conn.None? then Some(0)
    else if t.devices.second.conn.None? then Some(1)
    else None
  }

  function AsList(thread: Option<nat>): seq<nat> {
    if thread.Some? then [thread.value] else []
  }

  /** A connection and its poll thread go into a slot; a stale thread there is stopped first. */
  function Occupied(t: Table, pad: Pad, path: string): Table {
    var s := t.devices.At(pad);
    t.(devices := t.devices.With(pad, s.(conn := Some(OpenConn(t.started, path, s.cell)))),
       threads := t.threads.With(pad, Some(t.started)),
       stopped := t.stopped + AsList(t.threads.At(pad)),
       started := t.started + 1)
  }

  function Tried(t: Table, pad: Pad, d: Found): Table {
    match d.opening
    case ReadFails => t.(failedPaths := t.failedPaths + [d.path])
    case WriteFails => t
    case SetupFails => t
    case Opens => Occupied(t, pad, d.path)
  }

  /** Goes through the found devices until no slot is free. */
  function Scanned(t: Table, devs: seq<Found>): Table
    decreases |devs|
  {
    if devs == [] then t
    else if Skipped(t, devs[0]) then Scanned(t, devs[1..])
    else if FreeSlot(t).None? then t
    else Scanned(Tried(t, FreeSlot(t).value, devs[0]), devs[1..])
  }

  /** Whether the devices are listed at all: a slot is free and the last time was a second ago. */
  predicate MayEnumerate(t: Table, at: nat) {
    && FreeSlot(t).Some?
    && (t.lastEnumeration.Some? ==> at >= t.lastEnumeration.value + ENUMERATION_INTERVAL)
  }

  /** `asked` is the time of the first locked section, `now` that of the second. */
  function Attempted(t: Table, devs: seq<Found>, asked: nat, now: nat): Table {
    if !MayEnumerate(t, asked) then t
    else Scanned(t.(lastEnumeration := Some(now), failedPaths := StillListed(t.failedPaths, devs)), devs)
  }

  /** A device that reported an error is closed and its poll thread stopped. */
  function Dropped(t: Table, pad: Pad): Table {
    t.(devices := t.devices.With(pad, t.devices.At(pad).(conn := None, info := NO_INFO)),
       threads := t.threads.With(pad, None),
       stopped := t.stopped + AsList(t.threads.At(pad)))
  }

  // ─── Ordering ─────────────────────────────────────────────────────────────

  function OverrideShouldSwap(assignment: Pair<Option<string>>, info0: Info, info1: Info): Option<bool> {
    var p1, p2 := assignment.first, assignment.second;
    if p1.None? && p2.None? then None
    else if info0.connected && info1.connected then
      if p1.None? || p2.None? then None
      else if info0.serial == p1.value && info1.serial == p2.value then Some(false)
      else if info0.serial == p2.value && info1.serial == p1.value then Some(true)
      else None
    else if info0.connected then
      if p1 == Some(info0.serial) then Some(false)
      else if p2 == Some(info0.serial) then Some(true)
      else None
    else if info1.connected then
      if p2 == Some(info1.serial) then Some(false)
      else if p1 == Some(info1.serial) then Some(true)
      else None
    else None
  }

  function ShouldSwap(assignment: Pair<Option<string>>, info0: Info, info1: Info): bool {
    match OverrideShouldSwap(assignment, info0, info1)
    case Some(swap) => swap
    case None =>
      if info0.connected && info1.connected && info0.isPlayer2 == info1.isPlayer2 then false
      else (info0.connected && info0.isPlayer2) || (info1.connected && !info1.isPlayer2)
  }

  function OrderOf(t: Table): bool {
    ShouldSwap(t.assignment, t.devices.first.info, t.devices.second.info)
  }

  function Reordered(t: Table): Table {
    if !OrderOf(t) then t
    else
      t.(devices := Pair(t.devices.second.(padIndex := 0), t.devices.first.(padIndex := 1)),
         threads := Pair(t.threads.second, t.threads.first))
  }

  // ─── The table as an object ───────────────────────────────────────────────

  class SlotTable {
    var devices: Pair<Slot>
    var threads: Pair<Option<nat>>
    var failedPaths: seq<string>
    var lastEnumeration: Option<nat>
    var playerAssignment: Pair<Option<string>>
    var started: nat
    var stopped: seq<nat>

    function View(): Table
      reads this
    {
      Table(devices, threads, failedPaths, lastEnumeration, playerAssignment, started, stopped)
    }

    constructor ()
      ensures View() == EMPTY_TABLE
    {
      devices := Pair(Slot(0, 0, None, NO_INFO), Slot(1, 1, None, NO_INFO));
      threads, failedPaths, playerAssignment := NO_THREADS, [], UNASSIGNED;
      lastEnumeration, started, stopped := None, 0, [];
    }

    /** Forgets the failed paths that are no longer listed. */
    method RetainFailed(devs: seq<Found>)
      modifies this`failedPaths
      ensures failedPaths == StillListed(old(failedPaths), devs)
    {
      var kept := [];
      for i := 0 to |failedPaths|
        invariant failedPaths == old(failedPaths)
        invariant kept + StillListed(failedPaths[i..], devs) == StillListed(failedPaths, devs)
      {
        assert failedPaths[i..][1..] == failedPaths[i + 1..];
        if Listed(devs, failedPaths[i]) {
          Assoc(kept, [failedPaths[i]], StillListed(failedPaths[i + 1..], devs));
          kept := kept + [failedPaths[i]];
        }
      }
      failedPaths := kept;
    }

    /** Stops and forgets the poll thread of a slot. */
    method ReapThread(pad: Pad)
      modifies this`threads, this`stopped
      ensures threads == old(threads).With(pad, None)
      ensures stopped == old(stopped) + AsList(old(threads).At(pad))
    {
      if threads.At(pad).Some? {
        stopped := stopped + [threads.At(pad).value];
      }
      threads := threads.With(pad, None);
    }

    method AttemptConnections(devs: seq<Found>, asked: nat, now: nat)
      modifies this
      ensures View() == Attempted(old(View()), devs, asked, now)
    {
      if devices.first.conn.Some? && devices.second.conn.Some? {
        return;
      }
      if lastEnumeration.Some? && asked < lastEnumeration.value + ENUMERATION_INTERVAL {
        return;
      }
      lastEnumeration := Some(now);
      RetainFailed(devs);
      ghost var start := View();
      var i := 0;
      while i < |devs|
        invariant i <= |devs|
        invariant Scanned(View(), devs[i..]) == Scanned(start, devs)
      {
        var d := devs[i];
        assert devs[i..][1..] == devs[i + 1..];
        if !(d.path == "" || !Contains(d.product, PRODUCT) || d.path in failedPaths || AlreadyOpen(View(), d.path)) {
          var slot := FreeSlot(View());
          if slot.None? {
            break;
          }
          OpenDevice(slot.value, d);
        }
        i := i + 1;
      }
    }

    method OpenDevice(pad: Pad, d: Found)
      modifies this
      ensures View() == Tried(old(View()), pad, d)
    {
      match d.opening {
        case ReadFails => failedPaths := failedPaths + [d.path];
        case WriteFails =>
        case SetupFails =>
        case Opens =>
          var device := devices.At(pad);
          devices := devices.With(pad, device.(conn := Some(OpenConn(started, d.path, device.cell))));
          ReapThread(pad);
          threads := threads.With(pad, Some(started));
          started := started + 1;
      }
    }

    method DropDevice(pad: Pad)
      modifies this
      ensures View() == Dropped(old(View()), pad)
    {
      devices := devices.With(pad, devices.At(pad).(conn := None, info := NO_INFO));
      ReapThread(pad);
    }

    method CorrectDeviceOrder() returns (swapped: bool)
      modifies this`devices, this`threads
      ensures swapped == OrderOf(old(View())) && View() == Reordered(old(View()))
    {
      var info0, info1 := devices.first.info, devices.second.info;
      var pinned := OverrideShouldSwap(playerAssignment, info0, info1);
      if pinned.Some? {
        swapped := pinned.value;
      } else {
        if info0.connected && info1.connected && info0.isPlayer2 == info1.isPlayer2 {
          return false;
        }
        swapped := (info0.connected && info0.isPlayer2) || (info1.connected && !info1.isPlayer2);
      }
      if swapped {
        devices := Pair(devices.second, devices.first);
        threads := Pair(threads.second, threads.first);
        devices := Pair(devices.first.(padIndex := 0), devices.second.(padIndex := 1));
      }
    }
  }

  // ─── Runs ─────────────────────────────────────────────────────────────────

  datatype TableStep =
    | Attempt(devs: seq<Found>, asked: nat, now: nat)
    | Drop(pad: Pad)
    | Learn(pad: Pad, info: Info)      // the handshake of an open connection tells who it is
    | Reorder
    | Assign(assignment: Pair<Option<string>>)

  function TableStepped(t: Table, step: TableStep): Table {
    match step
    case Attempt(devs, asked, now) => Attempted(t, devs, asked, now)
    case Drop(pad) => Dropped(t, pad)
    case Learn(pad, info) =>
      if t.devices.At(pad).conn.None? then t
      else t.(devices := t.devices.With(pad, t.devices.At(pad).(info := info)))
    case Reorder => Reordered(t)
    case Assign(assignment) => Reordered(t.(assignment := assignment))
  }

  function TableRun(steps: seq<TableStep>): Table {
    if steps == [] then EMPTY_TABLE else TableStepped(TableRun(steps[..|steps| - 1]), steps[|steps| - 1])
  }

  // ─── What every section keeps ─────────────────────────────────────────────

  /** The slot's device reports the slot, also to the input callback, and its thread is the connection's. */
  predicate SlotAligned(s: Slot, thread: Option<nat>, pad: nat) {
    && s.padIndex == pad
    && (s.conn.None? ==> thread.None? && s.info == NO_INFO)
    && (s.conn.Some? ==> thread == Some(s.conn.value.id) && s.conn.value.indexCell == s.cell)
  }

  predicate Distinct(paths: seq<string>) {
    forall i, j :: 0 <= i < j < |paths| ==> paths[i] != paths[j]
  }

  predicate NotFailed(s: Slot, failed: seq<string>) {
    s.conn.Some? ==> s.conn.value.path !in failed
  }

  predicate PathsApart(t: Table) {
    && (t.devices.first.conn.Some? ==> !Holds(t.devices.second, t.devices.first.conn.value.path))
    && NotFailed(t.devices.first, t.failedPaths) && NotFailed(t.devices.second, t.failedPaths)
    && Distinct(t.failedPaths)
  }

  function Tally(ids: seq<nat>, id: nat): nat {
    if ids == [] then 0 else Tally(ids[..|ids| - 1], id) + if ids[|ids| - 1] == id then 1 else 0
  }

  function Threads(t: Table, id: nat): nat {
    Tally(t.stopped, id) + Tally(AsList(t.threads.first), id) + Tally(AsList(t.threads.second), id)
  }

  /** Every poll thread ever started is in exactly one place: a slot, or stopped. */
  ghost predicate ThreadsKept(t: Table) {
    forall id: nat :: Threads(t, id) == if id < t.started then 1 else 0
  }

  ghost predicate TableInv(t: Table) {
    && SlotAligned(t.devices.first, t.threads.first, 0)
    && SlotAligned(t.devices.second, t.threads.second, 1)
    && t.devices.first.cell != t.devices.second.cell
    && PathsApart(t)
    && ThreadsKept(t)
  }

  lemma TallyMore(ids: seq<nat>, thread: Option<nat>, id: nat)
    ensures Tally(ids + AsList(thread), id) == Tally(ids, id) + Tally(AsList(thread), id)
  {
    if thread.Some? {
      assert (ids + [thread.value])[..|ids|] == ids;
      assert [thread.value][..0] == [];
    } else {
      assert ids + [] == ids;
    }
  }

  lemma {:induction false} StillListedMembers(paths: seq<string>, devs: seq<Found>, path: string)
    ensures path in StillListed(paths, devs) <==> path in paths && Listed(devs, path)
  {
    if paths != [] {
      StillListedMembers(paths[1..], devs, path);
      assert path in paths <==> path == paths[0] || path in paths[1..];
    }
  }

  lemma {:induction false} StillListedDistinct(paths: seq<string>, devs: seq<Found>)
    requires Distinct(paths)
    ensures Distinct(StillListed(paths, devs))
  {
    if paths != [] {
      StillListedDistinct(paths[1..], devs);
      StillListedMembers(paths[1..], devs, paths[0]);
      assert paths[0] !in paths[1..];
    }
  }

  lemma OccupiedKeeps(t: Table, pad: Pad, path: string)
    requires TableInv(t) && t.devices.At(pad).conn.None?
    requires path !in t.failedPaths && !AlreadyOpen(t, path)
    ensures TableInv(Occupied(t, pad, path))
  {
    var after := Occupied(t, pad, path);
    forall id: nat
      ensures Threads(after, id) == if id < after.started then 1 else 0
    {
      TallyMore(t.stopped, t.threads.At(pad), id);
      TallyMore([], Some(t.started), id);
      assert [] + [t.started] == [t.started];
      assert Threads(t, id) == if id < t.started then 1 else 0;
    }
  }

  lemma FailedMore(t: Table, path: string)
    requires TableInv(t) && path !in t.failedPaths && !AlreadyOpen(t, path)
    ensures TableInv(t.(failedPaths := t.failedPaths + [path]))
  {
    var after := t.(failedPaths := t.failedPaths + [path]);
    forall id: nat
      ensures Threads(after, id) == if id < after.started then 1 else 0
    {
      assert Threads(t, id) == if id < t.started then 1 else 0;
    }
  }

  lemma {:induction false} ScannedKeeps(t: Table, devs: seq<Found>)
    requires TableInv(t)
    ensures TableInv(Scanned(t, devs))
    decreases |devs|
  {
    if devs == [] {
    } else if Skipped(t, devs[0]) {
      ScannedKeeps(t, devs[1..]);
    } else if FreeSlot(t).Some? {
      var pad := FreeSlot(t).value;
      if devs[0].opening.Opens? {
        OccupiedKeeps(t, pad, devs[0].path);
      } else if devs[0].opening.ReadFails? {
        FailedMore(t, devs[0].path);
      }
      ScannedKeeps(Tried(t, pad, devs[0]), devs[1..]);
    }
  }

  lemma AttemptedKeeps(t: Table, devs: seq<Found>, asked: nat, now: nat)
    requires TableInv(t)
    ensures TableInv(Attempted(t, devs, asked, now))
  {
    StillListedDistinct(t.failedPaths, devs);
    if t.devices.first.conn.Some? {
      StillListedMembers(t.failedPaths, devs, t.devices.first.conn.value.path);
    }
    if t.devices.second.conn.Some? {
      StillListedMembers(t.failedPaths, devs, t.devices.second.conn.value.path);
    }
    var kept := t.(lastEnumeration := Some(now), failedPaths := StillListed(t.failedPaths, devs));
    SameThreadsKept(t, kept);
    ScannedKeeps(kept, devs);
  }

  lemma DroppedKeeps(t: Table, pad: Pad)
    requires TableInv(t)
    ensures TableInv(Dropped(t, pad))
  {
    var after := Dropped(t, pad);
    forall id: nat
      ensures Threads(after, id) == if id < after.started then 1 else 0
    {
      TallyMore(t.stopped, t.threads.At(pad), id);
      assert Threads(t, id) == if id < t.started then 1 else 0;
    }
  }

  lemma ReorderedKeeps(t: Table)
    requires TableInv(t)
    ensures TableInv(Reordered(t))
  {
    var after := Reordered(t);
    forall id: nat
      ensures Threads(after, id) == if id < after.started then 1 else 0
    {
      assert Threads(t, id) == if id < t.started then 1 else 0;
    }
  }

  lemma SameThreadsKept(t: Table, after: Table)
    requires ThreadsKept(t) && after.threads == t.threads && after.stopped == t.stopped && after.started == t.started
    ensures ThreadsKept(after)
  {
    forall id: nat
      ensures Threads(after, id) == if id < after.started then 1 else 0
    {
      assert Threads(t, id) == if id < t.started then 1 else 0;
    }
  }

  lemma TableStepKeeps(t: Table, step: TableStep)
    requires TableInv(t)
    ensures TableInv(TableStepped(t, step))
  {
    match step {
      case Attempt(devs, asked, now) => AttemptedKeeps(t, devs, asked, now);
      case Drop(pad) => DroppedKeeps(t, pad);
      case Learn(pad, info) => SameThreadsKept(t, TableStepped(t, step));
      case Reorder => ReorderedKeeps(t);
      case Assign(assignment) =>
        SameThreadsKept(t, t.(assignment := assignment));
        ReorderedKeeps(t.(assignment := assignment));
    }
  }

  /**
   In every run, between any two locked sections: slot i's device reports index i and so does
   its input callback; a poll thread is kept at i exactly when a connection is, and reads that
   connection; open paths differ from each other and from the failed ones, which are listed
   once; and no poll thread is lost or stopped twice.
   */
  lemma {:induction false} SlotsAlwaysConsistent(steps: seq<TableStep>)
    ensures TableInv(TableRun(steps))
  {
    if steps != [] {
      SlotsAlwaysConsistent(steps[..|steps| - 1]);
      TableStepKeeps(TableRun(steps[..|steps| - 1]), steps[|steps| - 1]);
    } else {
      assert forall id: nat :: Threads(EMPTY_TABLE, id) == 0;
    }
  }

  /** A scan never forgets a failed path nor opens it, and adds only paths that are listed. */
  lemma {:induction false} ScanKeepsFailed(t: Table, devs: seq<Found>, path: string)
    ensures path in t.failedPaths ==> path in Scanned(t, devs).failedPaths
    ensures path in t.failedPaths && AlreadyOpen(Scanned(t, devs), path) ==> AlreadyOpen(t, path)
    ensures path in Scanned(t, devs).failedPaths ==> path in t.failedPaths || Listed(devs, path)
    ensures Scanned(t, devs).lastEnumeration == t.lastEnumeration
    decreases |devs|
  {
    if devs == [] {
    } else if Skipped(t, devs[0]) {
      ScanKeepsFailed(t, devs[1..], path);
      ListedLater(devs, path);
    } else if FreeSlot(t).Some? {
      assert Listed(devs, devs[0].path);
      ScanKeepsFailed(Tried(t, FreeSlot(t).value, devs[0]), devs[1..], path);
      ListedLater(devs, path);
    }
  }

  lemma ListedLater(devs: seq<Found>, path: string)
    requires devs != []
    ensures Listed(devs[1..], path) ==> Listed(devs, path)
  {
    if i :| 0 <= i < |devs[1..]| && devs[1..][i].path == path {
      assert devs[i + 1].path == path;
    }
  }

  /**
   When the devices are listed, a failed path stays failed exactly if it is among them, and
   then it is not opened; an unlisted path is not failed afterwards.
   */
  lemma FailedStays(t: Table, devs: seq<Found>, asked: nat, now: nat, path: string)
    requires MayEnumerate(t, asked)
    ensures var after := Attempted(t, devs, asked, now);
      && (path in t.failedPaths ==> (path in after.failedPaths <==> Listed(devs, path)))
      && (path in t.failedPaths && Listed(devs, path) && AlreadyOpen(after, path) ==> AlreadyOpen(t, path))
      && (path in after.failedPaths ==> Listed(devs, path))
  {
    StillListedMembers(t.failedPaths, devs, path);
    ScanKeepsFailed(t.(lastEnumeration := Some(now), failedPaths := StillListed(t.failedPaths, devs)), devs, path);
  }

  // ─── Enumerations over runs ───────────────────────────────────────────────

  predicate Enumerates(t: Table, step: TableStep) {
    step.Attempt? && MayEnumerate(t, step.asked)
  }

  /** Clock readings come in order; only one thread attempts connections. */
  predicate InTime(steps: seq<TableStep>) {
    && (forall i :: 0 <= i < |steps| && steps[i].Attempt? ==> steps[i].asked <= steps[i].now)
    && (forall i, j :: 0 <= i < j < |steps| && steps[i].Attempt? && steps[j].Attempt? ==>
          steps[i].now <= steps[j].asked)
  }

  /** Only an enumeration changes the time of the last one, to its own. */
  lemma LastEnumerationStep(t: Table, step: TableStep)
    ensures TableStepped(t, step).lastEnumeration == if Enumerates(t, step) then Some(step.now) else t.lastEnumeration
  {
    if Enumerates(t, step) {
      var purged := StillListed(t.failedPaths, step.devs);
      ScanKeepsFailed(t.(lastEnumeration := Some(step.now), failedPaths := purged), step.devs, "");
    }
  }

  /** The time of an enumeration is never forgotten. */
  lemma {:induction false} EnumerationRemembered(steps: seq<TableStep>, i: nat, n: nat)
    requires InTime(steps) && i < n <= |steps| && Enumerates(TableRun(steps[..i]), steps[i])
    ensures var last := TableRun(steps[..n]).lastEnumeration; last.Some? && steps[i].now <= last.value
    decreases n
  {
    assert steps[..n][..n - 1] == steps[..n - 1];
    LastEnumerationStep(TableRun(steps[..n - 1]), steps[n - 1]);
    if i < n - 1 {
      EnumerationRemembered(steps, i, n - 1);
    }
  }

  /** In every run the devices are listed only with a slot free, and any two times at least a second apart. */
  lemma EnumerationsSpaced(steps: seq<TableStep>, i: nat, j: nat)
    requires InTime(steps) && i < j < |steps|
    requires Enumerates(TableRun(steps[..i]), steps[i]) && Enumerates(TableRun(steps[..j]), steps[j])
    ensures steps[i].now + 1_000_000_000 <= steps[j].asked
    ensures FreeSlot(TableRun(steps[..i])).Some? && FreeSlot(TableRun(steps[..j])).Some?
  {
    EnumerationRemembered(steps, i, j);
  }

  // ─── Reordering ───────────────────────────────────────────────────────────

  /** Reordering twice is reordering once, whatever the assignment, serials and jumpers. */
  lemma ReorderIdempotent(t: Table)
    ensures !OrderOf(Reordered(t))
    ensures Reordered(Reordered(t)) == Reordered(t)
  {
  }

  /** The slot a lone pad belongs in: pinned by its serial, first slot first, else by its jumper. */
  function HomeOf(assignment: Pair<Option<string>>, info: Info, current: Pad): Pad {
    if assignment.first == Some(info.serial) && assignment.second == Some(info.serial) then current
    else if assignment.first == Some(info.serial) then 0
    else if assignment.second == Some(info.serial) then 1
    else if info.isPlayer2 then 1 else 0
  }

  /** A lone connected pad ends up where it belongs. */
  lemma LonePadGoesHome(t: Table, pad: Pad)
    requires t.devices.At(pad).info.connected && !t.devices.At(1 - pad).info.connected
    ensures Reordered(t).devices.At(HomeOf(t.assignment, t.devices.At(pad).info, pad)).info == t.devices.At(pad).info
  {
  }

  /** The assignment names both pads. */
  predicate Covers(assignment: Pair<Option<string>>, a: Info, b: Info) {
    || (assignment.first == Some(a.serial) && assignment.second == Some(b.serial))
    || (assignment.first == Some(b.serial) && assignment.second == Some(a.serial))
  }

  /**
   Two connected pads end up as assigned when the assignment names both, else by their
   jumpers when these differ, else as they were.
   */
  lemma TwoPadsOrdered(t: Table)
    requires t.devices.first.info.connected && t.devices.second.info.connected
    ensures var a, b := t.devices.first.info, t.devices.second.info;
      var x, y := Reordered(t).devices.first.info, Reordered(t).devices.second.info;
      && ((x == a && y == b) || (x == b && y == a))
      && (Covers(t.assignment, a, b) ==> t.assignment == Pair(Some(x.serial), Some(y.serial)))
      && (!Covers(t.assignment, a, b) && a.isPlayer2 != b.isPlayer2 ==> !x.isPlayer2 && y.isPlayer2)
      && (!Covers(t.assignment, a, b) && a.isPlayer2 == b.isPlayer2 ==> Reordered(t) == t)
  {
  }
}
