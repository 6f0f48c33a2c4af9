/**
 The order of the lights commands of one connection. Lights are queued only at the back,
 so they are handed to the writer in the order they were queued, whatever is inserted
 ahead of them and however often one of them is retried.
 */
module LightOrder {
  import opened CommandQueue
  import opened Pipeline
  import opened Conservation
  import opened WireOrder
  import opened LightRelease

  // ─── The invariant ────────────────────────────────────────────────────────

  predicate LineAscends(line: seq<Command>) {
    forall i, j :: 0 <= i < j < |line| && line[i].isLights && line[j].isLights ==> line[i].id < line[j].id
  }

  predicate JobsAscend(jobs: seq<Job>, queued: seq<Request>) {
    forall i, j :: 0 <= i < j < |jobs| && JobIsLights(jobs[i], queued) && JobIsLights(jobs[j], queued) ==>
      jobs[i].id <= jobs[j].id
  }

  predicate JobsAhead(jobs: seq<Job>, queued: seq<Request>, line: seq<Command>) {
    forall i, j :: 0 <= i < |jobs| && 0 <= j < |line| && JobIsLights(jobs[i], queued) && line[j].isLights ==>
      jobs[i].id <= line[j].id
  }

  predicate LightsOrdered(line: seq<Command>, jobs: seq<Job>, queued: seq<Request>) {
    LineAscends(line) && JobsAscend(jobs, queued) && JobsAhead(jobs, queued, line)
  }

  ghost predicate Ordered(s: State) {
    WireInv(s) && LightsOrdered(Line(s.desk), s.link.handed, s.desk.ledger.queued)
  }

  /** Lights are never inserted at the front. */
  predicate LightsAtBack(step: Step) {
    QueuesLights(step) ==> !step.front
  }

  // ─── What happens to the line ─────────────────────────────────────────────

  /** `at` says where in `line` each lights command of `later` stands, in the same order. */
  predicate Picks(at: seq<nat>, later: seq<Command>, line: seq<Command>) {
    && |at| == |later|
    && (forall i :: 0 <= i < |later| && later[i].isLights ==>
          at[i] < |line| && line[at[i]].isLights && line[at[i]].id == later[i].id)
    && (forall i, j :: 0 <= i < j < |later| && later[i].isLights && later[j].isLights ==> at[i] < at[j])
  }

  lemma PicksOrdered(at: seq<nat>, line: seq<Command>, later: seq<Command>, jobs: seq<Job>, queued: seq<Request>)
    requires LightsOrdered(line, jobs, queued) && Picks(at, later, line)
    ensures LightsOrdered(later, jobs, queued)
  {
    forall i, j | 0 <= i < j < |later| && later[i].isLights && later[j].isLights
      ensures later[i].id < later[j].id
    {
      assert line[at[i]].id < line[at[j]].id;
    }
    forall i, j | 0 <= i < |jobs| && 0 <= j < |later| && JobIsLights(jobs[i], queued) && later[j].isLights
      ensures jobs[i].id <= later[j].id
    {
      assert jobs[i].id <= line[at[j]].id;
    }
  }

  function Counting(n: nat, from: nat): (at: seq<nat>)
    ensures |at| == n && forall i :: 0 <= i < n ==> at[i] == from + i
  {
    seq(n, i requires i >= 0 => from + i)
  }

  /** One step of `update`: the line stays, or loses its head. */
  lemma MainOrdered(s: State, jobs: seq<Job>, queued: seq<Request>)
    requires OneHeld(s.desk) && LightsOrdered(Line(s.desk), jobs, queued)
    ensures LightsOrdered(Line(MainStep(s).desk), jobs, queued)
  {
    MainMoves(s);
    var line, later := Line(s.desk), Line(MainStep(s).desk);
    if LineKept(s.desk, MainStep(s).desk) {
      PicksOrdered(Counting(|later|, 0), line, later, jobs, queued);
    } else {
      PicksOrdered(Counting(|later|, 1), line, later, jobs, queued);
    }
  }

  /** A new command at the back comes after every lights command before it. */
  lemma BackOrdered(line: seq<Command>, c: Command, jobs: seq<Job>, queued: seq<Request>)
    requires LightsOrdered(line, jobs, queued)
    requires forall d :: d in line ==> d.id < c.id
    requires forall i :: 0 <= i < |jobs| ==> jobs[i].id < c.id
    ensures LightsOrdered(line + [c], jobs, queued)
  {
    forall i, j | 0 <= i < j < |line + [c]| && (line + [c])[i].isLights && (line + [c])[j].isLights
      ensures (line + [c])[i].id < (line + [c])[j].id
    {
      assert (line + [c])[i] == line[i] && line[i] in line;
    }
  }

  /** Anything but lights may be inserted anywhere. */
  lemma InsertOrdered(head: seq<Command>, rest: seq<Command>, c: Command, jobs: seq<Job>, queued: seq<Request>)
    requires LightsOrdered(head + rest, jobs, queued) && !c.isLights
    ensures LightsOrdered(head + ([c] + rest), jobs, queued)
  {
    var at := Counting(|head| + 1, 0) + Counting(|rest|, |head|);
    var later := head + ([c] + rest);
    forall i | 0 <= i < |later| && later[i].isLights
      ensures at[i] == if i < |head| then i else i - 1
    {
      assert i != |head|;
    }
    PicksOrdered(at, head + rest, later, jobs, queued);
  }

  lemma {:induction false} NoLightsAmong(cmds: seq<Command>, i: nat)
    requires CountLights(cmds) == 0 && i < |cmds|
    ensures !cmds[i].isLights
  {
    if i > 0 {
      NoLightsAmong(cmds[1..], i - 1);
    }
  }

  /** Dropping the queued lights leaves at most the one being sent. */
  lemma PurgeOrdered(head: seq<Command>, rest: seq<Command>, jobs: seq<Job>, queued: seq<Request>)
    requires |head| <= 1 && LightsOrdered(head + rest, jobs, queued)
    ensures LightsOrdered(head + WithoutLights(rest), jobs, queued)
  {
    var later := head + WithoutLights(rest);
    NoLightsLeft(rest);
    forall i | |head| <= i < |later|
      ensures !later[i].isLights
    {
      NoLightsAmong(WithoutLights(rest), i - |head|);
    }
    PicksOrdered(Counting(|later|, 0), head + rest, later, jobs, queued);
  }

  /** More requests do not change which of the earlier jobs are lights. */
  lemma MoreRequests(line: seq<Command>, jobs: seq<Job>, queued: seq<Request>, more: seq<Request>)
    requires LightsOrdered(line, jobs, queued) && queued <= more
    requires forall i :: 0 <= i < |jobs| ==> JobOf(jobs[i], queued)
    ensures LightsOrdered(line, jobs, more)
  {
    forall i | 0 <= i < |jobs|
      ensures JobIsLights(jobs[i], more) == JobIsLights(jobs[i], queued)
    {
      assert JobOf(jobs[i], queued);
    }
  }

  lemma EnqueueOrdered(d: Desk, r: Request, front: bool, jobs: seq<Job>)
    requires OneHeld(d) && LightsOrdered(Line(d), jobs, d.ledger.queued) && (r.LightsRequest? ==> !front)
    requires forall c :: c in Line(d) ==> Matches(c, d.ledger.queued)
    requires forall i :: 0 <= i < |jobs| ==> JobOf(jobs[i], d.ledger.queued)
    ensures LightsOrdered(Line(Enqueued(d, r, front)), jobs, d.ledger.queued + [r])
  {
    var c := MakeCommand(|d.ledger.queued|, r);
    var e := Enqueued(d, r, front);
    MoreRequests(Line(d), jobs, d.ledger.queued, d.ledger.queued + [r]);
    if front {
      InsertOrdered(Holding(d), d.handle.pending, c, jobs, d.ledger.queued + [r]);
      assert Line(e) == Holding(d) + ([c] + d.handle.pending);
    } else {
      forall i | 0 <= i < |jobs|
        ensures jobs[i].id < c.id
      {
        assert JobOf(jobs[i], d.ledger.queued);
      }
      BackOrdered(Line(d), c, jobs, d.ledger.queued + [r]);
      assert Line(e) == Line(d) + [c];
    }
  }

  // ─── Every step ───────────────────────────────────────────────────────────

  lemma CallOrdered(s: State, step: Step)
    requires Ordered(s) && s.desk.pc.Idle? && LightsAtBack(step) && (step.Queue? || step.DropLights?)
    ensures var t := Apply(s, step); LightsOrdered(Line(t.desk), t.link.handed, t.desk.ledger.queued)
  {
    assert forall c :: c in Line(s.desk) ==> Matches(c, s.desk.ledger.queued);
    if step.Queue? {
      EnqueueOrdered(s.desk, step.request, step.front, s.link.handed);
    } else {
      PurgeOrdered(Holding(s.desk), s.desk.handle.pending, s.link.handed, s.desk.ledger.queued);
      assert Line(LightsPurged(s.desk)) == Holding(s.desk) + WithoutLights(s.desk.handle.pending);
    }
  }

  /** The head of the line is handed over: it comes after every lights job and before the rest. */
  lemma SentOrdered(line: seq<Command>, jobs: seq<Job>, job: Job, queued: seq<Request>)
    requires LightsOrdered(line, jobs, queued) && line != []
    requires job.id == line[0].id && Matches(line[0], queued)
    ensures LightsOrdered(line, jobs + [job], queued)
  {
    assert JobIsLights(job, queued) == line[0].isLights;
  }

  lemma HandOverOrdered(s: State)
    requires Ordered(s) && s.desk.pc.HandOff? && ChannelOpen(s.link)
    ensures var t := MainStep(s); LightsOrdered(Line(t.desk), t.link.handed, t.desk.ledger.queued)
  {
    var c := s.desk.pc.command;
    HeldMatches(s);
    SentOrdered(Line(s.desk), s.link.handed, Job(c.id, c.packets), s.desk.ledger.queued);
  }

  lemma MainKeepsOrder(s: State)
    requires Ordered(s) && !(s.desk.pc.HandOff? && ChannelOpen(s.link))
    ensures var t := MainStep(s); LightsOrdered(Line(t.desk), t.link.handed, t.desk.ledger.queued)
  {
    SameHanded(s, Main);
    MainMoves(s);
    MainOrdered(s, s.link.handed, s.desk.ledger.queued);
  }

  lemma OtherKeepsOrder(s: State, step: Step)
    requires Ordered(s) && !step.Main? && !(s.desk.pc.Idle? && (step.Queue? || step.DropLights?))
    ensures var t := Apply(s, step); LightsOrdered(Line(t.desk), t.link.handed, t.desk.ledger.queued)
  {
    SameHanded(s, step);
    LineUntouched(s, step);
  }

  lemma OrderedStep(s: State, step: Step)
    requires Ordered(s) && LightsAtBack(step)
    ensures Ordered(Apply(s, step))
  {
    WireStep(s, step);
    if step.Main? {
      if s.desk.pc.HandOff? && ChannelOpen(s.link) {
        HandOverOrdered(s);
      } else {
        MainKeepsOrder(s);
      }
    } else if s.desk.pc.Idle? && (step.Queue? || step.DropLights?) {
      CallOrdered(s, step);
    } else {
      OtherKeepsOrder(s, step);
    }
  }

  lemma OpenedOrdered(now: nat)
    ensures Ordered(OPENED.(now := now))
  {
    WireAlways([]);
    assert WireInv(OPENED.(now := now));
    assert Line(OPENED_DESK) == [MakeCommand(0, INFO_REQUEST)];
  }

  lemma {:induction false} OrderedAlways(steps: seq<Step>)
    requires forall i :: 0 <= i < |steps| ==> LightsAtBack(steps[i])
    ensures Ordered(Exec(OPENED, steps))
  {
    if steps != [] {
      OrderedAlways(steps[..|steps| - 1]);
      OrderedStep(Exec(OPENED, steps[..|steps| - 1]), steps[|steps| - 1]);
    } else {
      OpenedOrdered(0);
    }
  }

  /**
   In every run that queues lights only at the back, the lights jobs handed over stand in
   the order in which they were queued; only a retry hands the same one over again.
   */
  lemma LightsHandedInOrder(steps: seq<Step>, i: nat, j: nat)
    requires forall k :: 0 <= k < |steps| ==> LightsAtBack(steps[k])
    requires var s := Exec(OPENED, steps);
      && i < j < |s.link.handed|
      && JobIsLights(s.link.handed[i], s.desk.ledger.queued) && JobIsLights(s.link.handed[j], s.desk.ledger.queued)
    ensures var jobs := Exec(OPENED, steps).link.handed; jobs[i].id <= jobs[j].id
  {
    OrderedAlways(steps);
  }
}
