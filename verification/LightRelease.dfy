/**
 Lights commands in one connection: only a lights request adds one, and after the
 queued lights are dropped and a plain command is queued behind them, no lights
 command is ever handed to the writer after that command.
 */
module LightRelease {
  import opened Bytes
  import opened CommandQueue
  import opened Pipeline
  import opened Conservation
  import opened WireOrder

  function CountLights(cmds: seq<Command>): nat {
    if cmds == [] then 0 else (if cmds[0].isLights then 1 else 0) + CountLights(cmds[1..])
  }

  lemma {:induction false} CountLightsAppend(a: seq<Command>, b: seq<Command>)
    ensures CountLights(a + b) == CountLights(a) + CountLights(b)
  {
    if a == [] {
      assert a + b == b;
    } else {
      CountLightsAppend(a[1..], b);
      assert (a + b)[0] == a[0] && (a + b)[1..] == a[1..] + b;
    }
  }

  lemma {:induction false} UnsentLightsCounted(cmds: seq<Command>)
    ensures CountLights(cmds) > 0 <==> exists i :: 0 <= i < |cmds| && cmds[i].isLights
  {
    if cmds != [] {
      UnsentLightsCounted(cmds[1..]);
      if i :| 0 <= i < |cmds| && cmds[i].isLights {
        assert i > 0 ==> cmds[1..][i - 1].isLights;
      }
      if i :| 0 <= i < |cmds[1..]| && cmds[1..][i].isLights {
        assert cmds[i + 1].isLights;
      }
    }
  }

  lemma {:induction false} NoLightsLeft(cmds: seq<Command>)
    ensures CountLights(WithoutLights(cmds)) == 0
  {
    if cmds != [] {
      NoLightsLeft(cmds[1..]);
      if !cmds[0].isLights {
        CountLightsAppend([cmds[0]], WithoutLights(cmds[1..]));
      }
    }
  }

  predicate QueuesLights(step: Step) {
    step.Queue? && step.request.LightsRequest?
  }

  lemma EnqueueLights(d: Desk, r: Request, front: bool)
    ensures CountLights(Line(Enqueued(d, r, front))) == CountLights(Line(d)) + if r.LightsRequest? then 1 else 0
  {
    var c := MakeCommand(|d.ledger.queued|, r);
    CountLightsAppend(Holding(d), d.handle.pending);
    CountLightsAppend(Holding(d), Enqueued(d, r, front).handle.pending);
    CountLightsAppend([c], d.handle.pending);
    CountLightsAppend(d.handle.pending, [c]);
  }

  lemma PurgeLights(d: Desk)
    ensures CountLights(Line(LightsPurged(d))) <= CountLights(Line(d))
  {
    NoLightsLeft(d.handle.pending);
    CountLightsAppend(Holding(d), d.handle.pending);
    CountLightsAppend(Holding(d), WithoutLights(d.handle.pending));
  }

  /** Timeouts, retries, priority inserts, responses and closes never add a lights command. */
  lemma OnlyLightsRequestsAdd(s: State, step: Step)
    requires OneHeld(s.desk)
    ensures CountLights(Line(Apply(s, step).desk))
         <= CountLights(Line(s.desk)) + if QueuesLights(step) then 1 else 0
  {
    if step.Main? {
      MainMoves(s);
    } else if s.desk.pc.Idle? {
      match step {
        case Queue(r, front) => EnqueueLights(s.desk, r, front);
        case DropLights => PurgeLights(s.desk);
        case _ =>
      }
    }
  }

  // ─── Release ──────────────────────────────────────────────────────────────

  /** Every lights command of the line stands ahead of the request `k`. */
  predicate Guarded(line: seq<Command>, k: nat) {
    line != [] ==>
      if line[0].id == k then CountLights(line) == 0
      else (line[0].isLights ==> Count(line[1..], k) > 0) && Guarded(line[1..], k)
  }

  lemma {:induction false} NoLightsGuarded(line: seq<Command>, k: nat)
    requires CountLights(line) == 0
    ensures Guarded(line, k)
  {
    if line != [] {
      NoLightsGuarded(line[1..], k);
    }
  }

  lemma {:induction false} GuardedTail(line: seq<Command>, k: nat)
    requires Guarded(line, k) && line != []
    ensures Guarded(line[1..], k)
  {
    if line[0].id == k {
      NoLightsGuarded(line[1..], k);
    }
  }

  lemma {:induction false} GuardedSnoc(line: seq<Command>, c: Command, k: nat)
    requires Guarded(line, k) && !c.isLights
    ensures Guarded(line + [c], k)
  {
    if line == [] {
      assert line + [c] == [c];
      NoLightsGuarded([c], k);
    } else {
      assert (line + [c])[1..] == line[1..] + [c];
      if line[0].id == k {
        CountLightsAppend(line, [c]);
      } else {
        CountSnoc(line[1..], c, k);
        GuardedSnoc(line[1..], c, k);
      }
    }
  }

  lemma GuardedSecond(head: seq<Command>, rest: seq<Command>, c: Command, k: nat)
    requires |head| <= 1 && Guarded(head + rest, k) && !c.isLights && c.id != k
    ensures Guarded(head + ([c] + rest), k)
  {
    assert ([c] + rest)[1..] == rest;
    if head == [] {
      assert head + rest == rest && head + ([c] + rest) == [c] + rest;
    } else {
      assert (head + rest)[1..] == rest;
      assert (head + ([c] + rest))[1..] == [c] + rest;
      if head[0].id == k {
        CountLightsAppend(head, rest);
        CountLightsAppend(head, [c] + rest);
        CountLightsAppend([c], rest);
      } else {
        CountCons(c, rest, k);
      }
    }
  }

  lemma {:induction false} GuardedDropped(head: seq<Command>, rest: seq<Command>, k: nat)
    requires |head| <= 1 && Guarded(head + rest, k)
    requires forall c :: c in head + rest && c.id == k ==> !c.isLights
    ensures Guarded(head + WithoutLights(rest), k)
  {
    var kept := WithoutLights(rest);
    NoLightsLeft(rest);
    if head == [] {
      assert head + kept == kept;
      NoLightsGuarded(kept, k);
    } else {
      assert (head + rest)[1..] == rest && (head + kept)[1..] == kept;
      NoLightsGuarded(kept, k);
      if head[0].id == k {
        CountLightsAppend(head, rest);
        CountLightsAppend(head, kept);
      } else if head[0].isLights {
        LightsSplit(rest, k);
        OnlyOtherIds(rest, k);
      }
    }
  }

  lemma {:induction false} OnlyOtherIds(rest: seq<Command>, k: nat)
    requires forall c :: c in rest && c.id == k ==> !c.isLights
    ensures Count(OnlyLights(rest), k) == 0
  {
    if rest != [] {
      assert rest[0] in rest;
      OnlyOtherIds(rest[1..], k);
      if rest[0].isLights {
        CountCons(rest[0], OnlyLights(rest[1..]), k);
      }
    }
  }

  predicate JobIsLights(job: Job, queued: seq<Request>) {
    job.id < |queued| && queued[job.id].LightsRequest?
  }

  predicate HandedAlready(jobs: seq<Job>, k: nat) {
    exists i :: 0 <= i < |jobs| && jobs[i].id == k
  }

  /** No lights job follows a hand-over of `k`. */
  predicate NoLightsAfter(jobs: seq<Job>, queued: seq<Request>, k: nat) {
    forall i, j :: 0 <= i < j < |jobs| && jobs[i].id == k ==> !JobIsLights(jobs[j], queued)
  }

  /** On this line and wire, lights can only come before the request `k`. */
  predicate RuledOut(line: seq<Command>, jobs: seq<Job>, queued: seq<Request>, k: nat) {
    && k < |queued|
    && !queued[k].LightsRequest?
    && Guarded(line, k)
    && (HandedAlready(jobs, k) ==> CountLights(line) == 0)
    && NoLightsAfter(jobs, queued, k)
  }

  predicate LightsRuledOut(s: State, k: nat) {
    RuledOut(Line(s.desk), s.link.handed, s.desk.ledger.queued, k)
  }

  ghost predicate Released(s: State, k: nat) {
    WireInv(s) && LightsRuledOut(s, k)
  }

  lemma HeldMatches(s: State)
    requires WireInv(s) && s.desk.pc.HandOff?
    ensures Line(s.desk) != [] && Line(s.desk)[0] == s.desk.pc.command
    ensures Matches(s.desk.pc.command, s.desk.ledger.queued)
    ensures Line(HandOffDone(s.desk, true)) == Line(s.desk)
  {
    assert Line(s.desk)[0] in Line(s.desk);
  }

  lemma RuledOutSent(line: seq<Command>, jobs: seq<Job>, job: Job, queued: seq<Request>, k: nat)
    requires RuledOut(line, jobs, queued, k) && line != []
    requires job.id == line[0].id && Matches(line[0], queued)
    ensures RuledOut(line, jobs + [job], queued, k)
  {
    assert JobIsLights(job, queued) == line[0].isLights;
  }

  lemma RuledOutStays(line: seq<Command>, later: seq<Command>, jobs: seq<Job>,
                      queued: seq<Request>, more: seq<Request>, k: nat)
    requires RuledOut(line, jobs, queued, k) && queued <= more
    requires Guarded(later, k) && CountLights(later) <= CountLights(line)
    requires forall i :: 0 <= i < |jobs| ==> JobOf(jobs[i], queued)
    ensures RuledOut(later, jobs, more, k)
  {
    forall i, j | 0 <= i < j < |jobs| && jobs[i].id == k
      ensures !JobIsLights(jobs[j], more)
    {
      assert JobOf(jobs[j], queued) && !JobIsLights(jobs[j], queued);
    }
  }

  lemma {:induction false} HandOverRuledOut(s: State, k: nat)
    requires Released(s, k) && s.desk.pc.HandOff? && ChannelOpen(s.link)
    ensures LightsRuledOut(MainStep(s), k)
  {
    var c := s.desk.pc.command;
    HeldMatches(s);
    RuledOutSent(Line(s.desk), s.link.handed, Job(c.id, c.packets), s.desk.ledger.queued, k);
  }

  lemma MainGuarded(s: State, k: nat)
    requires OneHeld(s.desk) && Guarded(Line(s.desk), k)
    ensures Guarded(Line(MainStep(s).desk), k)
  {
    MainMoves(s);
    if !LineKept(s.desk, MainStep(s).desk) {
      GuardedTail(Line(s.desk), k);
    }
  }

  lemma CallGuarded(s: State, step: Step, k: nat)
    requires s.desk.pc.Idle? && Guarded(Line(s.desk), k) && k < |s.desk.ledger.queued|
    requires forall c :: c in Line(s.desk) && c.id == k ==> !c.isLights
    requires (step.Queue? || step.DropLights?) && !QueuesLights(step)
    ensures Guarded(Line(Apply(s, step).desk), k)
  {
    var d, e := s.desk, Apply(s, step).desk;
    match step {
      case Queue(r, front) =>
        var c := MakeCommand(|d.ledger.queued|, r);
        if front {
          GuardedSecond(Holding(d), d.handle.pending, c, k);
        } else {
          GuardedSnoc(Line(d), c, k);
          assert Line(e) == Line(d) + [c];
        }
      case DropLights =>
        GuardedDropped(Holding(d), d.handle.pending, k);
      case _ =>
    }
  }

  lemma LineUntouched(s: State, step: Step)
    requires !step.Main?
    requires !(s.desk.pc.Idle? && (step.Queue? || step.DropLights?))
    ensures Line(Apply(s, step).desk) in {Line(s.desk), []}
  {
    if s.desk.pc.Idle? && step.Close? {
      assert Line(Apply(s, step).desk) == [];
    }
  }

  lemma StepGuarded(s: State, step: Step, k: nat)
    requires Released(s, k) && !QueuesLights(step)
    ensures Guarded(Line(Apply(s, step).desk), k)
  {
    if step.Main? {
      MainGuarded(s, k);
    } else if s.desk.pc.Idle? && (step.Queue? || step.DropLights?) {
      assert forall c :: c in Line(s.desk) ==> Matches(c, s.desk.ledger.queued);
      CallGuarded(s, step, k);
    } else {
      LineUntouched(s, step);
    }
  }

  lemma SameHanded(s: State, step: Step)
    requires !(step.Main? && s.desk.pc.HandOff? && ChannelOpen(s.link))
    ensures Apply(s, step).link.handed == s.link.handed
  {
    if !step.Writer? {
      OthersTouchFlags(s, step);
    }
  }

  lemma {:induction false} OtherRuledOut(s: State, step: Step, k: nat)
    requires Released(s, k) && !QueuesLights(step)
    requires !(step.Main? && s.desk.pc.HandOff? && ChannelOpen(s.link))
    ensures LightsRuledOut(Apply(s, step), k)
  {
    var t := Apply(s, step);
    StepGuarded(s, step, k);
    LedgerGrows(s, step);
    OnlyLightsRequestsAdd(s, step);
    SameHanded(s, step);
    RuledOutStays(Line(s.desk), Line(t.desk), s.link.handed, s.desk.ledger.queued, t.desk.ledger.queued, k);
  }

  lemma ReleasedStep(s: State, step: Step, k: nat)
    requires Released(s, k) && !QueuesLights(step)
    ensures Released(Apply(s, step), k)
  {
    WireStep(s, step);
    if step.Main? && s.desk.pc.HandOff? && ChannelOpen(s.link) {
      HandOverRuledOut(s, k);
    } else {
      OtherRuledOut(s, step, k);
    }
  }

  /** Dropping the queued lights and queueing one more plain command. */
  function Release(s: State, body: seq<byte>): State {
    Apply(Apply(s, DropLights), Queue(PlainRequest(body, false), false))
  }

  /** After the drop, the only lights left are in the command in flight, ahead of the new one. */
  lemma FreshGuard(head: seq<Command>, pending: seq<Command>, c: Command, k: nat)
    requires |head| <= 1 && c.id == k && !c.isLights && (head != [] ==> head[0].id != k)
    ensures Guarded(head + (WithoutLights(pending) + [c]), k)
  {
    var rest := WithoutLights(pending) + [c];
    NoLightsLeft(pending);
    CountLightsAppend(WithoutLights(pending), [c]);
    NoLightsGuarded(rest, k);
    if head == [] {
      assert head + rest == rest;
    } else {
      assert (head + rest)[1..] == rest;
      CountAppend(WithoutLights(pending), [c], k);
    }
  }

  lemma NotHandedYet(s: State, k: nat)
    requires JobsMatch(s) && k >= |s.desk.ledger.queued|
    ensures !HandedAlready(s.link.handed, k)
  {
    forall i | 0 <= i < |s.link.handed|
      ensures s.link.handed[i].id != k
    {
      assert JobOf(s.link.handed[i], s.desk.ledger.queued);
    }
  }

  lemma ReleaseRulesOut(s: State, body: seq<byte>)
    requires WireInv(s) && s.desk.pc.Idle?
    ensures LightsRuledOut(Release(s, body), |s.desk.ledger.queued|)
  {
    var k := |s.desk.ledger.queued|;
    var t := Release(s, body);
    var c := MakeCommand(k, PlainRequest(body, false));
    var head := AsSeq(s.desk.handle.current);
    assert Line(t.desk) == head + (WithoutLights(s.desk.handle.pending) + [c]);
    if head != [] {
      assert head[0] == Line(s.desk)[0] && head[0] in Line(s.desk);
      assert Matches(head[0], s.desk.ledger.queued);
    }
    FreshGuard(head, s.desk.handle.pending, c, k);
    NotHandedYet(s, k);
  }

  lemma ReleaseStarts(s: State, body: seq<byte>)
    requires WireInv(s) && s.desk.pc.Idle?
    ensures Released(Release(s, body), |s.desk.ledger.queued|)
  {
    WireStep(s, DropLights);
    WireStep(Apply(s, DropLights), Queue(PlainRequest(body, false), false));
    ReleaseRulesOut(s, body);
  }

  lemma {:induction false} ReleasedRun(s: State, after: seq<Step>, k: nat)
    requires Released(s, k)
    requires forall i :: 0 <= i < |after| ==> !QueuesLights(after[i])
    ensures Released(Exec(s, after), k)
  {
    if after != [] {
      ReleasedRun(s, after[..|after| - 1], k);
      ReleasedStep(Exec(s, after[..|after| - 1]), after[|after| - 1], k);
    }
  }

  /**
   After dropping the queued lights and queueing one plain command, in any run
   that queues no more lights: no lights job follows a hand-over of that command,
   even if the lights command in flight times out and is retried.
   */
  lemma {:induction false} NoLightsAfterRelease(before: seq<Step>, body: seq<byte>, after: seq<Step>)
    requires Exec(OPENED, before).desk.pc.Idle?
    requires forall i :: 0 <= i < |after| ==> !QueuesLights(after[i])
    ensures var s := Exec(OPENED, before);
      var t := Exec(Release(s, body), after);
      NoLightsAfter(t.link.handed, t.desk.ledger.queued, |s.desk.ledger.queued|)
  {
    WireAlways(before);
    ReleaseStarts(Exec(OPENED, before), body);
    ReleasedRun(Release(Exec(OPENED, before), body), after, |Exec(OPENED, before).desk.ledger.queued|);
  }
}
