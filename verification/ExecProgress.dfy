/** What callers and hosts of the exec hub do get, over every run: which submissions are
    queued, what a host is handed, and how a call ends. */
module ExecProgress {
  import opened RateLimits
  import opened ExecHubs
  import opened ExecRuns
  import opened ExecTheorems

  lemma {:induction false} RunSnoc(s: System, steps: seq<Step>, step: Step)
    ensures s.Run(steps + [step]) == s.Run(steps).Do(step)
    decreases |steps|
  {
    if steps == [] {
      assert steps + [step] == [step] && [step][1..] == [];
    } else {
      assert (steps + [step])[0] == steps[0] && (steps + [step])[1..] == steps[1..] + [step];
      RunSnoc(s.Do(steps[0]), steps[1..], step);
    }
  }

  function Reached(keep: real, now: real, steps: seq<Step>): System {
    Start(keep, now).Run(steps)
  }

  lemma {:induction false} ReachedInv(keep: real, now: real, steps: seq<Step>)
    ensures Reached(keep, now, steps).Inv()
  {
    hide System.Inv;
    StartInv(keep, now);
    RunKeeps(Start(keep, now), steps);
  }

  // ----------------------------------------------------------- what is queued

  /** The commands of a machine whose callers still wait. */
  function WaitedFor(s: System, m: Machine): set<Id> {
    set id | id in s.callers && !s.callers[id].phase.Done? && s.callers[id].sub.machine == m
  }

  /** Those whose callers left while a host may be running them. */
  function LeftRunning(s: System, m: Machine): set<Id> {
    set id | id in s.hub.held && s.hub.held[id].machine == m && s.now < s.hub.held[id].until
  }

  /** After any run a submission is queued exactly when its user's starts of the last minute
      are fewer than the limit and its machine has a slot free. */
  lemma {:induction false} QueuedIff(keep: real, now: real, steps: seq<Step>, sub: Submission)
    ensures var s := Reached(keep, now, steps);
            s.next in s.Do(Submit(sub)).callers <==>
            && InLastMinute(StartTimes(Start(keep, now), steps, sub.user), s.now) < MAX_EXECS_PER_MIN_PER_USER
            && |WaitedFor(s, sub.machine)| + |LeftRunning(s, sub.machine)| < MAX_RUNNING_PER_MACHINE
  {
    hide System.Run, InLastMinute, StartTimes, Pruned, Awoken, QueueOf, StartsOf;
    var s := Reached(keep, now, steps);
    ReachedInv(keep, now, steps);
    StartsAreLimited(keep, now, steps, sub);
    assert s.next !in s.callers by {
      NextIsNew(s);
    }
    LiveIsWaitedFor(s, sub.machine);
    assert s.hub.Sweep(s.now).HeldOn(sub.machine) == LeftRunning(s, sub.machine);
    assert s.hub.Sweep(s.now).Live(sub.machine) == s.hub.Live(sub.machine);
  }

  lemma {:induction false} NextIsNew(s: System)
    requires s.Inv()
    ensures s.next !in s.callers
  {
  }

  lemma {:induction false} LiveIsWaitedFor(s: System, m: Machine)
    requires s.Inv()
    ensures s.hub.Live(m) == WaitedFor(s, m)
  {
    hide ExecsOk, QueuesOk, HandoutsOk, OrderOk, EndsOk, HeldOk, ReportsOk, DeliveredOk, SlotsOk, WaitsOk, NoLostWakeup;
    forall id
      ensures id in s.hub.Live(m) <==> id in WaitedFor(s, m)
    {
      assert id in s.hub.execs <==> Waiting(s.callers, id);
    }
  }

  // ---------------------------------------------------------- what is handed out

  /** A host that is current and asks is handed the oldest command of its machine that none
      was handed, if there is one. */
  lemma {:induction false} OldestIsHanded(s: System, w: WaitId, id: Id)
    requires s.Inv() && w in s.waits && s.waits[w].phase.Asking?
    requires Untaken(s.hub.execs, s.waits[w].machine, id)
    requires forall x :: Untaken(s.hub.execs, s.waits[w].machine, x) ==> id <= x
    ensures var t := s.Do(Answer(w, true));
            w in t.waits && t.waits[w].phase == Over(Got(id)) && HandedIn(t, id)
  {
    hide ExecsOk, HandoutsOk, OrderOk, EndsOk, HeldOk, ReportsOk, DeliveredOk, SlotsOk, CallersOk, WaitsOk, NoLostWakeup;
    var m := s.waits[w].machine;
    TakesOldest(s.hub, s.now, m);
    assert QueueOk(QueueOf(s.hub.pending, m), s.hub.execs, m);
    assert id in QueueOf(s.hub.pending, m);
    var q := s.hub.pending[m];
    assert q[0] == id;
    var t := s.Do(Answer(w, true));
    assert t.handouts[|s.handouts|] == Handout(id, w);
  }

  /** A wait that starts, or is woken, while its machine has a command queued asks at once. */
  lemma {:induction false} QueuedIsAskedFor(s: System, w: WaitId, id: Id, m: Machine, sec: real)
    requires s.Inv() && Untaken(s.hub.execs, m, id)
    ensures w !in s.waits ==> w in s.Do(StartWait(w, m, sec)).waits && s.Do(StartWait(w, m, sec)).waits[w].phase.Asking?
    ensures w in s.hub.waiters && s.hub.waiters[w].machine == m && s.hub.waiters[w].future.Woken? ==>
              w in s.Do(Resume(w)).waits && s.Do(Resume(w)).waits[w].phase.Asking?
    ensures w in s.hub.waiters && s.hub.waiters[w].machine == m ==> !s.hub.waiters[w].future.Unset?
  {
    hide ExecsOk, HandoutsOk, OrderOk, EndsOk, HeldOk, ReportsOk, DeliveredOk, SlotsOk, CallersOk;
    assert QueueOk(QueueOf(s.hub.pending, m), s.hub.execs, m);
    assert id in QueueOf(s.hub.pending, m);
  }

  /** A command that is queued wakes every sleeping wait of its machine. */
  lemma {:induction false} SubmissionWakes(s: System, sub: Submission, w: WaitId)
    requires s.Inv() && s.next in s.Do(Submit(sub)).callers
    requires w in s.hub.waiters && s.hub.waiters[w] == Waiter(sub.machine, Unset)
    ensures w in s.Do(Submit(sub)).hub.waiters && s.Do(Submit(sub)).hub.waiters[w].future.Woken?
    ensures Untaken(s.Do(Submit(sub)).hub.execs, sub.machine, s.next)
  {
    hide Pruned, QueueOf, StartsOf, Kept;
    NextIsNew(s);
  }

  // ------------------------------------------------------------- how a call ends

  /** The command's machine was revoked while the command was known. */
  ghost predicate RevokedIn(start: System, steps: seq<Step>, id: Id) {
    exists i :: 0 <= i < |steps| && RevokedAt(start.Run(steps[..i]), steps[i], id)
  }

  predicate RevokedAt(s: System, step: Step, id: Id) {
    id in s.callers && step == Revoke(s.callers[id].sub.machine)
  }

  lemma {:induction false} RevokedSnoc(start: System, steps: seq<Step>, step: Step, id: Id)
    ensures RevokedIn(start, steps + [step], id) <==> RevokedIn(start, steps, id) || RevokedAt(start.Run(steps), step, id)
  {
    hide RevokedAt, System.Run;
    var more := steps + [step];
    assert more[..|steps|] == steps && more[|steps|] == step;
    assert forall i :: 0 <= i < |steps| ==> more[..i] == steps[..i] && more[i] == steps[i];
    if i :| 0 <= i < |steps| && RevokedAt(start.Run(steps[..i]), steps[i], id) {
      assert RevokedAt(start.Run(more[..i]), more[i], id);
    }
    if RevokedAt(start.Run(steps), step, id) {
      assert RevokedAt(start.Run(more[..|steps|]), more[|steps|], id);
    }
    if i :| 0 <= i < |more| && RevokedAt(start.Run(more[..i]), more[i], id) {
      if i < |steps| {
        assert RevokedAt(start.Run(steps[..i]), steps[i], id);
      }
    }
  }

  /** What any step may do to a command that is still waited for. */
  predicate ExecMoved(e: Exec, f: Exec, revoked: bool) {
    && (e.taken ==> f.taken)
    && (revoked ==> f.taken && !f.outcome.Pending?)
    && (f.outcome.Revoked? ==> e.outcome.Revoked? || revoked)
    && (!e.outcome.Pending? ==> f.outcome == e.outcome)
  }

  ghost predicate ExecsMoved(s: System, t: System, id: Id, revoked: bool) {
    id in t.hub.execs && id in s.hub.execs ==> ExecMoved(s.hub.execs[id], t.hub.execs[id], revoked)
  }

  lemma {:induction false} WaitsMove(s: System, step: Step, id: Id)
    requires OfWaits(step)
    ensures ExecsMoved(s, s.Do(step), id, false) && s.Do(step).hub.execs.Keys == s.hub.execs.Keys
  {
    match step
    case Answer(w, current) =>
      if w in s.waits && s.waits[w].phase.Asking? {
        AnswerMoves(s, w, current, id);
      }
    case _ =>
  }

  lemma {:induction false} TakeMoves(h: Hub, now: real, m: Machine, id: Id)
    ensures var g := h.Take(now, m).0;
            && g.execs.Keys == h.execs.Keys
            && (id in h.execs ==> ExecMoved(h.execs[id], g.execs[id], false))
  {
    hide WithQueue, QueueOf;
    var q := QueueOf(h.pending, m);
    var k := h.Skipped(q);
    h.SkippedTakeable(q);
    if k < |q| {
      assert h.Take(now, m).0.execs.Keys == h.execs.Keys + {q[k]};
    }
  }

  lemma {:induction false} AnswerMoves(s: System, w: WaitId, current: bool, id: Id)
    requires w in s.waits && s.waits[w].phase.Asking?
    ensures ExecsMoved(s, s.Answered(w, current), id, false) && s.Answered(w, current).hub.execs.Keys == s.hub.execs.Keys
  {
    hide Hub.Take;
    TakeMoves(s.hub, s.now, s.waits[w].machine, id);
  }

  lemma {:induction false} EndMoves(s: System, x: Id, end: End, id: Id)
    requires x in s.callers && x in s.hub.execs
    ensures ExecsMoved(s, s.Ends(x, end), id, false) && s.Ends(x, end).hub.execs.Keys <= s.hub.execs.Keys
  {
    hide WithQueue, Without;
  }

  lemma {:induction false} CallersMove(s: System, step: Step, id: Id)
    requires step.Wake? || step.Leave? || step.Report?
    ensures ExecsMoved(s, s.Do(step), id, false) && s.Do(step).hub.execs.Keys <= s.hub.execs.Keys
  {
    hide System.Ends, Pruned, Kept;
    match step
    case Wake(x) =>
      if x in s.callers && x in s.hub.execs {
        var e := s.hub.execs[x];
        EndMoves(s, x, Lost(false), id);
        EndMoves(s, x, Lost(true), id);
        EndMoves(s, x, RevokedEnd(e.handed.HandedAt?), id);
        if e.outcome.Reported? {
          EndMoves(s, x, Result(e.outcome.result), id);
        }
      }
    case Leave(x) => if x in s.callers && x in s.hub.execs { EndMoves(s, x, Left, id); }
    case _ =>
  }

  lemma {:induction false} SubmitMoves(s: System, sub: Submission, id: Id)
    requires s.next !in s.hub.execs
    ensures ExecsMoved(s, s.Do(Submit(sub)), id, false)
    ensures id in s.Do(Submit(sub)).hub.execs && id !in s.hub.execs ==>
              id == s.next && s.Do(Submit(sub)).hub.execs[id] == Exec(sub, false, Pending, NotYet)
  {
    hide Pruned, QueueOf, StartsOf, Kept, Awoken;
  }

  lemma {:induction false} RevokeMoves(s: System, machine: Machine, id: Id)
    ensures s.Do(Revoke(machine)).hub.execs.Keys == s.hub.execs.Keys
    ensures id in s.hub.execs ==>
              ExecMoved(s.hub.execs[id], s.Do(Revoke(machine)).hub.execs[id], s.hub.execs[id].sub.machine == machine)
  {
  }

  /** A waited-for command is over if its machine was revoked, and as revoked only then. */
  ghost predicate OutcomeTold(s: System, id: Id, revoked: bool) {
    id in s.hub.execs ==>
      && (revoked ==> s.hub.execs[id].taken && !s.hub.execs[id].outcome.Pending?)
      && (s.hub.execs[id].outcome.Revoked? ==> revoked)
  }

  lemma {:induction false} OutcomeStep(s: System, step: Step, id: Id, revoked: bool)
    requires s.Inv() && OutcomeTold(s, id, revoked) && (id !in s.callers ==> !revoked)
    ensures OutcomeTold(s.Do(step), id, revoked || RevokedAt(s, step, id))
    ensures id !in s.Do(step).callers ==> !(revoked || RevokedAt(s, step, id))
  {
    hide System.Inv, System.Do;
    KnownIds(s);
    NextIsNew(s);
    if id in s.callers {
      CallersEffect(s, step, id);
    }
    match step {
      case Submit(sub) => SubmitMoves(s, sub, id);
      case Revoke(machine) => RevokeMoves(s, machine, id);
      case Wake(_) => CallersMove(s, step, id);
      case Leave(_) => CallersMove(s, step, id);
      case Report(_, _, _) => CallersMove(s, step, id);
      case _ => WaitsMove(s, step, id);
    }
  }

  lemma {:induction false} OutcomeInRun(keep: real, now: real, steps: seq<Step>, id: Id)
    ensures var s, revoked := Reached(keep, now, steps), RevokedIn(Start(keep, now), steps, id);
            OutcomeTold(s, id, revoked) && (id !in s.callers ==> !revoked)
    decreases |steps|
  {
    hide System.Inv, System.Do, OutcomeTold, RevokedIn, RevokedAt;
    if steps == [] {
      NothingTold(keep, now, id);
    } else {
      var init, last := steps[..|steps| - 1], steps[|steps| - 1];
      assert steps == init + [last];
      OutcomeInRun(keep, now, init, id);
      ReachedInv(keep, now, init);
      RunSnoc(Start(keep, now), init, last);
      RevokedSnoc(Start(keep, now), init, last, id);
      OutcomeStep(Reached(keep, now, init), last, id, RevokedIn(Start(keep, now), init, id));
    }
  }

  lemma {:induction false} NothingTold(keep: real, now: real, id: Id)
    ensures OutcomeTold(Start(keep, now), id, RevokedIn(Start(keep, now), [], id)) && !RevokedIn(Start(keep, now), [], id)
  {
  }

  lemma {:induction false} WaitingKnown(s: System, id: Id)
    requires s.Inv() && id in s.callers && !s.callers[id].phase.Done?
    ensures id in s.hub.execs && s.hub.execs[id].sub == s.callers[id].sub
    ensures ExecOk(s.hub.execs[id], HandedIn(s, id))
    ensures s.hub.execs[id].outcome.Reported? <==> id in s.firsts
    ensures id in s.firsts ==> s.hub.execs[id].outcome.result == s.firsts[id]
    ensures s.callers[id].phase.AwaitOutcome? ==> s.hub.execs[id].taken
    ensures id !in s.hub.delivered || id in s.firsts
  {
    assert Waiting(s.callers, id);
    assert id in s.handed <==> HandedIn(s, id) by {
      if i :| 0 <= i < |s.handouts| && s.handouts[i].id == id {
        assert HandoutOk(s.handouts[i], s.handed, s.callers, s.waits);
      }
    }
  }

  /** How a call stands once its caller has looked twice, at once: first whether the command
      was taken, then how it ended. */
  function LookedTwice(s: System, id: Id): System {
    s.Do(Wake(id)).Do(Wake(id))
  }

  lemma {:induction false} LooksAtTaken(s: System, id: Id)
    requires id in s.callers && id in s.hub.execs && s.hub.execs[id].taken && !s.hub.execs[id].outcome.Pending?
    requires !s.callers[id].phase.Done?
    ensures var t := LookedTwice(s, id);
            var e := s.hub.execs[id];
            && id in t.callers && t.callers[id].phase ==
               Done(if e.outcome.Reported? then Result(e.outcome.result) else RevokedEnd(e.handed.HandedAt?))
            && (s.callers[id].phase.AwaitOutcome? ==> t.callers[id].phase == s.Do(Wake(id)).callers[id].phase)
  {
    hide Hub.Release;
    assert id in s.Do(Wake(id)).callers;
  }

  /** A report by the machine that was handed the command, the first and with no revocation
      before it, is accepted, and the caller gets just that result; a report by another
      machine changes nothing for the caller. */
  lemma {:induction false} ReportReachesCaller(keep: real, now: real, steps: seq<Step>, id: Id, m: Machine, r: ExecResult)
    requires var s := Reached(keep, now, steps);
             && id in s.callers && !s.callers[id].phase.Done? && HandedIn(s, id) && id !in s.firsts
             && !RevokedIn(Start(keep, now), steps, id)
    ensures var s := Reached(keep, now, steps);
            var t := LookedTwice(s.Do(Report(m, id, r)), id);
            && id in t.callers && id in s.Do(Report(m, id, r)).Do(Wake(id)).callers && id in LookedTwice(s, id).callers
            && (m == MachineOf(s, id) ==>
                  && IsAccepted(s, Report(m, id, r), id) && t.callers[id].phase == Done(Result(r))
                  && (s.callers[id].phase.AwaitOutcome? ==>
                        s.Do(Report(m, id, r)).Do(Wake(id)).callers[id].phase == Done(Result(r))))
            && (m != MachineOf(s, id) ==>
                  && !IsAccepted(s, Report(m, id, r), id)
                  && s.Do(Report(m, id, r)).callers[id] == s.callers[id] && t.callers[id] == LookedTwice(s, id).callers[id])
  {
    hide System.Inv, System.Run, RevokedIn;
    var s := Reached(keep, now, steps);
    ReachedInv(keep, now, steps);
    OutcomeInRun(keep, now, steps, id);
    WaitingKnown(s, id);
    ReportedTo(s, id, m, r);
    if m == MachineOf(s, id) {
      LooksAtTaken(s.Do(Report(m, id, r)), id);
    }
  }

  lemma {:induction false} ReportedTo(s: System, id: Id, m: Machine, r: ExecResult)
    requires id in s.callers && id in s.hub.execs && s.hub.execs[id].sub == s.callers[id].sub
    requires s.hub.execs[id].outcome.Pending? && s.hub.execs[id].handed.HandedAt? && s.hub.execs[id].taken
    requires id !in s.hub.delivered
    ensures var t := s.Do(Report(m, id, r));
            && id in t.callers && t.callers[id] == s.callers[id] && id in t.hub.execs
            && (m == MachineOf(s, id) ==>
                  IsAccepted(s, Report(m, id, r), id) && t.hub.execs[id] == s.hub.execs[id].(outcome := Reported(r)))
            && (m != MachineOf(s, id) ==>
                  !IsAccepted(s, Report(m, id, r), id) && t == s.(hub := s.hub.Sweep(s.now)))
  {
    hide Pruned;
  }

  /** Every caller of a revoked machine that has no result ends as revoked, told truthfully
      whether its command was handed out; one that has a result gets it. */
  lemma {:induction false} RevokedCallEnds(keep: real, now: real, steps: seq<Step>, id: Id)
    requires var s := Reached(keep, now, steps); id in s.callers && !s.callers[id].phase.Done?
    ensures var s := Reached(keep, now, steps);
            var revoked := s.Do(Revoke(MachineOf(s, id)));
            var t := LookedTwice(revoked, id);
            && id in t.callers && id in revoked.Do(Wake(id)).callers
            && t.callers[id].phase == Done(if id in s.firsts then Result(s.firsts[id]) else RevokedEnd(HandedIn(s, id)))
            && (s.callers[id].phase.AwaitOutcome? ==> revoked.Do(Wake(id)).callers[id].phase == t.callers[id].phase)
  {
    hide System.Inv, System.Run;
    var s := Reached(keep, now, steps);
    ReachedInv(keep, now, steps);
    WaitingKnown(s, id);
    RevokeSets(s, id);
    LooksAtTaken(s.Do(Revoke(MachineOf(s, id))), id);
  }

  lemma {:induction false} RevokeSets(s: System, id: Id)
    requires id in s.callers && id in s.hub.execs && s.hub.execs[id].sub == s.callers[id].sub
    ensures var t := s.Do(Revoke(MachineOf(s, id)));
            && t.callers == s.callers && id in t.hub.execs
            && t.hub.execs[id] == s.hub.execs[id].(taken := true,
                 outcome := if s.hub.execs[id].outcome.Pending? then Revoked else s.hub.execs[id].outcome)
  {
  }

  /** A caller whose command has neither a result nor a revocation gives up exactly at its
      deadline: not taken, when no host was handed the command in time, and taken, when the
      host that was did not report in the command's own time and the grace after it. */
  lemma {:induction false} CallTimesOut(keep: real, now: real, steps: seq<Step>, id: Id)
    requires var s := Reached(keep, now, steps);
             id in s.callers && !s.callers[id].phase.Done? && id !in s.firsts && !RevokedIn(Start(keep, now), steps, id)
    ensures var s := Reached(keep, now, steps);
            var c, t := s.callers[id], s.Do(Wake(id));
            && id in t.callers
            && (c.phase.AwaitTaken? && !HandedIn(s, id) ==>
                  t.callers[id].phase == if c.phase.deadline <= s.now then Done(Lost(false)) else c.phase)
            && (c.phase.AwaitTaken? && HandedIn(s, id) ==>
                  t.callers[id].phase == AwaitOutcome(s.now + c.sub.timeoutSec + RESULT_GRACE_SEC))
            && (c.phase.AwaitOutcome? ==>
                  t.callers[id].phase == if c.phase.deadline <= s.now then Done(Lost(true)) else c.phase)
  {
    hide System.Inv, System.Run, RevokedIn, Hub.Release;
    var s := Reached(keep, now, steps);
    ReachedInv(keep, now, steps);
    OutcomeInRun(keep, now, steps, id);
    WaitingKnown(s, id);
  }

  // -------------------------------------------------------- slots of callers that left

  /** A caller that leaves keeps its command's slot exactly when a host was handed the
      command, has not reported it, and is not yet due; and never in a revoked machine. */
  lemma {:induction false} LeftSlotIff(keep: real, now: real, steps: seq<Step>, id: Id)
    requires var s := Reached(keep, now, steps); id in s.callers && !s.callers[id].phase.Done?
    ensures var s := Reached(keep, now, steps);
            && id in s.hub.execs && id in s.Do(Leave(id)).callers && s.Do(Leave(id)).callers[id].phase == Done(Left)
            && (RevokedIn(Start(keep, now), steps, id) ==> id !in LeftRunning(s.Do(Leave(id)), MachineOf(s, id)))
            && (!RevokedIn(Start(keep, now), steps, id) ==>
                  (id in LeftRunning(s.Do(Leave(id)), MachineOf(s, id)) <==>
                   HandedIn(s, id) && id !in s.firsts && s.hub.execs[id].handed.HandedAt? && s.now < s.hub.execs[id].Due()))
  {
    hide System.Inv, System.Run, RevokedIn, WithQueue, Without;
    var s := Reached(keep, now, steps);
    ReachedInv(keep, now, steps);
    OutcomeInRun(keep, now, steps, id);
    WaitingKnown(s, id);
    KnownIds(s);
  }

  /** The report that ends such a slot is accepted, and frees it. */
  lemma {:induction false} LateReportFreesSlot(s: System, id: Id, m: Machine, r: ExecResult)
    requires s.Inv() && id in LeftRunning(s, m)
    ensures IsAccepted(s, Report(m, id, r), id) && id !in LeftRunning(s.Do(Report(m, id, r)), m)
    ensures s.Do(Report(m, id, r)).callers == s.callers
  {
    hide Pruned, ExecsOk, QueuesOk, HandoutsOk, OrderOk, EndsOk, SlotsOk, WaitsOk, NoLostWakeup;
    KnownIds(s);
    Unreported(s, id);
  }
}
