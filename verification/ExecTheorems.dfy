/** What holds of the exec hub over every run. */
module ExecTheorems {
  import opened RateLimits
  import opened ExecHubs
  import opened ExecRuns

  // ------------------------------------------------------------- handouts

  /** Each command is handed to at most one wait and each wait to at most one command; a
      machine's commands go out in the order they were queued, none overtaking an older
      command that a host could still take. */
  lemma {:induction false} HandedOnceInOrder(keep: real, now: real, steps: seq<Step>)
    ensures var s := Start(keep, now).Run(steps);
            && (forall i, j :: 0 <= i < j < |s.handouts| ==>
                  s.handouts[i].id != s.handouts[j].id && s.handouts[i].wait != s.handouts[j].wait)
            && (forall i :: 0 <= i < |s.handouts| ==> s.handouts[i].id in s.callers && s.handouts[i].wait in s.waits)
            && (forall i, j :: 0 <= i < j < |s.handouts| && MachineOf(s, s.handouts[i].id) == MachineOf(s, s.handouts[j].id)
                  ==> s.handouts[i].id < s.handouts[j].id)
            && (forall i, id :: 0 <= i < |s.handouts| && Untaken(s.hub.execs, MachineOf(s, s.handouts[i].id), id)
                  ==> s.handouts[i].id < id)
  {
    StartInv(keep, now);
    RunKeeps(Start(keep, now), steps);
    var s := Start(keep, now).Run(steps);
    forall i | 0 <= i < |s.handouts|
      ensures HandoutOk(s.handouts[i], s.handed, s.callers, s.waits)
      ensures MachineOf(s, s.handouts[i].id) == s.waits[s.handouts[i].wait].machine
    {
    }
  }

  function MachineOf(s: System, id: Id): Machine {
    if id in s.callers then s.callers[id].sub.machine else 0
  }

  ghost predicate HandedIn(s: System, id: Id) {
    exists i :: 0 <= i < |s.handouts| && s.handouts[i].id == id
  }

  ghost predicate HandedOnce(s: System, id: Id) {
    exists i :: 0 <= i < |s.handouts| && s.handouts[i].id == id
      && forall j :: 0 <= j < |s.handouts| && s.handouts[j].id == id ==> j == i
  }

  predicate OfWaits(step: Step) {
    step.Tick? || step.StartWait? || step.Answer? || step.Resume? || step.DropWait?
  }

  predicate SameBooks(s: System, t: System) {
    && t.callers == s.callers && t.firsts == s.firsts
    && t.hub.held == s.hub.held && t.hub.delivered == s.hub.delivered && t.hub.starts == s.hub.starts
  }

  lemma {:induction false} ClaimFrame(s: System, w: WaitId, last: bool)
    requires w in s.waits
    ensures SameBooks(s, s.NoneFound(w, last)) && SameBooks(s, s.Claim(w, last))
  {
  }

  lemma {:induction false} AnsweredFrame(s: System, w: WaitId, current: bool)
    requires w in s.waits && s.waits[w].phase.Asking?
    ensures SameBooks(s, s.Answered(w, current))
  {
    hide System.NoneFound;
    var (h, found) := s.hub.Take(s.now, s.waits[w].machine);
    ClaimFrame(s.(hub := h), w, s.waits[w].phase.last);
  }

  lemma {:induction false} ResumedFrame(s: System, w: WaitId)
    requires w in s.waits && w in s.hub.waiters
    ensures SameBooks(s, s.Resumed(w))
  {
    hide System.Claim;
    var t := s.(hub := s.hub.(waiters := s.hub.waiters - {w}));
    ClaimFrame(t, w, true);
    ClaimFrame(t, w, false);
  }

  /** The clock and the waits touch no caller, mark or result. */
  lemma {:induction false} WaitsFrame(s: System, step: Step)
    requires OfWaits(step)
    ensures SameBooks(s, s.Do(step))
  {
    hide System.Claim, System.Answered, System.Resumed;
    match step
    case Tick(_) =>
    case StartWait(w, machine, sec) =>
      if w !in s.waits {
        ClaimFrame(s.(waits := s.waits[w := Wait(machine, s.now + sec, Parked)]), w, false);
      }
    case Answer(w, current) => if w in s.waits && s.waits[w].phase.Asking? { AnsweredFrame(s, w, current); }
    case Resume(w) => if w in s.waits && w in s.hub.waiters { ResumedFrame(s, w); }
    case DropWait(_) =>
  }

  /** Queueing only sweeps the marks and leaves the callers there were alone. */
  lemma {:induction false} SubmittedEffect(s: System, sub: Submission)
    ensures var t := s.Submitted(sub);
            && t.hub.held == Kept(s.hub.held, s.now) && t.hub.delivered == Kept(s.hub.delivered, s.now)
            && t.firsts == s.firsts && s.callers.Keys <= t.callers.Keys
            && (forall id :: id in s.callers && id != s.next ==> t.callers[id] == s.callers[id])
  {
    hide Pruned, Awoken, QueueOf, StartsOf;
  }

  /** The books change only for command `id`, whose slot may be added. */
  predicate OnlyOf(id: Id, s: System, t: System) {
    && t.hub.delivered == s.hub.delivered && t.firsts == s.firsts && t.callers.Keys == s.callers.Keys
    && (forall x :: x in s.hub.held && x != id ==> x in t.hub.held && t.hub.held[x] == s.hub.held[x])
    && (forall x :: x in s.callers && x != id ==> t.callers[x] == s.callers[x])
    && (id in s.callers ==> t.callers[id].sub == s.callers[id].sub)
  }

  lemma {:induction false} EndsEffect(s: System, id: Id, end: End)
    requires id in s.callers && id in s.hub.execs
    ensures OnlyOf(id, s, s.Ends(id, end))
  {
  }

  lemma {:induction false} WokenEffect(s: System, id: Id)
    requires id in s.callers && id in s.hub.execs
    ensures OnlyOf(id, s, s.Woken(id))
  {
    hide System.Ends, OnlyOf;
    var e := s.hub.execs[id];
    EndsEffect(s, id, Lost(false));
    EndsEffect(s, id, Lost(true));
    EndsEffect(s, id, RevokedEnd(e.handed.HandedAt?));
    if e.outcome.Reported? {
      EndsEffect(s, id, Result(e.outcome.result));
    }
    var phase := AwaitOutcome(s.now + e.sub.timeoutSec + RESULT_GRACE_SEC);
    MovedEffect(s, id, phase);
    assert OnlyOf(id, s, s) by { MovedEffect(s, id, s.callers[id].phase); SamePhase(s, id); }
  }

  lemma {:induction false} MovedEffect(s: System, id: Id, phase: Phase)
    requires id in s.callers
    ensures OnlyOf(id, s, s.(callers := s.callers[id := s.callers[id].(phase := phase)]))
  {
  }

  lemma {:induction false} SamePhase(s: System, id: Id)
    requires id in s.callers
    ensures s == s.(callers := s.callers[id := s.callers[id].(phase := s.callers[id].phase)])
  {
    assert s.callers == s.callers[id := s.callers[id]];
  }

  predicate MarkedFor(marks: map<Id, Mark>, id: Id, now: real) {
    id in marks && now < marks[id].until
  }

  /** A report changes at most the marks and the result of the command it names. */
  lemma {:induction false} ReportingEffect(s: System, machine: Machine, id: Id, result: ExecResult)
    ensures var t := s.Reporting(machine, id, result);
            && t.callers == s.callers
            && (forall x :: x != id ==> (x in t.hub.held <==> x in Kept(s.hub.held, s.now)))
            && (forall x :: x != id ==> (x in t.hub.delivered <==> x in Kept(s.hub.delivered, s.now)))
            && (forall x :: x in t.hub.held ==> x in s.hub.held && t.hub.held[x] == s.hub.held[x])
            && (forall x :: x in t.hub.delivered && x != id ==> t.hub.delivered[x] == s.hub.delivered[x])
            && (MarkedFor(s.hub.held, id, s.now) && s.hub.held[id].machine != machine && id !in s.hub.execs ==>
                  id in t.hub.held)
            && (MarkedFor(s.hub.delivered, id, s.now) && s.hub.delivered[id].machine == machine ==>
                  id in t.hub.delivered && t.hub.delivered[id] == s.hub.delivered[id])
  {
  }

  /** Once a caller is told how its command ended, that never changes. */
  lemma {:induction false} DonePersists(s: System, step: Step, id: Id)
    requires s.Inv() && id in s.callers && s.callers[id].phase.Done?
    ensures id in s.Do(step).callers && s.Do(step).callers[id] == s.callers[id]
  {
    DoneKnown(s, id);
    CallersEffect(s, step, id);
  }

  lemma {:induction false} DoneKnown(s: System, id: Id)
    requires s.Inv() && id in s.callers
    ensures id != s.next && (s.callers[id].phase.Done? ==> id !in s.hub.execs)
  {
    assert s.callers[id].phase.Done? ==> !Waiting(s.callers, id);
  }

  /** A step changes a caller only by ending it or moving it on, and never its command. */
  lemma {:induction false} CallersEffect(s: System, step: Step, id: Id)
    requires id in s.callers && id != s.next
    ensures id in s.Do(step).callers && s.Do(step).callers[id].sub == s.callers[id].sub
    ensures id !in s.hub.execs ==> s.Do(step).callers[id] == s.callers[id]
  {
    hide System.Claim, System.Answered, System.Resumed, System.Woken, System.Submitted, System.Reporting, System.Ends;
    match step
    case Submit(sub) => SubmittedEffect(s, sub);
    case Wake(x) => if x in s.callers && x in s.hub.execs { WokenEffect(s, x); }
    case Leave(x) => if x in s.callers && x in s.hub.execs { EndsEffect(s, x, Left); }
    case Report(machine, x, result) => ReportingEffect(s, machine, x, result);
    case Revoke(machine) =>
    case _ => WaitsFrame(s, step);
  }

  lemma {:induction false} DonePersistsInRun(s: System, steps: seq<Step>, id: Id)
    requires s.Inv() && id in s.callers && s.callers[id].phase.Done?
    ensures id in s.Run(steps).callers && s.Run(steps).callers[id] == s.callers[id]
    decreases |steps|
  {
    hide System.Inv;
    if steps != [] {
      DonePersists(s, steps[0], id);
      StepKeeps(s, steps[0]);
      DonePersistsInRun(s.Do(steps[0]), steps[1..], id);
    }
  }

  /** What the error a caller got says of the command. */
  function SaysTaken(end: End): bool
    requires end.Lost? || end.RevokedEnd?
  {
    match end case Lost(taken) => taken case RevokedEnd(taken) => taken
  }

  lemma {:induction false} EndTellsHanded(s: System, id: Id)
    requires s.Inv() && id in s.callers && s.callers[id].phase.Done?
    ensures var end := s.callers[id].phase.end;
            end.Lost? || end.RevokedEnd? ==> (SaysTaken(end) <==> HandedIn(s, id))
    ensures HandedIn(s, id) ==> HandedOnce(s, id)
  {
    assert EndOk(s.callers[id].phase.end, id in s.handed, id in s.firsts, FirstOf(s.firsts, id));
    if HandedIn(s, id) {
      var i :| 0 <= i < |s.handouts| && s.handouts[i].id == id;
      assert HandoutOk(s.handouts[i], s.handed, s.callers, s.waits);
      forall j | 0 <= j < |s.handouts| && s.handouts[j].id == id
        ensures j == i
      {
      }
    }
  }

  /** The errors of `run` are truthful: told the command was not taken, no host was handed
      it or ever will be, whatever happens next; told it was, exactly one host was. */
  lemma {:induction false} ErrorsAreTruthful(keep: real, now: real, steps: seq<Step>, id: Id, more: seq<Step>)
    requires var s := Start(keep, now).Run(steps);
             && id in s.callers && s.callers[id].phase.Done?
             && (s.callers[id].phase.end.Lost? || s.callers[id].phase.end.RevokedEnd?)
    ensures var s := Start(keep, now).Run(steps);
            var end := s.callers[id].phase.end;
            && (!SaysTaken(end) ==> !HandedIn(s, id) && !HandedIn(s.Run(more), id))
            && (SaysTaken(end) ==> HandedOnce(s, id) && HandedOnce(s.Run(more), id))
  {
    hide System.Inv;
    StartInv(keep, now);
    RunKeeps(Start(keep, now), steps);
    var s := Start(keep, now).Run(steps);
    RunKeeps(s, more);
    DonePersistsInRun(s, more, id);
    EndTellsHanded(s, id);
    EndTellsHanded(s.Run(more), id);
  }

  // -------------------------------------------------------------- wakeups

  /** In every reachable state, a parked wait whose future is not done has nothing to
      take, though the check of the asking host suspends between looking and taking. */
  lemma {:induction false} NoWakeupIsLost(keep: real, now: real, steps: seq<Step>, w: WaitId, at: real)
    requires var s := Start(keep, now).Run(steps); w in s.hub.waiters && s.hub.waiters[w].future.Unset?
    ensures var s := Start(keep, now).Run(steps);
            s.hub.Take(at, s.hub.waiters[w].machine).1 == Nothing
  {
    StartInv(keep, now);
    RunKeeps(Start(keep, now), steps);
  }

  /** The step a wait takes next, and those that end or move it. */
  predicate OwnStep(step: Step, w: WaitId) {
    match step
    case Answer(x, _) => x == w
    case Resume(x) => x == w
    case DropWait(x) => x == w
    case _ => false
  }

  predicate NextStep(s: System, step: Step, w: WaitId)
    requires w in s.waits
  {
    if s.waits[w].phase.Parked? then step == Resume(w) else step.Answer? && step.wait == w
  }

  /** A wait is where it was, and its future, once done, as it was. */
  predicate Undisturbed(s: System, t: System, w: WaitId) {
    && (w in s.waits ==> w in t.waits && t.waits[w] == s.waits[w])
    && (w in s.hub.waiters ==> w in t.hub.waiters)
    && (w in s.hub.waiters && !s.hub.waiters[w].future.Unset? ==> t.hub.waiters[w] == s.hub.waiters[w])
  }

  lemma {:induction false} OtherClaim(s: System, x: WaitId, last: bool, w: WaitId)
    requires x in s.waits && x != w
    ensures Undisturbed(s, s.NoneFound(x, last), w) && Undisturbed(s, s.Claim(x, last), w)
  {
  }

  lemma {:induction false} OtherAnswered(s: System, x: WaitId, current: bool, w: WaitId)
    requires x in s.waits && s.waits[x].phase.Asking? && x != w
    ensures Undisturbed(s, s.Answered(x, current), w)
  {
    hide System.NoneFound, Hub.Skipped, QueueOf, WithQueue;
    var (h, found) := s.hub.Take(s.now, s.waits[x].machine);
    assert h.waiters == s.hub.waiters;
    OtherClaim(s.(hub := h), x, s.waits[x].phase.last, w);
  }

  lemma {:induction false} OtherResumed(s: System, x: WaitId, w: WaitId)
    requires x in s.waits && x in s.hub.waiters && x != w
    ensures Undisturbed(s, s.Resumed(x), w)
  {
    hide System.Claim;
    var t := s.(hub := s.hub.(waiters := s.hub.waiters - {x}));
    OtherClaim(t, x, true, w);
    OtherClaim(t, x, false, w);
  }

  /** The hub's own operations at most set a future that is not done. */
  lemma {:induction false} FuturesKept(s: System, step: Step, w: WaitId)
    requires step.Submit? || step.Wake? || step.Leave? || step.Report? || step.Revoke? || step.Tick?
    ensures Undisturbed(s, s.Do(step), w)
  {
    hide Pruned, QueueOf, StartsOf, Kept, WithQueue, Without, Closing, Elsewhere, Hub.Live, Hub.HeldOn;
  }

  lemma {:induction false} OthersKeepWait(s: System, step: Step, w: WaitId)
    requires w in s.waits && !OwnStep(step, w)
    ensures Undisturbed(s, s.Do(step), w)
  {
    hide System.Claim, System.Answered, System.Resumed, Undisturbed;
    match step
    case StartWait(x, machine, sec) =>
      if x !in s.waits {
        var t := s.(waits := s.waits[x := Wait(machine, s.now + sec, Parked)]);
        OtherClaim(t, x, false, w);
        assert Undisturbed(s, t.Claim(x, false), w) by { StartedFirst(s, t, t.Claim(x, false), w); }
      } else {
        NothingDone(s, w);
      }
    case Answer(x, current) => if x in s.waits && s.waits[x].phase.Asking? { OtherAnswered(s, x, current, w); } else { NothingDone(s, w); }
    case Resume(x) => if x in s.waits && x in s.hub.waiters { OtherResumed(s, x, w); } else { NothingDone(s, w); }
    case DropWait(x) => OtherDropped(s, x, w);
    case _ => FuturesKept(s, step, w);
  }

  lemma {:induction false} StartedFirst(s: System, t: System, u: System, w: WaitId)
    requires w in s.waits && t.hub == s.hub && w in t.waits && t.waits[w] == s.waits[w] && Undisturbed(t, u, w)
    ensures Undisturbed(s, u, w)
  {
  }

  lemma {:induction false} NothingDone(s: System, w: WaitId)
    ensures Undisturbed(s, s, w)
  {
  }

  lemma {:induction false} OtherDropped(s: System, x: WaitId, w: WaitId)
    requires x != w
    ensures Undisturbed(s, s.Do(DropWait(x)), w)
  {
  }

  lemma {:induction false} OthersKeepWaitInRun(s: System, steps: seq<Step>, w: WaitId)
    requires w in s.waits && forall i :: 0 <= i < |steps| ==> !OwnStep(steps[i], w)
    ensures Undisturbed(s, s.Run(steps), w)
    decreases |steps|
  {
    hide System.Do;
    if steps != [] {
      OthersKeepWait(s, steps[0], w);
      OthersKeepWaitInRun(s.Do(steps[0]), steps[1..], w);
    }
  }

  /** A revocation ends a wait of its machine that is not over exactly when the wait is
      parked and its future was not already woken for a command. Whatever others do before
      the wait's next step, that step ends it as revoked just then: a woken wait looks
      again, and one asking whether its host is current looks once it has its answer. */
  lemma {:induction false} RevocationEndsWait(s: System, w: WaitId, others: seq<Step>, next: Step)
    requires s.Inv() && w in s.waits && !s.waits[w].phase.Over?
    requires (forall i :: 0 <= i < |others| ==> !OwnStep(others[i], w)) && NextStep(s, next, w)
    ensures var t := s.Do(Revoke(s.waits[w].machine)).Run(others).Do(next);
            && w in t.waits
            && (t.waits[w].phase == Over(WaitRevoked) <==>
                  s.waits[w].phase.Parked? && !s.hub.waiters[w].future.Woken?)
  {
    hide ExecsOk, QueuesOk, HandoutsOk, OrderOk, EndsOk, HeldOk, ReportsOk, DeliveredOk, SlotsOk, CallersOk, NoLostWakeup;
    var closed := s.Do(Revoke(s.waits[w].machine));
    OthersKeepWaitInRun(closed, others, w);
    var t := closed.Run(others);
    if s.waits[w].phase.Parked? {
      assert closed.hub.waiters[w] == Awoken(s.hub.waiters, s.waits[w].machine, Closed)[w];
      assert t.hub.waiters[w] == closed.hub.waiters[w];
    }
  }

  /** Such waits exist. A command wakes one, and the machine is revoked before it runs. */
  lemma {:induction false} WokenWaitOutlivesRevocation(sub: Submission, keep: real)
    requires sub.machine == 1
    ensures var s := Start(keep, 0.0).Do(StartWait(0, 1, 25.0)).Do(Submit(sub));
            && s.Inv() && 0 in s.waits && 0 in s.hub.waiters
            && var t := s.Do(Revoke(1)).Do(Resume(0));
            0 in t.waits && t.waits[0].phase.Parked?
  {
    hide System.Inv;
    var s0 := Start(keep, 0.0);
    var s1 := s0.Do(StartWait(0, 1, 25.0));
    var s := s1.Do(Submit(sub));
    StartInv(keep, 0.0);
    StepKeeps(s0, StartWait(0, 1, 25.0));
    StepKeeps(s1, Submit(sub));
    assert s1.hub == EMPTY_HUB.(waiters := map[0 := Waiter(1, Unset)]);
    var swept := s1.hub.Sweep(0.0);
    assert swept.starts == map[] && swept.execs == map[] && swept.held == map[];
    assert swept.Live(1) == {} && swept.HeldOn(1) == {};
    assert s.hub.waiters == map[0 := Waiter(1, Woken)];
  }

  /** One finds a command queued and asks; the machine is revoked before the answer. */
  lemma {:induction false} AskingWaitOutlivesRevocation(sub: Submission, keep: real)
    requires sub.machine == 1
    ensures var s := Start(keep, 0.0).Do(Submit(sub)).Do(StartWait(0, 1, 25.0));
            && s.Inv() && 0 in s.waits && s.waits[0].phase.Asking?
            && var t := s.Do(Revoke(1)).Do(Answer(0, true));
            0 in t.waits && t.waits[0].phase.Parked?
  {
    hide System.Inv;
    var s0 := Start(keep, 0.0);
    var s1 := s0.Do(Submit(sub));
    StartInv(keep, 0.0);
    StepKeeps(s0, Submit(sub));
    StepKeeps(s1, StartWait(0, 1, 25.0));
    var swept := s0.hub.Sweep(0.0);
    assert swept.starts == map[] && swept.execs == map[] && swept.held == map[];
    assert swept.Live(1) == {} && swept.HeldOn(1) == {};
    assert QueueOf(s0.hub.pending, 1) + [0] == [0];
    assert s1.hub.pending == map[1 := [0]] && s1.hub.waiters == map[];
  }

  // ---------------------------------------------------------------- slots

  /** Live and held commands of a machine are different commands and never pass its limit. */
  lemma {:induction false} SlotsAreBounded(keep: real, now: real, steps: seq<Step>, m: Machine)
    ensures var h := Start(keep, now).Run(steps).hub;
            h.Live(m) !! h.HeldOn(m) && |h.Live(m)| + |h.HeldOn(m)| <= MAX_RUNNING_PER_MACHINE
  {
    hide System.Inv;
    StartInv(keep, now);
    RunKeeps(Start(keep, now), steps);
    var s := Start(keep, now).Run(steps);
    KnownIds(s);
    assert SlotsOk(s.hub) by {
      SlotsKnown(s);
    }
    assert |Occupants(s.hub, m)| <= MAX_RUNNING_PER_MACHINE;
    assert |s.hub.Live(m) + s.hub.HeldOn(m)| == |s.hub.Live(m)| + |s.hub.HeldOn(m)|;
  }

  lemma {:induction false} SlotsKnown(s: System)
    requires s.Inv()
    ensures SlotsOk(s.hub)
  {
  }

  /** A caller that leaves a command a host may be running leaves its slot taken. */
  lemma {:induction false} LeavingKeepsSlot(s: System, id: Id, end: End)
    requires s.Inv() && id in s.hub.execs && id in s.callers
    requires s.hub.execs[id].handed.HandedAt? && s.hub.execs[id].outcome.Pending? && s.now < s.hub.execs[id].Due()
    ensures var h := s.Ends(id, end).hub;
            && id !in h.execs && id in h.held
            && h.held[id] == Mark(s.hub.execs[id].sub.machine, s.hub.execs[id].Due())
            && Occupants(h, s.hub.execs[id].sub.machine) == Occupants(s.hub, s.hub.execs[id].sub.machine)
  {
    hide ExecsOk, QueuesOk, HandoutsOk, OrderOk, EndsOk, ReportsOk, DeliveredOk, SlotsOk, WaitsOk, NoLostWakeup;
    var h := s.Ends(id, end).hub;
    var m := s.hub.execs[id].sub.machine;
    assert h.execs == s.hub.execs - {id};
    assert h.HeldOn(m) == s.hub.HeldOn(m) + {id};
    assert h.Live(m) == s.hub.Live(m) - {id};
  }

  predicate Touches(step: Step, m: Machine, id: Id) {
    (step.Report? && step.machine == m && step.id == id) || (step.Revoke? && step.machine == m)
  }

  lemma {:induction false} HeldStep(s: System, step: Step, id: Id)
    requires s.Inv() && id in s.hub.held && !Touches(step, s.hub.held[id].machine, id)
    requires s.now < s.hub.held[id].until
    ensures id in s.Do(step).hub.held && s.Do(step).hub.held[id] == s.hub.held[id]
  {
    hide System.Inv, System.Claim, System.Answered, System.Resumed, System.Woken, System.Submitted, System.Reporting, System.Ends;
    KnownIds(s);
    match step
    case Submit(sub) => SubmittedEffect(s, sub);
    case Wake(x) => if x in s.callers && x in s.hub.execs { WokenEffect(s, x); }
    case Leave(x) => if x in s.callers && x in s.hub.execs { EndsEffect(s, x, Left); }
    case Report(machine, x, result) => ReportingEffect(s, machine, x, result);
    case Revoke(machine) =>
    case _ => WaitsFrame(s, step);
  }

  lemma {:induction false} ClockStep(s: System, step: Step)
    ensures s.now <= s.Do(step).now && s.keep == s.Do(step).keep
  {
    hide Hub.Queue, Hub.Take, Hub.Deliver, Hub.Release, Hub.Close;
  }

  lemma {:induction false} ClockRuns(s: System, steps: seq<Step>)
    ensures s.now <= s.Run(steps).now
    decreases |steps|
  {
    if steps != [] {
      ClockStep(s, steps[0]);
      ClockRuns(s.Do(steps[0]), steps[1..]);
    }
  }

  /** A held slot stays taken until its machine reports the command, the machine is
      revoked, or the command is due. */
  lemma {:induction false} SlotIsHeld(s: System, steps: seq<Step>, id: Id)
    requires s.Inv() && id in s.hub.held
    requires forall i :: 0 <= i < |steps| ==> !Touches(steps[i], s.hub.held[id].machine, id)
    requires s.Run(steps).now < s.hub.held[id].until
    ensures id in s.Run(steps).hub.held && s.Run(steps).hub.held[id] == s.hub.held[id]
    decreases |steps|
  {
    hide System.Inv;
    if steps != [] {
      ClockStep(s, steps[0]);
      ClockRuns(s.Do(steps[0]), steps[1..]);
      HeldStep(s, steps[0], id);
      StepKeeps(s, steps[0]);
      SlotIsHeld(s.Do(steps[0]), steps[1..], id);
    }
  }

  // -------------------------------------------------------------- results

  datatype Accepted = NoneAccepted | First(machine: Machine, result: ExecResult)

  predicate IsAccepted(s: System, step: Step, id: Id) {
    step.Report? && step.id == id && s.hub.Deliver(s.now, s.keep, step.machine, id, step.result).1
  }

  /** The first report of `id` the hub accepts in a run, found by looking at the run. */
  function FirstAccepted(s: System, steps: seq<Step>, id: Id): Accepted
    decreases |steps|
  {
    if steps == [] then NoneAccepted
    else if IsAccepted(s, steps[0], id) then First(steps[0].machine, steps[0].result)
    else FirstAccepted(s.Do(steps[0]), steps[1..], id)
  }

  lemma {:induction false} AcceptedStep(s: System, step: Step, id: Id)
    requires s.Inv()
    ensures id in s.firsts ==> id in s.Do(step).firsts && s.Do(step).firsts[id] == s.firsts[id]
    ensures id !in s.firsts ==> (id in s.Do(step).firsts <==> IsAccepted(s, step, id))
    ensures id !in s.firsts && IsAccepted(s, step, id) ==> s.Do(step).firsts[id] == step.result
    ensures IsAccepted(s, step, id) ==> id in s.callers && step.machine == s.callers[id].sub.machine
  {
    hide System.Inv, System.Claim, System.Answered, System.Resumed, System.Woken, System.Submitted, System.Ends;
    match step
    case Submit(sub) => SubmittedEffect(s, sub);
    case Wake(x) => if x in s.callers && x in s.hub.execs { WokenEffect(s, x); }
    case Leave(x) => if x in s.callers && x in s.hub.execs { EndsEffect(s, x, Left); }
    case Report(machine, x, result) => if IsAccepted(s, step, id) { AcceptedFromOwn(s, machine, id, result); }
    case Revoke(machine) =>
    case _ => WaitsFrame(s, step);
  }

  lemma {:induction false} AcceptedFromOwn(s: System, machine: Machine, id: Id, result: ExecResult)
    requires s.Inv() && s.hub.Deliver(s.now, s.keep, machine, id, result).1
    ensures id in s.callers && machine == s.callers[id].sub.machine
  {
    hide ExecsOk, QueuesOk, HandoutsOk, OrderOk, EndsOk, SlotsOk, WaitsOk, NoLostWakeup;
    assert id in s.hub.execs ==> Waiting(s.callers, id);
  }

  lemma {:induction false} FirstPersists(s: System, steps: seq<Step>, id: Id)
    requires s.Inv() && id in s.callers
    ensures id in s.Run(steps).callers && s.Run(steps).callers[id].sub == s.callers[id].sub
    ensures id in s.firsts ==> id in s.Run(steps).firsts && s.Run(steps).firsts[id] == s.firsts[id]
    decreases |steps|
  {
    hide System.Inv;
    if steps != [] {
      AcceptedStep(s, steps[0], id);
      DoneKnown(s, id);
      CallersEffect(s, steps[0], id);
      StepKeeps(s, steps[0]);
      FirstPersists(s.Do(steps[0]), steps[1..], id);
    }
  }

  lemma {:induction false} FirstIsRecorded(s: System, steps: seq<Step>, id: Id)
    requires s.Inv() && id !in s.firsts
    ensures var t := s.Run(steps);
            match FirstAccepted(s, steps, id)
            case NoneAccepted => id !in t.firsts
            case First(m, r) => id in t.firsts && t.firsts[id] == r && id in t.callers && t.callers[id].sub.machine == m
    decreases |steps|
  {
    hide System.Inv;
    if steps != [] {
      AcceptedStep(s, steps[0], id);
      StepKeeps(s, steps[0]);
      if IsAccepted(s, steps[0], id) {
        DoneKnown(s, id);
        CallersEffect(s, steps[0], id);
        FirstPersists(s.Do(steps[0]), steps[1..], id);
      } else {
        FirstIsRecorded(s.Do(steps[0]), steps[1..], id);
      }
    }
  }

  /** A caller's result is the first one accepted for its command in the whole run, and it
      came from the command's own machine, which had been handed the command. */
  lemma {:induction false} ResultIsFirstAccepted(keep: real, now: real, steps: seq<Step>, id: Id)
    requires var s := Start(keep, now).Run(steps);
             id in s.callers && s.callers[id].phase.Done? && s.callers[id].phase.end.Result?
    ensures var s := Start(keep, now).Run(steps);
            && FirstAccepted(Start(keep, now), steps, id) == First(s.callers[id].sub.machine, s.callers[id].phase.end.result)
            && HandedOnce(s, id)
  {
    hide System.Inv;
    StartInv(keep, now);
    RunKeeps(Start(keep, now), steps);
    FirstIsRecorded(Start(keep, now), steps, id);
    var s := Start(keep, now).Run(steps);
    ResultEnd(s, id);
    EndTellsHanded(s, id);
  }

  lemma {:induction false} ResultEnd(s: System, id: Id)
    requires s.Inv() && id in s.callers && s.callers[id].phase.Done? && s.callers[id].phase.end.Result?
    ensures id in s.firsts && s.firsts[id] == s.callers[id].phase.end.result && HandedIn(s, id)
  {
    assert EndOk(s.callers[id].phase.end, id in s.handed, id in s.firsts, FirstOf(s.firsts, id));
  }

  lemma {:induction false} MarkStep(s: System, step: Step, id: Id)
    requires s.Inv() && id in s.hub.delivered && s.now < s.hub.delivered[id].until
    requires step != Revoke(s.hub.delivered[id].machine)
    ensures id in s.Do(step).hub.delivered && s.Do(step).hub.delivered[id] == s.hub.delivered[id]
  {
    hide System.Inv, System.Claim, System.Answered, System.Resumed, System.Woken, System.Submitted, System.Reporting, System.Ends;
    match step
    case Submit(sub) => SubmittedEffect(s, sub);
    case Wake(x) => if x in s.callers && x in s.hub.execs { WokenEffect(s, x); }
    case Leave(x) => if x in s.callers && x in s.hub.execs { EndsEffect(s, x, Left); }
    case Report(machine, x, result) =>
      ReportingEffect(s, machine, x, result);
      if x == id && machine != s.hub.delivered[id].machine {
        OtherMachine(s, machine, id, result);
      }
    case Revoke(machine) =>
    case _ => WaitsFrame(s, step);
  }

  /** Another machine's report of a delivered command changes no mark of it. */
  lemma {:induction false} OtherMachine(s: System, machine: Machine, id: Id, result: ExecResult)
    requires s.Inv() && id in s.hub.delivered && s.now < s.hub.delivered[id].until
    requires machine != s.hub.delivered[id].machine
    ensures var t := s.Reporting(machine, id, result);
            id in t.hub.delivered && t.hub.delivered[id] == s.hub.delivered[id]
  {
    hide CallersOk, ExecsOk, QueuesOk, HandoutsOk, OrderOk, EndsOk, SlotsOk, WaitsOk, NoLostWakeup;
    Unreported(s, id);
  }

  lemma {:induction false} MarkIsKept(s: System, steps: seq<Step>, id: Id)
    requires s.Inv() && id in s.hub.delivered && s.Run(steps).now < s.hub.delivered[id].until
    requires forall i :: 0 <= i < |steps| ==> steps[i] != Revoke(s.hub.delivered[id].machine)
    ensures id in s.Run(steps).hub.delivered && s.Run(steps).hub.delivered[id] == s.hub.delivered[id]
    decreases |steps|
  {
    hide System.Inv;
    if steps != [] {
      ClockStep(s, steps[0]);
      ClockRuns(s.Do(steps[0]), steps[1..]);
      MarkStep(s, steps[0], id);
      StepKeeps(s, steps[0]);
      MarkIsKept(s.Do(steps[0]), steps[1..], id);
    }
  }

  /** A result sent again within the keep time of the first, with no revocation between,
      is accepted and changes nothing beyond forgetting what has run out. */
  lemma {:induction false} RepeatIsAccepted(s: System, machine: Machine, id: Id, result: ExecResult, steps: seq<Step>, again: ExecResult)
    requires s.Inv() && IsAccepted(s, Report(machine, id, result), id) && id !in s.hub.delivered
    requires forall i :: 0 <= i < |steps| ==> steps[i] != Revoke(machine)
    requires s.Do(Report(machine, id, result)).Run(steps).now < s.now + s.keep
    ensures var t := s.Do(Report(machine, id, result)).Run(steps);
            && IsAccepted(t, Report(machine, id, again), id)
            && t.Do(Report(machine, id, again)) == t.(hub := t.hub.Sweep(t.now))
  {
    hide System.Inv, System.Do, System.Run, IsAccepted;
    StepKeeps(s, Report(machine, id, result));
    AcceptedLeavesMark(s, machine, id, result);
    RepeatOfMarked(s.Do(Report(machine, id, result)), machine, id, s.now + s.keep, steps, again);
  }

  lemma {:induction false} AcceptedLeavesMark(s: System, machine: Machine, id: Id, result: ExecResult)
    requires IsAccepted(s, Report(machine, id, result), id) && id !in s.hub.delivered
    ensures var t := s.Do(Report(machine, id, result));
            id in t.hub.delivered && t.hub.delivered[id] == Mark(machine, s.now + s.keep)
  {
    hide Pruned;
  }

  lemma {:induction false} RepeatIsIgnored(t: System, machine: Machine, id: Id, again: ExecResult)
    requires id in t.hub.delivered && t.hub.delivered[id].machine == machine && t.now < t.hub.delivered[id].until
    requires id in t.firsts
    ensures IsAccepted(t, Report(machine, id, again), id)
    ensures t.Do(Report(machine, id, again)) == t.(hub := t.hub.Sweep(t.now))
  {
    hide Pruned;
  }

  lemma {:induction false} RepeatOfMarked(first: System, machine: Machine, id: Id, until: real, steps: seq<Step>, again: ExecResult)
    requires first.Inv() && id in first.hub.delivered && first.hub.delivered[id] == Mark(machine, until)
    requires forall i :: 0 <= i < |steps| ==> steps[i] != Revoke(machine)
    requires first.Run(steps).now < until
    ensures var t := first.Run(steps);
            && IsAccepted(t, Report(machine, id, again), id)
            && t.Do(Report(machine, id, again)) == t.(hub := t.hub.Sweep(t.now))
  {
    hide System.Inv, System.Do, System.Run, IsAccepted;
    MarkIsKept(first, steps, id);
    var t := first.Run(steps);
    RunKeeps(first, steps);
    MarkedWasAccepted(t, id);
    RepeatIsIgnored(t, machine, id, again);
  }

  lemma {:induction false} MarkedWasAccepted(t: System, id: Id)
    requires t.Inv() && id in t.hub.delivered
    ensures id in t.firsts
  {
  }

  // --------------------------------------------------------------- starts

  predicate Starts(s: System, step: Step, user: User) {
    step.Submit? && step.sub.user == user && s.hub.Queue(s.now, s.next, step.sub).1.Accepted?
  }

  /** When the user's accepted commands of a run were queued. */
  function StartTimes(s: System, steps: seq<Step>, user: User): seq<real>
    decreases |steps|
  {
    if steps == [] then []
    else (if Starts(s, steps[0], user) then [s.now] else []) + StartTimes(s.Do(steps[0]), steps[1..], user)
  }

  lemma {:induction false} PrunedUser(starts: map<User, seq<real>>, now: real, user: User)
    ensures StartsOf(Pruned(starts, now), user) == Prune(StartsOf(starts, user), now)
  {
  }

  /** The hub's list of a user's starts only loses what a sweep drops and gains its starts. */
  lemma {:induction false} StartsEffect(s: System, step: Step, user: User)
    ensures var before, after := StartsOf(s.hub.starts, user), StartsOf(s.Do(step).hub.starts, user);
            && (Starts(s, step, user) ==>
                  after == Prune(before, s.now) + [s.now] && |Prune(before, s.now)| < MAX_EXECS_PER_MIN_PER_USER)
            && (!Starts(s, step, user) ==> after == before || after == Prune(before, s.now))
  {
    hide Pruned, Prune, System.Claim, System.Answered, System.Resumed, System.Woken;
    PrunedUser(s.hub.starts, s.now, user);
    match step
    case Submit(sub) => PrunedUser(s.hub.starts, s.now, sub.user);
    case Wake(x) => if x in s.callers && x in s.hub.execs { WokenStarts(s, x); }
    case Tick(_) =>
    case Leave(_) =>
    case DropWait(_) =>
    case Report(_, _, _) =>
    case Revoke(_) =>
    case _ => WaitsFrame(s, step);
  }

  lemma {:induction false} WokenStarts(s: System, id: Id)
    requires id in s.callers && id in s.hub.execs
    ensures s.Woken(id).hub.starts == s.hub.starts
  {
  }

  lemma {:induction false} StartsFrom(s: System, steps: seq<Step>, user: User, history: seq<real>)
    requires StandsIn(StartsOf(s.hub.starts, user), history, s.now) && Spaced(history, MAX_EXECS_PER_MIN_PER_USER)
    ensures var t := s.Run(steps);
            var all := history + StartTimes(s, steps, user);
            StandsIn(StartsOf(t.hub.starts, user), all, t.now) && Spaced(all, MAX_EXECS_PER_MIN_PER_USER)
    decreases |steps|
  {
    hide System.Do, Starts, Prune, Spaced, StandsIn;
    if steps == [] {
      assert history + [] == history;
    } else {
      var before := StartsOf(s.hub.starts, user);
      var next := s.Do(steps[0]);
      StartsEffect(s, steps[0], user);
      StandsInLater(before, history, s.now, s.now);
      ClockStep(s, steps[0]);
      if Starts(s, steps[0], user) {
        AdmitKeepsSpaced(history, MAX_EXECS_PER_MIN_PER_USER, s.now);
        StandsInSnoc(Prune(before, s.now), history, s.now);
        StandsInLater(StartsOf(next.hub.starts, user), history + [s.now], s.now, next.now);
        StartsFrom(next, steps[1..], user, history + [s.now]);
        assert history + StartTimes(s, steps, user) == (history + [s.now]) + StartTimes(next, steps[1..], user);
      } else {
        StandsInLater(StartsOf(next.hub.starts, user), history, s.now, next.now);
        StartsFrom(next, steps[1..], user, history);
        assert [] + StartTimes(next, steps[1..], user) == StartTimes(next, steps[1..], user);
      }
    }
  }

  /** Over any run, no minute holds more than 60 accepted commands of a user, and the
      pruned list refuses the next one exactly when the full history would. */
  lemma {:induction false} StartsAreLimited(keep: real, now: real, steps: seq<Step>, sub: Submission)
    ensures var s := Start(keep, now).Run(steps);
            var times := StartTimes(Start(keep, now), steps, sub.user);
            && Spaced(times, MAX_EXECS_PER_MIN_PER_USER)
            && (s.hub.Queue(s.now, s.next, sub).1.Limited? <==>
                  InLastMinute(times, s.now) >= MAX_EXECS_PER_MIN_PER_USER)
  {
    var s0 := Start(keep, now);
    StartsFrom(s0, steps, sub.user, []);
    var times := StartTimes(s0, steps, sub.user);
    assert [] + times == times;
    var s := s0.Run(steps);
    PrunedUser(s.hub.starts, s.now, sub.user);
    StandsInLater(StartsOf(s.hub.starts, sub.user), times, s.now, s.now);
  }
}
