/** Every interleaving of callers, host waits, results, revocations and the clock over the
    exec hub: `ExecHub.run` and `ExecHub.wait` of `server/execs.py`, cut at their awaits. */
module ExecRuns {
  import opened Common
  import opened ExecHubs

  /** How a caller of `run` ended: with a result, with one of the two errors that say
      whether the command may have run, or by leaving. */
  datatype End = Result(result: ExecResult) | Lost(taken: bool) | RevokedEnd(taken: bool) | Left

  datatype Phase = AwaitTaken(deadline: real) | AwaitOutcome(deadline: real) | Done(end: End)

  datatype Caller = Caller(sub: Submission, phase: Phase)

  datatype WaitEnd = Got(id: Id) | Empty | WaitRevoked | Stale | Dropped

  /** A wait asks whether its host is current, is parked on its future, or is over. */
  datatype WaitPhase = Asking(last: bool) | Parked | Over(end: WaitEnd)

  datatype Wait = Wait(machine: Machine, deadline: real, phase: WaitPhase)

  datatype Handout = Handout(id: Id, wait: WaitId)

  datatype Step =
    | Tick(sec: real)
    | Submit(sub: Submission)
    | Wake(id: Id)
    | Leave(id: Id)
    | StartWait(wait: WaitId, machine: Machine, sec: real)
    | Answer(wait: WaitId, current: bool)
    | Resume(wait: WaitId)
    | DropWait(wait: WaitId)
    | Report(machine: Machine, id: Id, result: ExecResult)
    | Revoke(machine: Machine)

  /** The hub, its clock, the coroutines using it, and what happened so far. Ids are drawn
      in order, which loses nothing: the hub only compares them for equality. */
  datatype System = System(
    hub: Hub,
    keep: real,
    now: real,
    next: Id,
    callers: map<Id, Caller>,
    waits: map<WaitId, Wait>,
    handouts: seq<Handout>,
    handed: set<Id>,
    firsts: map<Id, ExecResult>)
  {
    function WithPhase(w: WaitId, phase: WaitPhase): System
      requires w in waits
    {
      this.(waits := waits[w := waits[w].(phase := phase)])
    }

    /** No command was found: give up at the deadline or after the last look, else park. */
    function NoneFound(w: WaitId, last: bool): System
      requires w in waits
    {
      if last || waits[w].deadline <= now then WithPhase(w, Over(Empty))
      else WithPhase(w, Parked).(hub := hub.(waiters := hub.waiters[w := Waiter(waits[w].machine, Unset)]))
    }

    function Claim(w: WaitId, last: bool): System
      requires w in waits
    {
      if waits[w].machine in hub.pending then WithPhase(w, Asking(last)) else NoneFound(w, last)
    }

    function Answered(w: WaitId, current: bool): System
      requires w in waits && waits[w].phase.Asking?
    {
      if !current then WithPhase(w, Over(Stale))
      else
        var (h, found) := hub.Take(now, waits[w].machine);
        if found.Nothing? then this.(hub := h).NoneFound(w, waits[w].phase.last)
        else WithPhase(w, Over(Got(found.id))).(hub := h, handouts := handouts + [Handout(found.id, w)],
                                               handed := handed + {found.id})
    }

    function Resumed(w: WaitId): System
      requires w in waits && w in hub.waiters
    {
      var future := hub.waiters[w].future;
      var s := this.(hub := hub.(waiters := hub.waiters - {w}));
      if future.Unset? && now < waits[w].deadline then this
      else if future.Unset? then s.Claim(w, true)
      else if future.Closed? then s.WithPhase(w, Over(WaitRevoked))
      else s.Claim(w, false)
    }

    /** The caller of `id` stops waiting, and its command is released. */
    function Ends(id: Id, end: End): System
      requires id in callers && id in hub.execs
    {
      this.(callers := callers[id := callers[id].(phase := Done(end))], hub := hub.Release(now, id))
    }

    function Woken(id: Id): System
      requires id in callers && id in hub.execs
    {
      var e := hub.execs[id];
      match callers[id].phase
      case AwaitTaken(deadline) =>
        if e.taken then
          this.(callers := callers[id := callers[id].(phase := AwaitOutcome(now + e.sub.timeoutSec + RESULT_GRACE_SEC))])
        else if deadline <= now then Ends(id, Lost(false)) else this
      case AwaitOutcome(deadline) =>
        if e.outcome.Reported? then Ends(id, Result(e.outcome.result))
        else if e.outcome.Revoked? then Ends(id, RevokedEnd(e.handed.HandedAt?))
        else if deadline <= now then Ends(id, Lost(true)) else this
      case Done(_) => this
    }

    function Submitted(sub: Submission): System {
      var (h, queued) := hub.Queue(now, next, sub);
      if !queued.Accepted? then this.(hub := h)
      else this.(hub := h, next := next + 1,
                 callers := callers[next := Caller(sub, AwaitTaken(now + OFFER_TTL_SEC))])
    }

    function Reporting(machine: Machine, id: Id, result: ExecResult): System {
      var (h, accepted) := hub.Deliver(now, keep, machine, id, result);
      this.(hub := h, firsts := if accepted && id !in firsts then firsts[id := result] else firsts)
    }

    /** One atomic step; one that cannot happen changes nothing. */
    function Do(step: Step): System {
      match step
      case Tick(sec) => if sec >= 0.0 then this.(now := now + sec) else this
      case Submit(sub) => Submitted(sub)
      case Wake(id) => if id in callers && id in hub.execs then Woken(id) else this
      case Leave(id) => if id in callers && id in hub.execs then Ends(id, Left) else this
      case StartWait(w, machine, sec) =>
        if w in waits then this else this.(waits := waits[w := Wait(machine, now + sec, Parked)]).Claim(w, false)
      case Answer(w, current) => if w in waits && waits[w].phase.Asking? then Answered(w, current) else this
      case Resume(w) => if w in waits && w in hub.waiters then Resumed(w) else this
      case DropWait(w) =>
        if w in waits && !waits[w].phase.Over?
        then WithPhase(w, Over(Dropped)).(hub := hub.(waiters := hub.waiters - {w})) else this
      case Report(machine, id, result) => Reporting(machine, id, result)
      case Revoke(machine) => this.(hub := hub.Close(machine))
    }

    function Run(steps: seq<Step>): System
      decreases |steps|
    {
      if steps == [] then this else Do(steps[0]).Run(steps[1..])
    }

    ghost predicate CoreInv() {
      && CallersOk(next, callers, hub.execs)
      && ExecsOk(hub.execs, callers, handed)
      && QueuesOk(hub.execs, hub.pending)
      && HandoutsOk(handouts, handed, callers, waits)
      && OrderOk(handouts, waits, hub.execs)
      && EndsOk(callers, handed, firsts)
      && HeldOk(hub.held, callers, handed, firsts)
      && ReportsOk(firsts, callers, hub.execs)
      && DeliveredOk(hub.delivered, callers, firsts)
      && SlotsOk(hub)
    }

    ghost predicate Inv() {
      CoreInv() && WaitsOk(hub.waiters, waits) && NoLostWakeup(hub.waiters, hub.pending)
    }
  }

  // ------------------------------------------------- the invariant, in parts

  type Execs = map<Id, Exec>

  type Callers = map<Id, Caller>

  type Queues = map<Machine, seq<Id>>

  type Results = map<Id, ExecResult>

  predicate Waiting(callers: Callers, id: Id) {
    id in callers && !callers[id].phase.Done?
  }

  /** A command is in the table exactly while its caller waits. */
  ghost predicate CallersOk(next: Id, callers: Callers, execs: Execs) {
    && (forall id :: id in callers ==> id < next)
    && (forall id :: id in execs <==> Waiting(callers, id))
    && (forall id :: id in execs ==> execs[id].sub == callers[id].sub)
  }

  ghost predicate ExecOk(e: Exec, handed: bool) {
    && (!e.taken ==> e.outcome.Pending? && e.handed.NotYet?)
    && (e.taken && e.outcome.Pending? ==> e.handed.HandedAt?)
    && (e.outcome.Reported? ==> e.handed.HandedAt?)
    && (e.handed.HandedAt? <==> handed)
  }

  ghost predicate ExecsOk(execs: Execs, callers: Callers, handed: set<Id>) {
    && (forall id :: id in execs ==> ExecOk(execs[id], id in handed))
    && (forall id :: id in execs && id in callers && callers[id].phase.AwaitOutcome? ==> execs[id].taken)
  }

  /** A command of the machine that no host was handed and no revocation ended. */
  predicate Untaken(execs: Execs, m: Machine, id: Id) {
    id in execs && !execs[id].taken && execs[id].sub.machine == m
  }

  /** A machine's queue holds its untaken commands, all of them, oldest first. */
  ghost predicate QueueOk(q: seq<Id>, execs: Execs, m: Machine) {
    Increasing(q) && forall id :: id in q <==> Untaken(execs, m, id)
  }

  ghost predicate QueuesOk(execs: Execs, pending: Queues) {
    && (forall m :: m in pending ==> pending[m] != [])
    && (forall m :: QueueOk(QueueOf(pending, m), execs, m))
  }

  /** Handouts name known commands, each once, and a wait of the command's machine. */
  ghost predicate HandoutOk(h: Handout, handed: set<Id>, callers: Callers, waits: map<WaitId, Wait>) {
    && h.id in handed && h.id in callers && h.wait in waits
    && waits[h.wait].phase == Over(Got(h.id))
    && waits[h.wait].machine == callers[h.id].sub.machine
  }

  ghost predicate HandoutsOk(handouts: seq<Handout>, handed: set<Id>, callers: Callers, waits: map<WaitId, Wait>) {
    && (forall i :: 0 <= i < |handouts| ==> HandoutOk(handouts[i], handed, callers, waits))
    && (forall i, j :: 0 <= i < j < |handouts| ==> handouts[i].id != handouts[j].id)
    && (forall id :: id in handed ==> exists i :: 0 <= i < |handouts| && handouts[i].id == id)
  }

  /** A machine's handouts come in queue order, and before whatever still waits there. */
  ghost predicate OrderOk(handouts: seq<Handout>, waits: map<WaitId, Wait>, execs: Execs) {
    && (forall i, j :: 0 <= i < j < |handouts| && handouts[i].wait in waits && handouts[j].wait in waits
          && waits[handouts[i].wait].machine == waits[handouts[j].wait].machine
          ==> handouts[i].id < handouts[j].id)
    && (forall i, id :: 0 <= i < |handouts| && handouts[i].wait in waits
          && Untaken(execs, waits[handouts[i].wait].machine, id)
          ==> handouts[i].id < id)
  }

  ghost predicate EndOk(end: End, handed: bool, first: bool, result: ExecResult) {
    match end
    case Result(r) => handed && first && r == result
    case Lost(taken) => taken == handed
    case RevokedEnd(taken) => taken == handed
    case Left => true
  }

  function FirstOf(firsts: Results, id: Id): ExecResult {
    if id in firsts then firsts[id] else ExecResult(0, "", "")
  }

  /** An error a caller got tells the truth, and a result is the first accepted one. */
  ghost predicate EndsOk(callers: Callers, handed: set<Id>, firsts: Results) {
    forall id :: id in callers && callers[id].phase.Done? ==>
      EndOk(callers[id].phase.end, id in handed, id in firsts, FirstOf(firsts, id))
  }

  ghost predicate HeldOk(held: map<Id, Mark>, callers: Callers, handed: set<Id>, firsts: Results) {
    forall id :: id in held ==>
      && id in callers && callers[id].phase.Done? && id in handed && id !in firsts
      && held[id].machine == callers[id].sub.machine
  }

  /** The first accepted result of a live command is its outcome. */
  ghost predicate ReportsOk(firsts: Results, callers: Callers, execs: Execs) {
    && firsts.Keys <= callers.Keys
    && (forall id :: id in execs ==> (execs[id].outcome.Reported? <==> id in firsts))
    && (forall id :: id in execs && execs[id].outcome.Reported? ==> execs[id].outcome.result == FirstOf(firsts, id))
  }

  ghost predicate DeliveredOk(delivered: map<Id, Mark>, callers: Callers, firsts: Results) {
    forall id :: id in delivered ==>
      id in firsts && id in callers && delivered[id].machine == callers[id].sub.machine
  }

  /** The commands that take up a slot of the machine. */
  ghost function Occupants(hub: Hub, m: Machine): set<Id> {
    hub.Live(m) + hub.HeldOn(m)
  }

  ghost predicate SlotsOk(hub: Hub) {
    forall m :: |Occupants(hub, m)| <= MAX_RUNNING_PER_MACHINE
  }

  /** A wait is registered exactly while it is parked. */
  ghost predicate WaitsOk(waiters: map<WaitId, Waiter>, waits: map<WaitId, Wait>) {
    forall w :: if w in waits && waits[w].phase.Parked? then w in waiters && waiters[w].machine == waits[w].machine
                else w !in waiters
  }

  /** A registered wait whose future is not done has nothing to take. */
  ghost predicate NoLostWakeup(waiters: map<WaitId, Waiter>, pending: Queues) {
    forall w :: w in waiters && waiters[w].future.Unset? ==> waiters[w].machine !in pending
  }

  ghost predicate Increasing(q: seq<Id>) {
    forall i, j :: 0 <= i < j < |q| ==> q[i] < q[j]
  }

  const EMPTY_HUB := Hub(map[], map[], map[], map[], map[], map[])

  function Start(keep: real, now: real): System {
    System(EMPTY_HUB, keep, now, 0, map[], map[], [], {}, map[])
  }

  // ------------------------------------------------ each step keeps the invariant

  lemma {:induction false} OccupantsShrink(before: Hub, after: Hub)
    requires SlotsOk(before)
    requires forall m :: Occupants(after, m) <= Occupants(before, m)
    ensures SlotsOk(after)
  {
    forall m
      ensures |Occupants(after, m)| <= MAX_RUNNING_PER_MACHINE
    {
      SubsetSize(Occupants(after, m), Occupants(before, m));
    }
  }

  lemma {:induction false} SweepKeeps(s: System)
    requires s.Inv()
    ensures s.(hub := s.hub.Sweep(s.now)).Inv()
  {
    OccupantsShrink(s.hub, s.hub.Sweep(s.now));
  }

  // -- a command is queued

  lemma {:induction false} SubmitKeeps(s: System, sub: Submission)
    requires s.Inv()
    ensures s.Submitted(sub).Inv()
  {
    hide ExecsOk, QueuesOk, HandoutsOk, OrderOk, EndsOk, HeldOk, ReportsOk, DeliveredOk, SlotsOk, WaitsOk, NoLostWakeup, CallersOk;
    SweepKeeps(s);
    var b := s.(hub := s.hub.Sweep(s.now));
    var t := s.Submitted(sub);
    if t.next != s.next {
      var e := Exec(sub, false, Pending, NotYet);
      var c := Caller(sub, AwaitTaken(s.now + OFFER_TTL_SEC));
      KnownIds(b);
      NewTable(b.next, b.callers, b.hub.execs, b.handed, b.firsts, e, c);
      NewCaller(b, c);
      OrderKept(b.handouts, b.waits, b.hub.execs, t.hub.execs, b.next);
      NewQueue(b.hub.execs, b.hub.pending, b.next, e);
      NewSlot(b.hub, b.next, e, t.hub);
      NewWaits(b.hub.waiters, b.waits, b.hub.pending, sub.machine, QueueOf(b.hub.pending, sub.machine) + [b.next]);
    }
  }

  lemma {:induction false} KnownIds(s: System)
    requires s.Inv()
    ensures s.next !in s.hub.execs && s.next !in s.hub.held && s.hub.execs.Keys !! s.hub.held.Keys
    ensures s.handed <= s.callers.Keys
    ensures forall i :: 0 <= i < |s.handouts| ==> s.handouts[i].id < s.next
    ensures forall id :: id in s.hub.execs ==> id < s.next && id in s.callers && s.callers[id].sub == s.hub.execs[id].sub
    ensures forall id :: id in s.hub.execs ==> ExecOk(s.hub.execs[id], id in s.handed)
  {
    forall i | 0 <= i < |s.handouts|
      ensures s.handouts[i].id < s.next
    {
      assert HandoutOk(s.handouts[i], s.handed, s.callers, s.waits);
    }
    forall id | id in s.handed
      ensures id in s.callers
    {
      var i :| 0 <= i < |s.handouts| && s.handouts[i].id == id;
      assert HandoutOk(s.handouts[i], s.handed, s.callers, s.waits);
    }
  }

  lemma {:induction false} NewWaits(waiters: map<WaitId, Waiter>, waits: map<WaitId, Wait>, pending: Queues, m: Machine, q: seq<Id>)
    requires WaitsOk(waiters, waits) && NoLostWakeup(waiters, pending)
    ensures WaitsOk(Awoken(waiters, m, Woken), waits)
    ensures NoLostWakeup(Awoken(waiters, m, Woken), pending[m := q])
  {
  }

  lemma {:induction false} NewTable(next: Id, callers: Callers, execs: Execs, handed: set<Id>, firsts: Results, e: Exec, c: Caller)
    requires CallersOk(next, callers, execs) && ExecsOk(execs, callers, handed) && ReportsOk(firsts, callers, execs)
    requires handed <= callers.Keys && c.sub == e.sub && c.phase.AwaitTaken? && e == Exec(e.sub, false, Pending, NotYet)
    ensures CallersOk(next + 1, callers[next := c], execs[next := e])
    ensures ExecsOk(execs[next := e], callers[next := c], handed)
    ensures ReportsOk(firsts, callers[next := c], execs[next := e])
  {
    assert next !in callers && next !in handed && next !in firsts;
  }

  lemma {:induction false} NewCaller(b: System, c: Caller)
    requires b.Inv() && c.phase.AwaitTaken?
    ensures HandoutsOk(b.handouts, b.handed, b.callers[b.next := c], b.waits)
    ensures EndsOk(b.callers[b.next := c], b.handed, b.firsts)
    ensures HeldOk(b.hub.held, b.callers[b.next := c], b.handed, b.firsts)
    ensures DeliveredOk(b.hub.delivered, b.callers[b.next := c], b.firsts)
  {
    assert b.next !in b.callers;
    forall i | 0 <= i < |b.handouts|
      ensures HandoutOk(b.handouts[i], b.handed, b.callers[b.next := c], b.waits)
    {
      assert HandoutOk(b.handouts[i], b.handed, b.callers, b.waits);
    }
  }

  /** Changing commands of one machine only needs that machine's queue looked at again. */
  lemma {:induction false} QueueChange(execs: Execs, pending: Queues, execs': Execs, pending': Queues, m: Machine)
    requires QueuesOk(execs, pending)
    requires pending' == WithQueue(pending, m, QueueOf(pending', m))
    requires forall n, id :: n != m ==> (Untaken(execs', n, id) <==> Untaken(execs, n, id))
    requires QueueOk(QueueOf(pending', m), execs', m)
    ensures QueuesOk(execs', pending')
  {
    forall n
      ensures QueueOk(QueueOf(pending', n), execs', n)
    {
      if n != m {
        assert QueueOf(pending', n) == QueueOf(pending, n);
        assert QueueOk(QueueOf(pending, n), execs, n);
      }
    }
  }

  /** Handouts stay in order when a command is added only with a newer id. */
  lemma {:induction false} OrderKept(handouts: seq<Handout>, waits: map<WaitId, Wait>, execs: Execs, execs': Execs, next: Id)
    requires OrderOk(handouts, waits, execs)
    requires forall m, id :: Untaken(execs', m, id) ==> Untaken(execs, m, id) || id == next
    requires forall i :: 0 <= i < |handouts| ==> handouts[i].id < next
    ensures OrderOk(handouts, waits, execs')
  {
  }

  lemma {:induction false} NewQueue(execs: Execs, pending: Queues, next: Id, e: Exec)
    requires QueuesOk(execs, pending) && !e.taken
    requires forall id :: id in execs ==> id < next
    ensures var m := e.sub.machine;
            QueuesOk(execs[next := e], pending[m := QueueOf(pending, m) + [next]])
  {
    var m := e.sub.machine;
    var before := QueueOf(pending, m);
    var execs' := execs[next := e];
    assert QueueOk(before, execs, m);
    forall id
      ensures id in before + [next] <==> Untaken(execs', m, id)
    {
      assert id in before + [next] <==> id in before || id == next;
    }
    assert forall i :: 0 <= i < |before| ==> before[i] in before;
    QueueChange(execs, pending, execs', pending[m := before + [next]], m);
  }

  lemma {:induction false} NewSlot(b: Hub, next: Id, e: Exec, h: Hub)
    requires SlotsOk(b) && next !in b.execs && next !in b.held
    requires |b.Live(e.sub.machine)| + |b.HeldOn(e.sub.machine)| < MAX_RUNNING_PER_MACHINE
    requires h.execs == b.execs[next := e] && h.held == b.held
    ensures SlotsOk(h)
  {
    forall n
      ensures |Occupants(h, n)| <= MAX_RUNNING_PER_MACHINE
    {
      assert |Occupants(b, n)| <= MAX_RUNNING_PER_MACHINE;
      NewSlotAt(b, next, e, h, n);
    }
  }

  lemma {:induction false} NewSlotAt(b: Hub, next: Id, e: Exec, h: Hub, n: Machine)
    requires |Occupants(b, n)| <= MAX_RUNNING_PER_MACHINE
    requires |b.Live(e.sub.machine)| + |b.HeldOn(e.sub.machine)| < MAX_RUNNING_PER_MACHINE
    requires h.execs == b.execs[next := e] && h.held == b.held
    ensures |Occupants(h, n)| <= MAX_RUNNING_PER_MACHINE
  {
    UnionSize(b.Live(e.sub.machine), b.HeldOn(e.sub.machine));
    if n == e.sub.machine {
      SubsetSize(Occupants(h, n), Occupants(b, n) + {next});
      UnionSize(Occupants(b, n), {next});
    } else {
      SubsetSize(Occupants(h, n), Occupants(b, n));
    }
  }

  lemma {:induction false} UnionSize(a: set<Id>, b: set<Id>)
    ensures |a + b| <= |a| + |b|
  {
  }

  // -- a caller stops waiting

  /** What may end the wait of a live command's caller, and how. */
  ghost predicate Truthful(e: Exec, end: End) {
    match end
    case Result(r) => e.outcome == Reported(r)
    case Lost(taken) => taken == e.taken && e.outcome.Pending?
    case RevokedEnd(taken) => e.outcome.Revoked? && taken == e.handed.HandedAt?
    case Left => true
  }

  lemma {:induction false} InCons(head: Id, tail: seq<Id>, x: Id)
    ensures x in [head] + tail <==> x == head || x in tail
  {
  }

  lemma {:induction false} WithoutIn(q: seq<Id>, id: Id, x: Id)
    requires Increasing(q)
    ensures x in Without(q, id) <==> x in q && x != id
  {
    if q != [] {
      var head, tail := q[0], q[1..];
      assert q == [head] + tail;
      InCons(head, tail, x);
      if head == id {
        assert forall i :: 0 <= i < |tail| ==> head < tail[i];
      } else {
        WithoutIn(tail, id, x);
        InCons(head, Without(tail, id), x);
      }
    }
  }

  lemma {:induction false} WithoutIncreasing(q: seq<Id>, id: Id)
    requires Increasing(q)
    ensures Increasing(Without(q, id))
  {
    if q != [] && q[0] != id {
      var rest := Without(q[1..], id);
      WithoutIncreasing(q[1..], id);
      forall i | 0 <= i < |rest|
        ensures q[0] < rest[i]
      {
        WithoutIn(q[1..], id, rest[i]);
      }
    }
  }

  lemma {:induction false} WithoutOk(q: seq<Id>, id: Id)
    requires Increasing(q)
    ensures Increasing(Without(q, id))
    ensures forall x :: x in Without(q, id) <==> x in q && x != id
  {
    WithoutIncreasing(q, id);
    forall x
      ensures x in Without(q, id) <==> x in q && x != id
    {
      WithoutIn(q, id, x);
    }
  }

  lemma {:induction false} EndsKeeps(s: System, id: Id, end: End)
    requires s.Inv() && id in s.hub.execs && id in s.callers && Truthful(s.hub.execs[id], end)
    ensures s.Ends(id, end).Inv()
  {
    hide ExecsOk, QueuesOk, HandoutsOk, OrderOk, EndsOk, HeldOk, ReportsOk, DeliveredOk, SlotsOk, WaitsOk, NoLostWakeup, CallersOk;
    var t := s.Ends(id, end);
    var c := s.callers[id].(phase := Done(end));
    KnownIds(s);
    EndedTable(s.next, s.callers, s.hub.execs, s.handed, s.firsts, id, c);
    EndedHandouts(s, id, c);
    EndedHeld(s, id, c);
    EndedQueue(s.hub.execs, s.hub.pending, id, t.hub.pending);
    OrderKept(s.handouts, s.waits, s.hub.execs, t.hub.execs, s.next);
    NoLostWakeupKept(s.hub.waiters, s.hub.pending, t.hub.pending);
    EndedSlots(s.hub, s.now, id);
  }

  lemma {:induction false} NoLostWakeupKept(waiters: map<WaitId, Waiter>, pending: Queues, pending': Queues)
    requires NoLostWakeup(waiters, pending) && pending'.Keys <= pending.Keys
    ensures NoLostWakeup(waiters, pending')
  {
  }

  lemma {:induction false} EndedSlots(h: Hub, now: real, id: Id)
    requires SlotsOk(h) && id in h.execs
    ensures SlotsOk(h.Release(now, id))
  {
    OccupantsShrink(h, h.Release(now, id));
  }

  lemma {:induction false} EndedTable(next: Id, callers: Callers, execs: Execs, handed: set<Id>, firsts: Results, id: Id, c: Caller)
    requires CallersOk(next, callers, execs) && ExecsOk(execs, callers, handed)
    requires ReportsOk(firsts, callers, execs) && EndsOk(callers, handed, firsts)
    requires id in execs && c.phase.Done? && c.sub == callers[id].sub && Truthful(execs[id], c.phase.end)
    ensures CallersOk(next, callers[id := c], execs - {id})
    ensures ExecsOk(execs - {id}, callers[id := c], handed)
    ensures ReportsOk(firsts, callers[id := c], execs - {id}) && EndsOk(callers[id := c], handed, firsts)
  {
    assert ExecOk(execs[id], id in handed);
  }

  lemma {:induction false} EndedHandouts(s: System, id: Id, c: Caller)
    requires HandoutsOk(s.handouts, s.handed, s.callers, s.waits)
    requires DeliveredOk(s.hub.delivered, s.callers, s.firsts)
    requires id in s.callers && c.sub == s.callers[id].sub
    ensures HandoutsOk(s.handouts, s.handed, s.callers[id := c], s.waits)
    ensures DeliveredOk(s.hub.delivered, s.callers[id := c], s.firsts)
  {
    forall i | 0 <= i < |s.handouts|
      ensures HandoutOk(s.handouts[i], s.handed, s.callers[id := c], s.waits)
    {
      assert HandoutOk(s.handouts[i], s.handed, s.callers, s.waits);
    }
  }

  lemma {:induction false} EndedHeld(s: System, id: Id, c: Caller)
    requires HeldOk(s.hub.held, s.callers, s.handed, s.firsts) && ReportsOk(s.firsts, s.callers, s.hub.execs)
    requires id in s.hub.execs && ExecOk(s.hub.execs[id], id in s.handed)
    requires id in s.callers && c.phase.Done? && c.sub == s.callers[id].sub == s.hub.execs[id].sub
    ensures HeldOk(s.hub.Release(s.now, id).held, s.callers[id := c], s.handed, s.firsts)
  {
  }

  lemma {:induction false} EndedQueue(execs: Execs, pending: Queues, id: Id, pending': Queues)
    requires QueuesOk(execs, pending) && id in execs
    requires var m := execs[id].sub.machine;
             pending' == if m in pending then WithQueue(pending, m, Without(pending[m], id)) else pending
    ensures QueuesOk(execs - {id}, pending') && pending'.Keys <= pending.Keys
  {
    var m := execs[id].sub.machine;
    var q := QueueOf(pending, m);
    assert QueueOk(q, execs, m);
    WithoutOk(q, id);
    assert m !in pending ==> pending - {m} == pending;
    assert QueueOf(pending', m) == Without(q, id);
    QueueChange(execs, pending, execs - {id}, pending', m);
  }

  lemma {:induction false} WokenKeeps(s: System, id: Id)
    requires s.Inv() && id in s.hub.execs && id in s.callers
    ensures s.Woken(id).Inv()
  {
    hide ExecsOk, QueuesOk, HandoutsOk, OrderOk, EndsOk, HeldOk, ReportsOk, DeliveredOk, SlotsOk, WaitsOk, NoLostWakeup, CallersOk;
    var e := s.hub.execs[id];
    KnownIds(s);
    TakenWhenAwaited(s, id);
    match s.callers[id].phase
    case AwaitTaken(deadline) =>
      if e.taken {
        OfferTaken(s, id, AwaitOutcome(s.now + e.sub.timeoutSec + RESULT_GRACE_SEC));
      } else if deadline <= s.now {
        EndsKeeps(s, id, Lost(false));
      }
    case AwaitOutcome(deadline) =>
      if e.outcome.Reported? {
        EndsKeeps(s, id, Result(e.outcome.result));
      } else if e.outcome.Revoked? {
        EndsKeeps(s, id, RevokedEnd(e.handed.HandedAt?));
      } else if deadline <= s.now {
        EndsKeeps(s, id, Lost(true));
      }
    case Done(_) =>
  }

  lemma {:induction false} TakenWhenAwaited(s: System, id: Id)
    requires s.Inv() && id in s.hub.execs && id in s.callers
    ensures s.callers[id].phase.AwaitOutcome? ==> s.hub.execs[id].taken
  {
  }

  lemma {:induction false} OfferTaken(s: System, id: Id, phase: Phase)
    requires s.Inv() && id in s.hub.execs && id in s.callers && s.hub.execs[id].taken && phase.AwaitOutcome?
    ensures s.(callers := s.callers[id := s.callers[id].(phase := phase)]).Inv()
  {
    hide ExecsOk, QueuesOk, HandoutsOk, OrderOk, EndsOk, HeldOk, ReportsOk, DeliveredOk, SlotsOk, WaitsOk, NoLostWakeup, CallersOk;
    var c := s.callers[id].(phase := phase);
    EndedHandouts(s, id, c);
    OfferTakenTable(s, id, c);
  }

  lemma {:induction false} OfferTakenTable(s: System, id: Id, c: Caller)
    requires CallersOk(s.next, s.callers, s.hub.execs) && ExecsOk(s.hub.execs, s.callers, s.handed)
    requires ReportsOk(s.firsts, s.callers, s.hub.execs) && EndsOk(s.callers, s.handed, s.firsts)
    requires HeldOk(s.hub.held, s.callers, s.handed, s.firsts)
    requires id in s.hub.execs && s.hub.execs[id].taken && c.phase.AwaitOutcome? && c.sub == s.callers[id].sub
    ensures var callers := s.callers[id := c];
            && CallersOk(s.next, callers, s.hub.execs) && ExecsOk(s.hub.execs, callers, s.handed)
            && ReportsOk(s.firsts, callers, s.hub.execs) && EndsOk(callers, s.handed, s.firsts)
            && HeldOk(s.hub.held, callers, s.handed, s.firsts)
  {
  }

  // -- a wait looks for a command

  /** Wait `w` is neither registered nor has it been handed a command. */
  ghost predicate Between(w: WaitId, waiters: map<WaitId, Waiter>, waits: map<WaitId, Wait>, handouts: seq<Handout>) {
    && w in waits && w !in waiters
    && (forall i :: 0 <= i < |handouts| ==> handouts[i].wait != w)
    && (forall v :: v != w ==> if v in waits && waits[v].phase.Parked?
                               then v in waiters && waiters[v].machine == waits[v].machine else v !in waiters)
  }

  ghost predicate Looking(s: System, w: WaitId) {
    s.CoreInv() && NoLostWakeup(s.hub.waiters, s.hub.pending) && Between(w, s.hub.waiters, s.waits, s.handouts)
  }

  /** Changing the phase of a wait that holds no handout. */
  lemma {:induction false} PhaseHandouts(s: System, w: WaitId, phase: WaitPhase)
    requires HandoutsOk(s.handouts, s.handed, s.callers, s.waits) && OrderOk(s.handouts, s.waits, s.hub.execs)
    requires Between(w, s.hub.waiters, s.waits, s.handouts)
    ensures HandoutsOk(s.handouts, s.handed, s.callers, s.WithPhase(w, phase).waits)
    ensures OrderOk(s.handouts, s.WithPhase(w, phase).waits, s.hub.execs)
  {
    var waits := s.WithPhase(w, phase).waits;
    forall i | 0 <= i < |s.handouts|
      ensures HandoutOk(s.handouts[i], s.handed, s.callers, waits)
    {
      assert HandoutOk(s.handouts[i], s.handed, s.callers, s.waits);
    }
  }

  lemma {:induction false} PhaseKeeps(s: System, w: WaitId, phase: WaitPhase)
    requires Looking(s, w) && !phase.Parked?
    ensures s.WithPhase(w, phase).Inv()
  {
    hide ExecsOk, QueuesOk, HandoutsOk, OrderOk, EndsOk, HeldOk, ReportsOk, DeliveredOk, SlotsOk, WaitsOk, NoLostWakeup, CallersOk;
    PhaseHandouts(s, w, phase);
    PhaseWaits(s, w, phase);
  }

  lemma {:induction false} PhaseWaits(s: System, w: WaitId, phase: WaitPhase)
    requires Between(w, s.hub.waiters, s.waits, s.handouts) && !phase.Parked?
    ensures WaitsOk(s.hub.waiters, s.WithPhase(w, phase).waits)
  {
  }

  lemma {:induction false} NoneFoundKeeps(s: System, w: WaitId, last: bool)
    requires Looking(s, w) && s.waits[w].machine !in s.hub.pending
    ensures s.NoneFound(w, last).Inv()
  {
    hide ExecsOk, QueuesOk, HandoutsOk, OrderOk, EndsOk, HeldOk, ReportsOk, DeliveredOk, SlotsOk, WaitsOk, NoLostWakeup, CallersOk;
    if last || s.waits[w].deadline <= s.now {
      PhaseKeeps(s, w, Over(Empty));
    } else {
      PhaseHandouts(s, w, Parked);
      ParkWaits(s, w);
      SlotsOnly(s.hub, s.NoneFound(w, last).hub);
    }
  }

  lemma {:induction false} ParkWaits(s: System, w: WaitId)
    requires Between(w, s.hub.waiters, s.waits, s.handouts) && NoLostWakeup(s.hub.waiters, s.hub.pending)
    requires s.waits[w].machine !in s.hub.pending
    ensures var waiters := s.hub.waiters[w := Waiter(s.waits[w].machine, Unset)];
            WaitsOk(waiters, s.WithPhase(w, Parked).waits) && NoLostWakeup(waiters, s.hub.pending)
  {
  }

  lemma {:induction false} SlotsOnly(before: Hub, after: Hub)
    requires SlotsOk(before) && after.execs == before.execs && after.held == before.held
    ensures SlotsOk(after)
  {
    OccupantsShrink(before, after);
  }

  lemma {:induction false} ClaimKeeps(s: System, w: WaitId, last: bool)
    requires Looking(s, w)
    ensures s.Claim(w, last).Inv()
  {
    hide ExecsOk, QueuesOk, HandoutsOk, OrderOk, EndsOk, HeldOk, ReportsOk, DeliveredOk, SlotsOk, WaitsOk, NoLostWakeup, CallersOk;
    if s.waits[w].machine in s.hub.pending {
      PhaseKeeps(s, w, Asking(last));
    } else {
      NoneFoundKeeps(s, w, last);
    }
  }

  lemma {:induction false} StartWaitKeeps(s: System, w: WaitId, machine: Machine, sec: real)
    requires s.Inv() && w !in s.waits
    ensures s.(waits := s.waits[w := Wait(machine, s.now + sec, Parked)]).Claim(w, false).Inv()
  {
    hide ExecsOk, QueuesOk, HandoutsOk, OrderOk, EndsOk, HeldOk, ReportsOk, DeliveredOk, SlotsOk, WaitsOk, NoLostWakeup, CallersOk;
    var t := s.(waits := s.waits[w := Wait(machine, s.now + sec, Parked)]);
    NewWaitLooks(s, t, w);
    ClaimKeeps(t, w, false);
  }

  lemma {:induction false} NewWaitLooks(s: System, t: System, w: WaitId)
    requires HandoutsOk(s.handouts, s.handed, s.callers, s.waits) && OrderOk(s.handouts, s.waits, s.hub.execs)
    requires WaitsOk(s.hub.waiters, s.waits)
    requires w !in s.waits && w in t.waits && t.waits == s.waits[w := t.waits[w]]
    ensures HandoutsOk(s.handouts, s.handed, s.callers, t.waits) && OrderOk(s.handouts, t.waits, s.hub.execs)
    ensures Between(w, s.hub.waiters, t.waits, s.handouts)
  {
    forall i | 0 <= i < |s.handouts|
      ensures HandoutOk(s.handouts[i], s.handed, s.callers, t.waits) && s.handouts[i].wait in s.waits
    {
      assert HandoutOk(s.handouts[i], s.handed, s.callers, s.waits);
    }
  }

  lemma {:induction false} ResumedKeeps(s: System, w: WaitId)
    requires s.Inv() && w in s.waits && w in s.hub.waiters
    ensures s.Resumed(w).Inv()
  {
    hide ExecsOk, QueuesOk, HandoutsOk, OrderOk, EndsOk, HeldOk, ReportsOk, DeliveredOk, SlotsOk, NoLostWakeup, CallersOk;
    var future := s.hub.waiters[w].future;
    var t := s.(hub := s.hub.(waiters := s.hub.waiters - {w}));
    LeavesPark(s, w);
    SlotsOnly(s.hub, t.hub);
    if future.Unset? && s.now < s.waits[w].deadline {
    } else if future.Closed? {
      PhaseKeeps(t, w, Over(WaitRevoked));
    } else {
      ClaimKeeps(t, w, future.Unset?);
    }
  }

  lemma {:induction false} LeavesPark(s: System, w: WaitId)
    requires HandoutsOk(s.handouts, s.handed, s.callers, s.waits)
    requires WaitsOk(s.hub.waiters, s.waits) && NoLostWakeup(s.hub.waiters, s.hub.pending)
    requires w in s.waits && !s.waits[w].phase.Over?
    ensures Between(w, s.hub.waiters - {w}, s.waits, s.handouts)
    ensures NoLostWakeup(s.hub.waiters - {w}, s.hub.pending)
    ensures s.waits[w].phase.Asking? ==> Between(w, s.hub.waiters, s.waits, s.handouts)
  {
    forall i | 0 <= i < |s.handouts|
      ensures s.handouts[i].wait != w
    {
      assert HandoutOk(s.handouts[i], s.handed, s.callers, s.waits);
    }
  }

  lemma {:induction false} DropKeeps(s: System, w: WaitId)
    requires s.Inv() && w in s.waits && !s.waits[w].phase.Over?
    ensures s.WithPhase(w, Over(Dropped)).(hub := s.hub.(waiters := s.hub.waiters - {w})).Inv()
  {
    hide ExecsOk, QueuesOk, HandoutsOk, OrderOk, EndsOk, HeldOk, ReportsOk, DeliveredOk, SlotsOk, WaitsOk, NoLostWakeup, CallersOk;
    var t := s.(hub := s.hub.(waiters := s.hub.waiters - {w}));
    LeavesPark(s, w);
    SlotsOnly(s.hub, t.hub);
    PhaseKeeps(t, w, Over(Dropped));
  }

  // -- a host is handed a command

  lemma {:induction false} AnsweredKeeps(s: System, w: WaitId, current: bool)
    requires s.Inv() && w in s.waits && s.waits[w].phase.Asking?
    ensures s.Answered(w, current).Inv()
  {
    hide ExecsOk, QueuesOk, HandoutsOk, OrderOk, EndsOk, HeldOk, ReportsOk, DeliveredOk, SlotsOk, WaitsOk, NoLostWakeup, CallersOk;
    LeavesPark(s, w);
    if !current {
      PhaseKeeps(s, w, Over(Stale));
    } else {
      var m := s.waits[w].machine;
      TakesOldest(s.hub, s.now, m);
      if m in s.hub.pending {
        HandedKeeps(s, w, s.hub.pending[m]);
      } else {
        NoneFoundKeeps(s, w, s.waits[w].phase.last);
      }
    }
  }

  /** With the invariant, `Take` hands out the head of the queue. */
  lemma {:induction false} TakesOldest(h: Hub, now: real, m: Machine)
    requires QueuesOk(h.execs, h.pending)
    ensures m !in h.pending ==> h.Take(now, m) == (h, Nothing)
    ensures m in h.pending ==>
      && h.pending[m] != [] && Untaken(h.execs, m, h.pending[m][0])
      && h.Take(now, m) == HandsHead(h, now, m)
  {
    var q := QueueOf(h.pending, m);
    assert QueueOk(q, h.execs, m);
    if m in h.pending {
      assert q[0] in q;
      assert h.Takeable(q[0]);
      assert h.Skipped(q) == 0;
    } else {
      assert h.pending - {m} == h.pending;
    }
  }

  function HandsHead(h: Hub, now: real, m: Machine): (Hub, Taken)
    requires m in h.pending && h.pending[m] != [] && h.pending[m][0] in h.execs
  {
    var q := h.pending[m];
    (h.(pending := WithQueue(h.pending, m, q[1..]),
        execs := h.execs[q[0] := h.execs[q[0]].(taken := true, handed := HandedAt(now))]),
     Command(q[0]))
  }

  lemma {:induction false} HandedKeeps(s: System, w: WaitId, q: seq<Id>)
    requires s.CoreInv() && WaitsOk(s.hub.waiters, s.waits) && NoLostWakeup(s.hub.waiters, s.hub.pending)
    requires Between(w, s.hub.waiters, s.waits, s.handouts) && s.waits[w].phase.Asking?
    requires s.waits[w].machine in s.hub.pending && q == s.hub.pending[s.waits[w].machine] && q != []
    requires Untaken(s.hub.execs, s.waits[w].machine, q[0])
    requires s.hub.Take(s.now, s.waits[w].machine) == HandsHead(s.hub, s.now, s.waits[w].machine)
    ensures s.Answered(w, true).Inv()
  {
    hide ExecsOk, QueuesOk, HandoutsOk, OrderOk, EndsOk, HeldOk, ReportsOk, DeliveredOk, SlotsOk, WaitsOk, NoLostWakeup, CallersOk;
    var t := s.Answered(w, true);
    KnownIds(s);
    HandedTable(s, t, q[0]);
    HandedQueue(s.hub.execs, s.hub.pending, s.waits[w].machine, t.hub.execs);
    HandedOrder(s, t, w, q[0]);
    HandedHandouts(s, t, w, q[0]);
    PhaseWaits(s, w, Over(Got(q[0])));
    NoLostWakeupKept(s.hub.waiters, s.hub.pending, t.hub.pending);
    HandedSlots(s.hub, t.hub, q[0]);
  }

  lemma {:induction false} HandedTable(s: System, t: System, id: Id)
    requires CallersOk(s.next, s.callers, s.hub.execs) && ExecsOk(s.hub.execs, s.callers, s.handed)
    requires ReportsOk(s.firsts, s.callers, s.hub.execs) && EndsOk(s.callers, s.handed, s.firsts)
    requires HeldOk(s.hub.held, s.callers, s.handed, s.firsts)
    requires id in s.hub.execs && !s.hub.execs[id].taken && t.handed == s.handed + {id}
    requires t.hub.execs == s.hub.execs[id := s.hub.execs[id].(taken := true, handed := HandedAt(s.now))]
    ensures CallersOk(s.next, s.callers, t.hub.execs) && ExecsOk(t.hub.execs, s.callers, t.handed)
    ensures ReportsOk(s.firsts, s.callers, t.hub.execs) && EndsOk(s.callers, t.handed, s.firsts)
    ensures HeldOk(s.hub.held, s.callers, t.handed, s.firsts)
  {
    assert ExecOk(s.hub.execs[id], id in s.handed);
  }

  lemma {:induction false} HandedQueue(execs: Execs, pending: Queues, m: Machine, execs': Execs)
    requires QueuesOk(execs, pending) && m in pending && pending[m] != [] && pending[m][0] in execs
    requires exists at :: execs' == execs[pending[m][0] := execs[pending[m][0]].(taken := true, handed := at)]
    ensures QueuesOk(execs', WithQueue(pending, m, pending[m][1..]))
    ensures WithQueue(pending, m, pending[m][1..]).Keys <= pending.Keys
  {
    var q := pending[m];
    assert QueueOk(QueueOf(pending, m), execs, m);
    assert q[0] in q && q == [q[0]] + q[1..];
    forall id
      ensures id in q[1..] <==> Untaken(execs', m, id)
    {
      InCons(q[0], q[1..], id);
      assert id in q[1..] ==> q[0] < id;
    }
    QueueChange(execs, pending, execs', WithQueue(pending, m, q[1..]), m);
  }

  lemma {:induction false} HandedOrder(s: System, t: System, w: WaitId, id: Id)
    requires OrderOk(s.handouts, s.waits, s.hub.execs) && QueuesOk(s.hub.execs, s.hub.pending)
    requires Between(w, s.hub.waiters, s.waits, s.handouts)
    requires var m := s.waits[w].machine; m in s.hub.pending && s.hub.pending[m] != [] && s.hub.pending[m][0] == id
    requires id in s.hub.execs && id in t.hub.execs && t.hub.execs == s.hub.execs[id := t.hub.execs[id]] && t.hub.execs[id].taken
    requires t.handouts == s.handouts + [Handout(id, w)] && t.waits == s.waits[w := s.waits[w].(phase := Over(Got(id)))]
    ensures OrderOk(t.handouts, t.waits, t.hub.execs)
  {
    var m := s.waits[w].machine;
    assert QueueOk(QueueOf(s.hub.pending, m), s.hub.execs, m);
    assert id in s.hub.pending[m];
    assert forall n, x :: Untaken(t.hub.execs, n, x) ==> Untaken(s.hub.execs, n, x) && x != id;
    forall x | Untaken(s.hub.execs, m, x) && x != id
      ensures id < x
    {
      assert x in s.hub.pending[m];
    }
  }

  lemma {:induction false} HandedHandouts(s: System, t: System, w: WaitId, id: Id)
    requires HandoutsOk(s.handouts, s.handed, s.callers, s.waits) && Between(w, s.hub.waiters, s.waits, s.handouts)
    requires id in s.callers && id !in s.handed && s.callers[id].sub.machine == s.waits[w].machine
    requires t.handouts == s.handouts + [Handout(id, w)] && t.handed == s.handed + {id}
    requires t.waits == s.waits[w := s.waits[w].(phase := Over(Got(id)))]
    ensures HandoutsOk(t.handouts, t.handed, s.callers, t.waits)
  {
    forall i | 0 <= i < |s.handouts|
      ensures HandoutOk(s.handouts[i], t.handed, s.callers, t.waits) && s.handouts[i].id != id
    {
      assert HandoutOk(s.handouts[i], s.handed, s.callers, s.waits);
    }
    forall x | x in t.handed
      ensures exists i :: 0 <= i < |t.handouts| && t.handouts[i].id == x
    {
      if x == id {
        assert t.handouts[|s.handouts|].id == x;
      } else {
        var i :| 0 <= i < |s.handouts| && s.handouts[i].id == x;
        assert t.handouts[i].id == x;
      }
    }
  }

  lemma {:induction false} HandedSlots(before: Hub, after: Hub, id: Id)
    requires SlotsOk(before) && id in before.execs && after.held == before.held && id in after.execs
    requires after.execs == before.execs[id := after.execs[id]] && after.execs[id].sub == before.execs[id].sub
    ensures SlotsOk(after)
  {
    OccupantsShrink(before, after);
  }

  // -- a host reports

  lemma {:induction false} ReportingKeeps(s: System, machine: Machine, id: Id, result: ExecResult)
    requires s.Inv()
    ensures s.Reporting(machine, id, result).Inv()
  {
    hide ExecsOk, QueuesOk, HandoutsOk, OrderOk, EndsOk, HeldOk, ReportsOk, DeliveredOk, SlotsOk, WaitsOk, NoLostWakeup, CallersOk;
    SweepKeeps(s);
    var b := s.(hub := s.hub.Sweep(s.now));
    var t := s.Reporting(machine, id, result);
    KnownIds(b);
    Unreported(b, id);
    if t.hub != b.hub {
      ReportedSlots(b, t);
      if id in b.hub.execs {
        ReportedLive(b, id, result, machine, t.hub.execs);
        OrderKept(b.handouts, b.waits, b.hub.execs, t.hub.execs, b.next);
        ReportedQueues(b, t);
      } else {
        ReportedHeld(b, id, result, machine);
      }
      ReportedMarks(b, id, result, Mark(machine, s.now + s.keep));
    }
  }

  /** A mark means the result was accepted; a command still open was never reported. */
  lemma {:induction false} Unreported(b: System, id: Id)
    requires b.Inv()
    ensures id in b.hub.delivered ==> id in b.firsts
    ensures id in b.hub.execs ==> (b.hub.execs[id].outcome.Reported? <==> id in b.firsts)
    ensures id in b.hub.held ==> id !in b.firsts && id in b.callers && b.hub.held[id].machine == b.callers[id].sub.machine
  {
  }

  lemma {:induction false} ReportedSlots(b: System, t: System)
    requires SlotsOk(b.hub) && t.hub.held.Keys <= b.hub.held.Keys && t.hub.execs.Keys == b.hub.execs.Keys
    requires forall x :: x in t.hub.held ==> t.hub.held[x] == b.hub.held[x]
    requires forall x :: x in t.hub.execs ==> t.hub.execs[x].sub == b.hub.execs[x].sub
    ensures SlotsOk(t.hub)
  {
    OccupantsShrink(b.hub, t.hub);
  }

  lemma {:induction false} ReportedQueues(b: System, t: System)
    requires QueuesOk(b.hub.execs, b.hub.pending) && t.hub.pending == b.hub.pending
    requires forall m, x :: Untaken(t.hub.execs, m, x) <==> Untaken(b.hub.execs, m, x)
    ensures QueuesOk(t.hub.execs, t.hub.pending)
  {
    forall m
      ensures QueueOk(QueueOf(t.hub.pending, m), t.hub.execs, m)
    {
      assert QueueOk(QueueOf(b.hub.pending, m), b.hub.execs, m);
    }
  }

  lemma {:induction false} ReportedLive(b: System, id: Id, result: ExecResult, machine: Machine, execs: Execs)
    requires CallersOk(b.next, b.callers, b.hub.execs) && ExecsOk(b.hub.execs, b.callers, b.handed)
    requires ReportsOk(b.firsts, b.callers, b.hub.execs) && EndsOk(b.callers, b.handed, b.firsts)
    requires HeldOk(b.hub.held, b.callers, b.handed, b.firsts)
    requires id in b.hub.execs && b.hub.execs[id].outcome.Pending? && b.hub.execs[id].handed.HandedAt?
    requires execs == b.hub.execs[id := b.hub.execs[id].(outcome := Reported(result))]
    ensures var firsts := b.firsts[id := result];
            && CallersOk(b.next, b.callers, execs) && ExecsOk(execs, b.callers, b.handed)
            && ReportsOk(firsts, b.callers, execs) && EndsOk(b.callers, b.handed, firsts)
            && HeldOk(b.hub.held, b.callers, b.handed, firsts)
  {
    assert ExecOk(b.hub.execs[id], id in b.handed);
    assert Waiting(b.callers, id);
  }

  lemma {:induction false} ReportedHeld(b: System, id: Id, result: ExecResult, machine: Machine)
    requires CallersOk(b.next, b.callers, b.hub.execs)
    requires ReportsOk(b.firsts, b.callers, b.hub.execs) && EndsOk(b.callers, b.handed, b.firsts)
    requires HeldOk(b.hub.held, b.callers, b.handed, b.firsts) && id in b.hub.held
    ensures var firsts := b.firsts[id := result];
            && ReportsOk(firsts, b.callers, b.hub.execs) && EndsOk(b.callers, b.handed, firsts)
            && HeldOk(b.hub.held - {id}, b.callers, b.handed, firsts)
  {
    assert !Waiting(b.callers, id) && id !in b.hub.execs;
    assert EndOk(b.callers[id].phase.end, id in b.handed, id in b.firsts, FirstOf(b.firsts, id));
  }

  lemma {:induction false} ReportedMarks(b: System, id: Id, result: ExecResult, mark: Mark)
    requires DeliveredOk(b.hub.delivered, b.callers, b.firsts)
    requires id in b.callers && mark.machine == b.callers[id].sub.machine
    ensures DeliveredOk(b.hub.delivered[id := mark], b.callers, b.firsts[id := result])
  {
  }

  // -- a machine is revoked

  lemma {:induction false} CloseKeeps(s: System, machine: Machine)
    requires s.Inv()
    ensures s.(hub := s.hub.Close(machine)).Inv()
  {
    hide ExecsOk, QueuesOk, HandoutsOk, OrderOk, EndsOk, HeldOk, ReportsOk, DeliveredOk, SlotsOk, WaitsOk, NoLostWakeup, CallersOk;
    var t := s.(hub := s.hub.Close(machine));
    KnownIds(s);
    ClosedTable(s, machine);
    ClosedQueues(s.hub.execs, s.hub.pending, machine);
    OrderKept(s.handouts, s.waits, s.hub.execs, t.hub.execs, s.next);
    ClosedWaits(s, machine);
    ClosedSlots(s.hub, machine);
  }

  lemma {:induction false} ClosedTable(s: System, machine: Machine)
    requires CallersOk(s.next, s.callers, s.hub.execs) && ExecsOk(s.hub.execs, s.callers, s.handed)
    requires ReportsOk(s.firsts, s.callers, s.hub.execs)
    requires HeldOk(s.hub.held, s.callers, s.handed, s.firsts) && DeliveredOk(s.hub.delivered, s.callers, s.firsts)
    ensures var h := s.hub.Close(machine);
            && CallersOk(s.next, s.callers, h.execs) && ExecsOk(h.execs, s.callers, s.handed)
            && ReportsOk(s.firsts, s.callers, h.execs)
            && HeldOk(h.held, s.callers, s.handed, s.firsts) && DeliveredOk(h.delivered, s.callers, s.firsts)
  {
    var execs := Closing(s.hub.execs, machine);
    forall id | id in execs
      ensures ExecOk(execs[id], id in s.handed)
    {
      assert ExecOk(s.hub.execs[id], id in s.handed);
    }
  }

  lemma {:induction false} ClosedQueues(execs: Execs, pending: Queues, machine: Machine)
    requires QueuesOk(execs, pending)
    ensures QueuesOk(Closing(execs, machine), pending - {machine})
  {
    var execs' := Closing(execs, machine);
    forall id
      ensures !Untaken(execs', machine, id)
    {
    }
    QueueChange(execs, pending, execs', pending - {machine}, machine);
  }

  lemma {:induction false} ClosedWaits(s: System, machine: Machine)
    requires WaitsOk(s.hub.waiters, s.waits) && NoLostWakeup(s.hub.waiters, s.hub.pending)
    ensures var h := s.hub.Close(machine);
            WaitsOk(h.waiters, s.waits) && NoLostWakeup(h.waiters, h.pending)
  {
  }

  lemma {:induction false} ClosedSlots(h: Hub, machine: Machine)
    requires SlotsOk(h)
    ensures SlotsOk(h.Close(machine))
  {
    OccupantsShrink(h, h.Close(machine));
  }

  // -- every step, every run

  lemma {:induction false} StepKeeps(s: System, step: Step)
    requires s.Inv()
    ensures s.Do(step).Inv()
  {
    hide ExecsOk, QueuesOk, HandoutsOk, OrderOk, EndsOk, HeldOk, ReportsOk, DeliveredOk, SlotsOk, WaitsOk, NoLostWakeup, CallersOk;
    match step
    case Tick(sec) =>
    case Submit(sub) => SubmitKeeps(s, sub);
    case Wake(id) => if id in s.callers && id in s.hub.execs { WokenKeeps(s, id); }
    case Leave(id) => if id in s.callers && id in s.hub.execs { EndsKeeps(s, id, Left); }
    case StartWait(w, machine, sec) => if w !in s.waits { StartWaitKeeps(s, w, machine, sec); }
    case Answer(w, current) => if w in s.waits && s.waits[w].phase.Asking? { AnsweredKeeps(s, w, current); }
    case Resume(w) => if w in s.waits && w in s.hub.waiters { ResumedKeeps(s, w); }
    case DropWait(w) => if w in s.waits && !s.waits[w].phase.Over? { DropKeeps(s, w); }
    case Report(machine, id, result) => ReportingKeeps(s, machine, id, result);
    case Revoke(machine) => CloseKeeps(s, machine);
  }

  lemma {:induction false} StartInv(keep: real, now: real)
    ensures Start(keep, now).Inv()
  {
    forall m
      ensures QueueOk(QueueOf(EMPTY_HUB.pending, m), EMPTY_HUB.execs, m) && Occupants(EMPTY_HUB, m) == {}
    {
    }
  }

  lemma {:induction false} RunKeeps(s: System, steps: seq<Step>)
    requires s.Inv()
    ensures s.Run(steps).Inv()
    decreases |steps|
  {
    hide System.Inv;
    if steps != [] {
      StepKeeps(s, steps[0]);
      RunKeeps(s.Do(steps[0]), steps[1..]);
    }
  }
}
