/** `ExecHub` of `server/execs.py`: the queues, waiters and slots between the callers that
    submit commands and the hosts that run them.

    `Hub` is the hub's state as a value and its functions say what each operation does;
    `ExecHub` is the hub itself, whose methods run between two awaits and are proved to do
    just that. A command is named by its id wherever the queue, the table and the caller
    share the one object. */
module ExecHubs {
  import opened RateLimits

  type Id = nat

  type Machine = nat

  type User = nat

  type WaitId = nat

  const OFFER_TTL_SEC := 30.0

  const RESULT_GRACE_SEC := 15.0

  const MAX_RUNNING_PER_MACHINE := 4

  const MAX_EXECS_PER_MIN_PER_USER := 60

  datatype ExecResult = ExecResult(exitCode: int, stdout: string, stderr: string)

  /** The future a caller awaits second: not done, the machine was revoked, or a result. */
  datatype Outcome = Pending | Revoked | Reported(result: ExecResult)

  datatype Handed = NotYet | HandedAt(at: real)

  datatype Submission = Submission(user: User, machine: Machine, timeoutSec: real)

  datatype Exec = Exec(sub: Submission, taken: bool, outcome: Outcome, handed: Handed) {

    /** When the slot of a handed command whose caller left is given up. */
    function Due(): real
      requires handed.HandedAt?
    {
      handed.at + sub.timeoutSec + RESULT_GRACE_SEC
    }
  }

  datatype Mark = Mark(machine: Machine, until: real)

  /** A parked wait's future: not done, woken for a command, or closed by a revocation. */
  datatype Future = Unset | Woken | Closed

  datatype Waiter = Waiter(machine: Machine, future: Future)

  datatype Queued = Accepted | Busy | Limited

  datatype Taken = Nothing | Command(id: Id)

  function QueueOf(pending: map<Machine, seq<Id>>, machine: Machine): seq<Id> {
    if machine in pending then pending[machine] else []
  }

  function WithQueue(pending: map<Machine, seq<Id>>, machine: Machine, queue: seq<Id>): map<Machine, seq<Id>> {
    if queue == [] then pending - {machine} else pending[machine := queue]
  }

  function StartsOf(starts: map<User, seq<real>>, user: User): seq<real> {
    if user in starts then starts[user] else []
  }

  function Kept(marks: map<Id, Mark>, now: real): map<Id, Mark> {
    map i | i in marks && now < marks[i].until :: marks[i]
  }

  function Elsewhere(marks: map<Id, Mark>, machine: Machine): map<Id, Mark> {
    map i | i in marks && marks[i].machine != machine :: marks[i]
  }

  function Awoken(waiters: map<WaitId, Waiter>, machine: Machine, future: Future): map<WaitId, Waiter> {
    map w | w in waiters ::
      if waiters[w].machine == machine && waiters[w].future.Unset? then waiters[w].(future := future) else waiters[w]
  }

  function Closing(execs: map<Id, Exec>, machine: Machine): map<Id, Exec> {
    map i | i in execs ::
      if execs[i].sub.machine != machine then execs[i]
      else execs[i].(taken := true, outcome := if execs[i].outcome.Pending? then Revoked else execs[i].outcome)
  }

  /** The starts of every user who still has some. */
  function Pruned(starts: map<User, seq<real>>, now: real): map<User, seq<real>> {
    map u | u in starts && Prune(starts[u], now) != [] :: Prune(starts[u], now)
  }

  /** The queue without its first `id`. */
  function Without(queue: seq<Id>, id: Id): seq<Id> {
    if queue == [] then []
    else if queue[0] == id then queue[1..]
    else [queue[0]] + Without(queue[1..], id)
  }

  datatype Hub = Hub(
    execs: map<Id, Exec>,
    pending: map<Machine, seq<Id>>,
    waiters: map<WaitId, Waiter>,
    starts: map<User, seq<real>>,
    held: map<Id, Mark>,
    delivered: map<Id, Mark>)
  {
    function Live(machine: Machine): set<Id> {
      set i | i in execs && execs[i].sub.machine == machine
    }

    function HeldOn(machine: Machine): set<Id> {
      set i | i in held && held[i].machine == machine
    }

    predicate Takeable(id: Id) {
      id in execs && !execs[id].taken
    }

    /** What `Take` skips: the candidates no host may be handed any more. */
    function Skipped(queue: seq<Id>): nat
      ensures Skipped(queue) <= |queue|
    {
      if queue == [] || Takeable(queue[0]) then 0 else 1 + Skipped(queue[1..])
    }

    function Sweep(now: real): Hub {
      this.(held := Kept(held, now),
            delivered := Kept(delivered, now),
            starts := Pruned(starts, now))
    }

    function Queue(now: real, id: Id, sub: Submission): (Hub, Queued) {
      var h := Sweep(now);
      var mine := StartsOf(h.starts, sub.user);
      if |mine| >= MAX_EXECS_PER_MIN_PER_USER then (h, Limited)
      else if |h.Live(sub.machine)| + |h.HeldOn(sub.machine)| >= MAX_RUNNING_PER_MACHINE then (h, Busy)
      else (h.(starts := h.starts[sub.user := mine + [now]],
               execs := h.execs[id := Exec(sub, false, Pending, NotYet)],
               pending := h.pending[sub.machine := QueueOf(h.pending, sub.machine) + [id]],
               waiters := Awoken(h.waiters, sub.machine, Woken)),
            Accepted)
    }

    function Take(now: real, machine: Machine): (Hub, Taken) {
      var queue := QueueOf(pending, machine);
      var k := Skipped(queue);
      if k == |queue| then (this.(pending := pending - {machine}), Nothing)
      else
        var found := queue[k];
        SkippedTakeable(queue);
        (this.(pending := WithQueue(pending, machine, queue[k + 1..]),
               execs := execs[found := execs[found].(taken := true, handed := HandedAt(now))]),
         Command(found))
    }

    lemma {:induction false} SkippedTakeable(queue: seq<Id>)
      ensures Skipped(queue) < |queue| ==> Takeable(queue[Skipped(queue)])
      ensures forall i :: 0 <= i < Skipped(queue) ==> !Takeable(queue[i])
    {
      if queue != [] && !Takeable(queue[0]) {
        SkippedTakeable(queue[1..]);
      }
    }

    function Deliver(now: real, keep: real, machine: Machine, id: Id, result: ExecResult): (Hub, bool) {
      var h := Sweep(now);
      var mark := Mark(machine, now + keep);
      if id in h.delivered && h.delivered[id].machine == machine then (h, true)
      else if id in h.execs then
        var e := h.execs[id];
        if e.sub.machine != machine || e.handed.NotYet? || !e.outcome.Pending? then (h, false)
        else (h.(execs := h.execs[id := e.(outcome := Reported(result))], delivered := h.delivered[id := mark]), true)
      else if id in h.held && h.held[id].machine == machine then
        (h.(held := h.held - {id}, delivered := h.delivered[id := mark]), true)
      else (h, false)
    }

    function Close(machine: Machine): Hub {
      Hub(Closing(execs, machine),
          pending - {machine},
          Awoken(waiters, machine, Closed),
          starts,
          Elsewhere(held, machine),
          Elsewhere(delivered, machine))
    }

    function Release(now: real, id: Id): Hub
      requires id in execs
    {
      var e := execs[id];
      var machine := e.sub.machine;
      this.(execs := execs - {id},
            pending := if machine in pending then WithQueue(pending, machine, Without(pending[machine], id)) else pending,
            held := if e.handed.HandedAt? && e.outcome.Pending? && now < e.Due()
                    then held[id := Mark(machine, e.Due())] else held)
    }
  }

  // ------------------------------------------------------------- the hub

  class ExecHub {
    const keep: real
    var execs: map<Id, Exec>
    var pending: map<Machine, seq<Id>>
    var waiters: map<WaitId, Waiter>
    var starts: map<User, seq<real>>
    var held: map<Id, Mark>
    var delivered: map<Id, Mark>

    ghost function State(): Hub
      reads this
    {
      Hub(execs, pending, waiters, starts, held, delivered)
    }

    constructor (keep: real)
      ensures State() == Hub(map[], map[], map[], map[], map[], map[]) && this.keep == keep
    {
      this.keep := keep;
      execs, pending, waiters, starts, held, delivered := map[], map[], map[], map[], map[], map[];
    }

    method PruneStarts(queue: seq<real>, now: real) returns (left: seq<real>)
      ensures left == Prune(queue, now)
    {
      left := queue;
      while left != [] && now - left[0] >= 60.0
        invariant Prune(left, now) == Prune(queue, now)
        decreases |left|
      {
        left := left[1..];
      }
    }

    /** Marks whose time has come go, and each user keeps just the last minute's starts. */
    method Sweep(now: real)
      modifies this
      ensures State() == old(State()).Sweep(now)
    {
      held, delivered := Kept(held, now), Kept(delivered, now);
      SweepStarts(now);
    }

    method SweepStarts(now: real)
      modifies this`starts
      ensures starts == Pruned(old(starts), now)
    {
      ghost var before := starts;
      var users := starts.Keys;
      while users != {}
        invariant users <= before.Keys
        invariant forall u :: u in starts <==> u in before && (u in users || Prune(before[u], now) != [])
        invariant forall u :: u in starts ==> starts[u] == if u in users then before[u] else Prune(before[u], now)
        decreases |users|
      {
        var u :| u in users;
        var left := PruneStarts(starts[u], now);
        starts := if left == [] then starts - {u} else starts[u := left];
        users := users - {u};
      }
      assert starts == Pruned(before, now);
    }

    /** Wake every parked wait of the machine whose future is not done. */
    method Wake(machine: Machine, future: Future)
      modifies this`waiters
      ensures waiters == Awoken(old(waiters), machine, future)
    {
      var todo := waiters.Keys;
      while todo != {}
        invariant todo <= old(waiters).Keys && waiters.Keys == old(waiters).Keys
        invariant forall w :: w in waiters ==>
          waiters[w] == if w in todo then old(waiters)[w] else Awoken(old(waiters), machine, future)[w]
        decreases |todo|
      {
        var w :| w in todo;
        if waiters[w].machine == machine && waiters[w].future.Unset? {
          waiters := waiters[w := waiters[w].(future := future)];
        }
        todo := todo - {w};
      }
      assert waiters == Awoken(old(waiters), machine, future);
    }

    /** An accepted command goes last in its machine's queue and wakes every sleeping wait of
        the machine; a refused one leaves nothing but the sweep behind. */
    method Queue(now: real, id: Id, sub: Submission) returns (queued: Queued)
      modifies this
      ensures (State(), queued) == old(State()).Queue(now, id, sub)
    {
      Sweep(now);
      var mine := StartsOf(starts, sub.user);
      if |mine| >= MAX_EXECS_PER_MIN_PER_USER {
        return Limited;
      }
      var machine := sub.machine;
      var busy := (set i | i in execs && execs[i].sub.machine == machine);
      var kept := (set i | i in held && held[i].machine == machine);
      assert busy == State().Live(machine) && kept == State().HeldOn(machine);
      if |busy| + |kept| >= MAX_RUNNING_PER_MACHINE {
        return Busy;
      }
      starts := starts[sub.user := mine + [now]];
      execs := execs[id := Exec(sub, false, Pending, NotYet)];
      pending := pending[machine := QueueOf(pending, machine) + [id]];
      Wake(machine, Woken);
      queued := Accepted;
    }

    /** Hands out the first in the queue that can be handed out, and drops those before it. */
    method Take(now: real, machine: Machine) returns (found: Taken)
      modifies this
      ensures (State(), found) == old(State()).Take(now, machine)
    {
      var queue := QueueOf(pending, machine);
      ghost var all := queue;
      found := Nothing;
      while queue != [] && found.Nothing?
        invariant queue == all[|all| - |queue|..] && |queue| <= |all|
        invariant found.Nothing? ==> State().Skipped(all) == |all| - |queue| + State().Skipped(queue)
        invariant found.Command? ==> State().Skipped(all) == |all| - |queue| - 1 && found.id == all[State().Skipped(all)]
        invariant found.Command? ==> State().Takeable(found.id)
        decreases |queue|
      {
        var candidate := queue[0];
        queue := queue[1..];
        if candidate in execs && !execs[candidate].taken {
          found := Command(candidate);
        }
      }
      pending := WithQueue(pending, machine, queue);
      if found.Command? {
        execs := execs[found.id := execs[found.id].(taken := true, handed := HandedAt(now))];
      }
    }

    /** Accepts a result once from the machine it was handed to, and again as a repeat that
        changes nothing. */
    method Deliver(now: real, machine: Machine, id: Id, result: ExecResult) returns (accepted: bool)
      modifies this
      ensures (State(), accepted) == old(State()).Deliver(now, keep, machine, id, result)
    {
      Sweep(now);
      if id in delivered && delivered[id].machine == machine {
        return true;
      }
      if id in execs {
        var found := execs[id];
        if found.sub.machine != machine || found.handed.NotYet? || !found.outcome.Pending? {
          return false;
        }
        execs := execs[id := found.(outcome := Reported(result))];
      } else if id in held && held[id].machine == machine {
        held := held - {id};
      } else {
        return false;
      }
      delivered := delivered[id := Mark(machine, now + keep)];
      accepted := true;
    }

    /** Ends the machine's commands that had not ended, its slots, and its waits that had not
        been woken; no other machine's. */
    method CloseMachine(machine: Machine)
      modifies this
      ensures State() == old(State()).Close(machine)
    {
      EndCommands(machine);
      pending := pending - {machine};
      held, delivered := Elsewhere(held, machine), Elsewhere(delivered, machine);
      Wake(machine, Closed);
    }

    method EndCommands(machine: Machine)
      modifies this`execs
      ensures execs == Closing(old(execs), machine)
    {
      ghost var before := execs;
      var todo := set i | i in execs && execs[i].sub.machine == machine;
      while todo != {}
        invariant todo <= before.Keys && execs.Keys == before.Keys
        invariant forall i :: i in todo ==> before[i].sub.machine == machine && execs[i] == before[i]
        invariant forall i :: i in execs && i !in todo ==> execs[i] == Closing(before, machine)[i]
        decreases |todo|
      {
        var i :| i in todo;
        var found := execs[i];
        if !found.taken {
          found := found.(taken := true);
        }
        if found.outcome.Pending? {
          found := found.(outcome := Revoked);
        }
        execs := execs[i := found];
        todo := todo - {i};
      }
      assert execs == Closing(before, machine);
    }

    /** The command leaves the table and the queue; its slot stays held exactly when a host
        was handed it, has not reported and is not yet due. */
    method Release(now: real, id: Id)
      requires id in execs
      modifies this
      ensures State() == old(State()).Release(now, id)
    {
      var found := execs[id];
      var machine := found.sub.machine;
      execs := execs - {id};
      if machine in pending {
        pending := WithQueue(pending, machine, Without(pending[machine], id));
      }
      if found.handed.NotYet? || !found.outcome.Pending? {
        return;
      }
      if now < found.Due() {
        held := held[id := Mark(machine, found.Due())];
      }
    }
  }
}
