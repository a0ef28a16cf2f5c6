/** What the lease side of `server/inbound.py` answers after any run, said by the events alone:
    who polled last, how long ago, and what has been revoked or reported since. */
module LeaseAnswers {
  import opened Common
  import opened Dicts
  import opened Leases
  import opened LeaseRuns

  // ----------------------------------------------------------- the last word

  /** A poll of the session, or something that revokes its lease. */
  predicate About(op: Op, id: Id) {
    (op.Mark? || op.Forget? || op.Stop? || op.Retire?) && op.id == id
  }

  function LastWord(events: seq<Event>, id: Id): Option<Event> {
    if events == [] then None
    else if About(events[|events| - 1].op, id) then Some(events[|events| - 1])
    else LastWord(events[..|events| - 1], id)
  }

  /** The session's last poll, when nothing has revoked its lease since and it was made less
      than the lease's time ago. */
  function LastPoll(limits: Limits, events: seq<Event>, id: Id, now: real): (poll: Option<Event>)
    ensures poll.Some? ==> poll.value.op.Mark?
  {
    var word := LastWord(events, id);
    if word.Some? && word.value.op.Mark? && now < word.value.now + limits.ttl then word else None
  }

  ghost predicate UpTo(events: seq<Event>, now: real) {
    InTime(events) && forall i :: 0 <= i < |events| ==> events[i].now <= now
  }

  /** The lease is the one the poll made, but for the state reported since. */
  predicate MadeBy(lease: Lease, poll: Event, limits: Limits)
    requires poll.op.Mark?
  {
    && lease.expires == poll.now + limits.ttl && lease.account == poll.op.account
    && lease.where == poll.op.where.(state := lease.where.state)
  }

  /** A lease is there only as its last poll made it, and gone only revoked or expired. */
  ghost predicate Told(limits: Limits, leases: Table, word: Option<Event>, id: Id, now: real) {
    && (id in leases ==> word.Some? && word.value.op.Mark? && MadeBy(leases[id], word.value, limits))
    && (id !in leases && word.Some? && word.value.op.Mark? ==> word.value.now + limits.ttl <= now)
  }

  ghost predicate DropsOnly(before: Table, after: Table, id: Id, now: real) {
    && (id in after ==> id in before && after[id] == before[id].(where := before[id].where.(state := after[id].where.state)))
    && (id in before && id !in after ==> before[id].expires <= now)
  }

  lemma {:induction false} LooksDropOnly(b: Book, limits: Limits, x: Id, now: real, id: Id)
    ensures DropsOnly(b.leases, b.Looked(limits, x, now).leases, id, now)
    ensures DropsOnly(b.leases, b.Swept(limits, now).leases, id, now)
    ensures x != id ==> DropsOnly(b.leases, b.Revoked(limits, x, now).leases, id, now)
  {
    hide Noted, NotedAll, Without, Those;
  }

  lemma {:induction false} DropsOnlyExpired(b: Book, limits: Limits, op: Op, now: real, id: Id)
    requires !About(op, id)
    ensures DropsOnly(b.leases, b.Do(limits, op, now).0.leases, id, now)
  {
    hide PutLast, Get, Wanted, RunsThere, HoldsOff, Continued, RunOf, RetiresRun, PutRun;
    hide Book.Swept, Book.Looked, Book.Revoked, DropsOnly;
    LooksDropOnly(b, limits, match op case TakeGone => 0 case Active(_, _) => 0 case RunsOn(_, _) => 0 case _ => op.id, now, id);
    match op {
      case Mark(x, where, account) => OtherMark(b, limits, x, where, account, now, id);
      case Report(x, instance, state) => OtherReport(b, limits, x, instance, state, now, id);
      case _ => DropsNothing(b.leases, id, now);
    }
  }

  lemma {:induction false} DropsNothing(leases: Table, id: Id, now: real)
    ensures DropsOnly(leases, leases, id, now)
  {
  }

  lemma {:induction false} OtherMark(b: Book, limits: Limits, x: Id, where: Where, account: Option<string>, now: real, id: Id)
    requires x != id
    ensures DropsOnly(b.leases, b.Marked(limits, x, where, account, now).leases, id, now)
  {
    hide PutLast, Continued, Book.Swept, Book.Looked;
    LooksDropOnly(b, limits, x, now, id);
    LooksDropOnly(b.Renewed(limits, x, where, account, now), limits, x, now, id);
  }

  lemma {:induction false} OtherReport(b: Book, limits: Limits, x: Id, instance: string, state: string, now: real, id: Id)
    ensures DropsOnly(b.leases, b.Do(limits, Report(x, instance, state), now).0.leases, id, now)
  {
    hide Book.Revoked;
    LooksDropOnly(b, limits, x, now, id);
    LooksDropOnly(b, limits, x, now, x);
  }

  lemma {:induction false} LastWordTells(b: Book, limits: Limits, op: Op, now: real, id: Id)
    requires About(op, id)
    ensures Told(limits, b.Do(limits, op, now).0.leases, Some(Event(op, now)), id, now)
  {
    hide Noted, NotedAll, Without, Those, PutLast, Get, RunOf, RetiresRun, PutRun;
  }

  lemma {:induction false} ToldInRun(limits: Limits, events: seq<Event>, id: Id, now: real)
    requires UpTo(events, now)
    ensures Told(limits, BookOf(limits, events).leases, LastWord(events, id), id, now)
    decreases |events|
  {
    hide Book.Do;
    if events != [] {
      var init, ev := events[..|events| - 1], events[|events| - 1];
      BookSnoc(limits, events);
      ToldInRun(limits, init, id, ev.now);
      if About(ev.op, id) {
        LastWordTells(BookOf(limits, init), limits, ev.op, ev.now, id);
      } else {
        DropsOnlyExpired(BookOf(limits, init), limits, ev.op, ev.now, id);
      }
    }
  }

  /** After any run a session has a live lease exactly when its last poll is recent and not
      revoked, and it is that poll's. */
  lemma {:induction false} LiveIsLastPoll(limits: Limits, events: seq<Event>, id: Id, now: real)
    requires UpTo(events, now)
    ensures var live, poll := BookOf(limits, events).Live(id, now), LastPoll(limits, events, id, now);
            && (live.Some? <==> poll.Some?)
            && (live.Some? ==> MadeBy(live.value, poll.value, limits))
  {
    hide BookOf;
    ToldInRun(limits, events, id, now);
  }

  /** The table outgrows its limit by leases that still run alone. */
  lemma {:induction false} OnlyLiveLeasesPile(limits: Limits, events: seq<Event>, id: Id, where: Where, account: Option<string>, now: real)
    requires UpTo(events, now)
    ensures var b := BookOf(limits, events).Do(limits, Mark(id, where, account), now).0;
            |b.leases| > limits.maxLeases ==> forall x :: x in b.leases ==> b.leases[x].expires > now
  {
    hide BookOf, Noted, NotedAll, Without, Those, PutLast, Continued;
  }

  /** A lease that is revoked ended when it is, or as it expired, if it had. */
  lemma {:induction false} RevokedEnd(limits: Limits, events: seq<Event>, op: Op, id: Id, now: real)
    requires UpTo(events, now) && About(op, id) && !op.Mark? && id in BookOf(limits, events).leases && limits.maxGone > 0
    ensures LastWord(events, id).Some? && LastWord(events, id).value.op.Mark?
    ensures var b, poll := BookOf(limits, events).Do(limits, op, now).0, LastWord(events, id).value;
            var ends := poll.now + limits.ttl;
            poll.op.where.cli.Some? ==> Get(b.gone, id) == Some(if ends < now then ends else now)
  {
    hide BookOf, Without, PutRun, RetiresRun, RunOf, PutLast, Get;
    ToldInRun(limits, events, id, now);
    PutLastGet(BookOf(limits, events).gone, id, EndOf(BookOf(limits, events).leases[id], now), limits.maxGone);
  }

  lemma {:induction false} PutLastGet<V>(d: Dict<V>, id: Id, value: V, cap: nat)
    requires cap > 0
    ensures Get(PutLast(d, id, value, cap), id) == Some(value)
  {
    var all := Drop(d, id) + [Entry(id, value)];
    assert Newest(all, cap)[|Newest(all, cap)| - 1] == all[|all| - 1];
  }

  // ------------------------------------------------------------- who is held off

  /** The session's last retirement found this run, and is remembered. */
  predicate TurnedAway(limits: Limits, events: seq<Event>, id: Id, instance: string) {
    var retirements := Retirements(limits, events);
    Get(retirements, id) == Some(instance) && |Since(retirements, id)| < limits.maxRetired
  }

  /** After any run the run that polled last, while its lease lasts, drains its session, and
      every other run of its CLI is held off. A run of another CLI, and any run once the last
      poll named none, has expired or was revoked, is held off only when it was turned away. */
  lemma {:induction false} HeldIff(limits: Limits, events: seq<Event>, id: Id, cli: string, instance: string, now: real)
    requires UpTo(events, now)
    ensures var poll := LastPoll(limits, events, id, now);
            BookOf(limits, events).Do(limits, HeldBy(id, cli, instance), now).1
            == Held(TurnedAway(limits, events, id, instance)
                    || (poll.Some? && poll.value.op.where.cli == Some(cli)
                        && poll.value.op.where.instance.Some? && poll.value.op.where.instance != Some(instance)))
  {
    hide BookOf, Get, Since, Retirements, LastPoll, Book.Do;
    HeldByLive(limits, events, id, cli, instance, now);
    LiveIsLastPoll(limits, events, id, now);
  }

  // ------------------------------------------------------------- what a run reports

  /** What a session's run last said it is doing: idle from its first poll on, and kept while
      the same run polls in time. */
  function StateOf(limits: Limits, events: seq<Event>, id: Id): string {
    if events == [] then IDLE
    else
      var init, ev := events[..|events| - 1], events[|events| - 1];
      var before := LastPoll(limits, init, id, ev.now);
      if ev.op.Mark? && ev.op.id == id then
        if before.Some? && ev.op.where.instance.Some? && before.value.op.where.instance == ev.op.where.instance
        then StateOf(limits, init, id) else IDLE
      else if ev.op.Report? && ev.op.id == id && before.Some? && before.value.op.where.instance == Some(ev.op.instance)
      then ev.op.state
      else StateOf(limits, init, id)
  }

  lemma {:induction false} OtherState(b: Book, limits: Limits, op: Op, now: real, id: Id)
    requires id in b.Do(limits, op, now).0.leases && !About(op, id) && !(op.Report? && op.id == id)
    ensures id in b.leases && b.Do(limits, op, now).0.leases[id] == b.leases[id]
  {
    hide Noted, NotedAll, Without, Those, PutLast, Get, Wanted, RunsThere, HoldsOff, Continued, RunOf, RetiresRun, PutRun;
  }

  lemma {:induction false} MarkedState(b: Book, limits: Limits, op: Op, now: real)
    requires op.Mark? && op.id in b.Do(limits, op, now).0.leases
    ensures var live := b.Live(op.id, now);
            b.Do(limits, op, now).0.leases[op.id].where.state ==
            if live.Some? && op.where.instance.Some? && live.value.where.instance == op.where.instance
            then live.value.where.state else IDLE
  {
    hide Noted, NotedAll, Without, Those, PutLast, Get;
  }

  lemma {:induction false} ReportedState(b: Book, limits: Limits, op: Op, now: real)
    requires op.Report?
    ensures var live, c := b.Live(op.id, now), b.Do(limits, op, now).0;
            && b.Do(limits, op, now).1 == Kept(live.Some? && live.value.where.instance == Some(op.instance))
            && (op.id in c.leases ==>
                  && live.Some?
                  && c.leases[op.id].where.state ==
                     (if live.value.where.instance == Some(op.instance) then op.state else live.value.where.state))
  {
    hide Noted, Without;
  }

  lemma {:induction false} StateInRun(limits: Limits, events: seq<Event>, id: Id, now: real)
    requires UpTo(events, now) && id in BookOf(limits, events).leases
    ensures BookOf(limits, events).leases[id].where.state == StateOf(limits, events, id)
    decreases |events|
  {
    hide Book.Do, LastPoll;
    if events != [] {
      var init, ev := events[..|events| - 1], events[|events| - 1];
      var b := BookOf(limits, init);
      BookSnoc(limits, events);
      LiveIsLastPoll(limits, init, id, ev.now);
      if ev.op.Mark? && ev.op.id == id {
        MarkedState(b, limits, ev.op, ev.now);
        if b.Live(id, ev.now).Some? {
          StateInRun(limits, init, id, ev.now);
        }
      } else if ev.op.Report? && ev.op.id == id {
        ReportedState(b, limits, ev.op, ev.now);
        StateInRun(limits, init, id, ev.now);
      } else {
        RevokedIsGone(b, limits, ev.op, ev.now, id);
        OtherState(b, limits, ev.op, ev.now, id);
        StateInRun(limits, init, id, ev.now);
      }
    }
  }

  lemma {:induction false} RevokedIsGone(b: Book, limits: Limits, op: Op, now: real, id: Id)
    ensures About(op, id) && !op.Mark? ==> id !in b.Do(limits, op, now).0.leases
  {
    hide Noted, Without, PutLast, Get;
  }

  /** After any run `poller_run` answers the last poll's own words with the state reported
      since, and a report is kept exactly when it is by the run that polled last, in time. */
  lemma {:induction false} PollerAnswers(limits: Limits, events: seq<Event>, id: Id, now: real, instance: string, state: string)
    requires UpTo(events, now)
    ensures var b, poll := BookOf(limits, events), LastPoll(limits, events, id, now);
            && b.Do(limits, Poll(id), now).1
               == Ran(if poll.Some? then Some(poll.value.op.where.(state := StateOf(limits, events, id))) else None)
            && b.Do(limits, Report(id, instance, state), now).1
               == Kept(poll.Some? && poll.value.op.where.instance == Some(instance))
  {
    hide BookOf, LastPoll, StateOf;
    var b := BookOf(limits, events);
    LiveIsLastPoll(limits, events, id, now);
    ReportedState(b, limits, Report(id, instance, state), now);
    if b.Live(id, now).Some? {
      StateInRun(limits, events, id, now);
    }
  }

  // ---------------------------------------------------------------- the listings

  /** Two accounts are one but for the case of ASCII letters. */
  predicate SameLetter(a: char, b: char) {
    a == b || ('A' <= a <= 'Z' && b as int == a as int + 32) || ('A' <= b <= 'Z' && a as int == b as int + 32)
  }

  ghost predicate SameInAnyCase(a: string, b: string) {
    |a| == |b| && forall i :: 0 <= i < |a| ==> SameLetter(a[i], b[i])
  }

  lemma {:induction false} LowerSame(a: string, b: string)
    ensures Lower(a) == Lower(b) <==> SameInAnyCase(a, b)
  {
    if Lower(a) == Lower(b) {
      assert |Lower(a)| == |a| && |Lower(b)| == |b|;
      forall i | 0 <= i < |a|
        ensures SameLetter(a[i], b[i])
      {
        assert Lower(a)[i] == Lower(b)[i];
      }
    }
  }

  /** After any run the listings have exactly the sessions whose last poll is recent, not
      revoked, and of the CLI, machine and account asked for. */
  lemma {:induction false} ListedIff(limits: Limits, events: seq<Event>, id: Id, now: real, cli: Option<string>,
                                     account: Option<string>, machine: string, owner: string)
    requires UpTo(events, now)
    ensures var b, poll := BookOf(limits, events), LastPoll(limits, events, id, now);
            var active, runs := b.Do(limits, Active(cli, account), now).1, b.Do(limits, RunsOn(machine, owner), now).1;
            && active.Polled? && runs.Runs?
            && (id in active.polled <==>
                  && poll.Some? && (cli.None? || poll.value.op.where.cli == cli)
                  && (account.None? || SameInAnyCase(if poll.value.op.account.Some? then poll.value.op.account.value else "",
                                                     account.value)))
            && (id in runs.runs <==>
                  && poll.Some? && poll.value.op.where.cli.Some? && poll.value.op.where.machine == Some(machine)
                  && poll.value.op.account.Some? && SameInAnyCase(poll.value.op.account.value, owner))
            && (id in runs.runs ==> runs.runs[id] == poll.value.op.where.(state := StateOf(limits, events, id)))
  {
    hide BookOf, LastPoll, StateOf, Lower, SameInAnyCase, NotedAll, Those;
    var b, poll := BookOf(limits, events), LastPoll(limits, events, id, now);
    LiveIsLastPoll(limits, events, id, now);
    assert id in b.Swept(limits, now).leases <==> b.Live(id, now).Some?;
    if b.Live(id, now).Some? {
      StateInRun(limits, events, id, now);
      var lease := b.leases[id];
      LowerSame(if lease.account.Some? then lease.account.value else "", if account.Some? then account.value else "");
      LowerSame("", if account.Some? then account.value else "");
      LowerSame(if lease.account.Some? then lease.account.value else "", owner);
      EmptyLower();
    }
  }

  lemma {:induction false} EmptyLower()
    ensures Lower("") == ""
  {
  }
}
