/** The queues, receipts and held polls of `server/inbound.py`. Everything inside one
    `with self._lock` is one step, as is each callback the event loop runs. */
module Mailbox {
  import opened Common

  type Session = nat

  /** An idempotency key: one a caller chose, or the one a change's push to a subscriber has. */
  datatype Key = Client(id: nat) | Change(change: nat, subscriber: nat)

  type HoldId = nat

  datatype Inbound = Inbound(text: string, kind: string, source: Option<string>, room: Option<string>)

  datatype Target = Target(session: Session, message: Inbound)

  datatype Receipt = Receipt(delivered: seq<Session>, fingerprint: string, source: Option<string>)

  datatype Kept = Kept(key: Key, receipt: Receipt)

  /** What a send answers: the sessions enqueued to, or that the key was used for another. */
  datatype Answer = Delivered(sessions: seq<Session>) | Reused

  /** Where an `await_messages` stands. It has a waiter from `Registered` to `Leaving`. */
  datatype Phase = Registered | Parked | Leaving(woke: bool) | Waking | Done

  /** One `await_messages`, with its waiter: `scheduled` is a wake-up its loop has not run. */
  datatype Hold = Hold(session: Session, phase: Phase, event: bool, scheduled: bool, released: bool,
                       first: seq<Inbound>, result: seq<Inbound>)
  {
    predicate Waits() {
      phase == Registered || phase == Parked || phase.Leaving?
    }
  }

  datatype Step =
    | Enqueue(session: Session, message: Inbound)
    | Send(key: Option<Key>, targets: seq<Target>, fingerprint: string)
    | Take(session: Session)
    | Revoke(session: Session)
    | Open(hold: HoldId, session: Session)
    | FirstDrain(hold: HoldId)
    | Callback(hold: HoldId)
    | Wake(hold: HoldId)
    | TimeOut(hold: HoldId)
    | Unregister(hold: HoldId)
    | LastDrain(hold: HoldId)

  datatype Limits = Limits(maxPerSession: nat, maxSeenKeys: nat)

  function Find(seen: seq<Kept>, key: Key): Option<Receipt> {
    if seen == [] then None
    else if seen[|seen| - 1].key == key then Some(seen[|seen| - 1].receipt)
    else Find(seen[..|seen| - 1], key)
  }

  function Sessions(targets: seq<Target>): seq<Session> {
    if targets == [] then [] else Sessions(targets[..|targets| - 1]) + [targets[|targets| - 1].session]
  }

  datatype Mail = Mail(queues: map<Session, seq<Inbound>>, seen: seq<Kept>, holds: map<HoldId, Hold>) {

    function Pending(s: Session): seq<Inbound> {
      if s in queues then queues[s] else []
    }

    /** `_wake`: every waiter of the session, each on its own loop. */
    function Woken(s: Session): map<HoldId, Hold> {
      map h | h in holds ::
        if holds[h].session == s && holds[h].Waits() then holds[h].(scheduled := true) else holds[h]
    }

    /** `_append_capped` */
    function Appended(limits: Limits, s: Session, message: Inbound): Mail {
      this.(queues := queues[s := Newest(Pending(s) + [message], limits.maxPerSession)], holds := Woken(s))
    }

    function AppendedAll(limits: Limits, targets: seq<Target>): Mail
      decreases |targets|
    {
      if targets == [] then this
      else
        var last := targets[|targets| - 1];
        AppendedAll(limits, targets[..|targets| - 1]).Appended(limits, last.session, last.message)
    }

    /** `send_once` */
    function Sent(limits: Limits, key: Option<Key>, targets: seq<Target>, fingerprint: string): (Mail, Answer) {
      if key.Some? && Find(seen, key.value).Some? then
        var kept := Find(seen, key.value).value;
        (this, if kept.fingerprint == fingerprint then Delivered(kept.delivered) else Reused)
      else
        var m := AppendedAll(limits, targets);
        (if key.Some? && targets != [] then
           m.(seen := Newest(m.seen + [Kept(key.value, Receipt(Sessions(targets), fingerprint, targets[0].message.source))],
                             limits.maxSeenKeys))
         else m,
         Delivered(Sessions(targets)))
    }

    function Emptied(s: Session): Mail {
      this.(queues := queues - {s})
    }

    /** `_revoke`, its lease apart: the session's holds are to end taking nothing. */
    function Revoked(s: Session): Mail {
      this.(holds := map h | h in holds ::
                       if holds[h].session == s && holds[h].Waits() then holds[h].(released := true, scheduled := true)
                       else holds[h])
    }

    function With(h: HoldId, hold: Hold): Mail {
      this.(holds := holds[h := hold])
    }

    function HoldStep(h: HoldId, step: Step): Mail
      requires h in holds
    {
      var hold := holds[h];
      match step
      case FirstDrain(_) =>
        if hold.phase != Registered then this
        else
          var found := Pending(hold.session);
          if found == [] then Emptied(hold.session).With(h, hold.(phase := Parked))
          else Emptied(hold.session).With(h, hold.(phase := Leaving(false), first := found, result := found))
      case Callback(_) =>
        if hold.scheduled then With(h, hold.(scheduled := false, event := true)) else this
      case Wake(_) =>
        if hold.phase == Parked && hold.event then With(h, hold.(phase := Leaving(true))) else this
      case TimeOut(_) =>
        if hold.phase == Parked then With(h, hold.(phase := Leaving(false))) else this
      case Unregister(_) =>
        if hold.phase.Leaving? then With(h, hold.(phase := if hold.phase.woke then Waking else Done)) else this
      case LastDrain(_) =>
        if hold.phase != Waking then this
        else if hold.released then With(h, hold.(phase := Done))
        else Emptied(hold.session).With(h, hold.(phase := Done, result := Pending(hold.session)))
      case _ => this
    }

    function Do(limits: Limits, step: Step): Mail {
      match step
      case Enqueue(s, message) => Appended(limits, s, message)
      case Send(key, targets, fingerprint) => Sent(limits, key, targets, fingerprint).0
      case Take(s) => Emptied(s)
      case Revoke(s) => Revoked(s)
      case Open(h, s) => if h in holds then this else With(h, Hold(s, Registered, false, false, false, [], []))
      case _ => if step.hold in holds then HoldStep(step.hold, step) else this
    }
  }

  // ------------------------------------------------------- what a session is sent

  /** What the targets put in one session's queue, in order. */
  function For(targets: seq<Target>, s: Session): seq<Inbound> {
    if targets == [] then []
    else For(targets[..|targets| - 1], s) +
         if targets[|targets| - 1].session == s then [targets[|targets| - 1].message] else []
  }

  /** What a step appends to one session's queue. */
  function Arrives(m: Mail, step: Step, s: Session): seq<Inbound> {
    match step
    case Enqueue(t, message) => if t == s then [message] else []
    case Send(key, targets, _) => if key.Some? && Find(m.seen, key.value).Some? then [] else For(targets, s)
    case _ => []
  }

  /** Whether a step drains one session's queue, and what it takes. */
  predicate Drains(m: Mail, step: Step, s: Session) {
    match step
    case Take(t) => t == s
    case FirstDrain(h) => h in m.holds && m.holds[h].session == s && m.holds[h].phase == Registered
    case LastDrain(h) => h in m.holds && m.holds[h].session == s && m.holds[h].phase == Waking && !m.holds[h].released
    case _ => false
  }

  /** The mail with one session's history: what came since its last drain, and for each
      drain before that what had come since the one before and what it took. */
  datatype System = System(mail: Mail, since: seq<Inbound>, came: seq<seq<Inbound>>, taken: seq<seq<Inbound>>) {
    function Do(limits: Limits, s: Session, step: Step): System {
      var next := mail.Do(limits, step);
      if Drains(mail, step, s) then System(next, [], came + [since], taken + [mail.Pending(s)])
      else System(next, since + Arrives(mail, step, s), came, taken)
    }
  }

  const NOTHING := Mail(map[], [], map[])

  function Run(limits: Limits, s: Session, steps: seq<Step>): System
    decreases |steps|
  {
    if steps == [] then System(NOTHING, [], [], [])
    else Run(limits, s, steps[..|steps| - 1]).Do(limits, s, steps[|steps| - 1])
  }

  ghost predicate QueueOk(sys: System, limits: Limits, s: Session) {
    && sys.mail.Pending(s) == Newest(sys.since, limits.maxPerSession)
    && |sys.came| == |sys.taken|
    && forall i :: 0 <= i < |sys.taken| ==> sys.taken[i] == Newest(sys.came[i], limits.maxPerSession)
  }

  lemma {:induction false} NewestTwice<T>(s: seq<T>, more: seq<T>, cap: nat)
    ensures Newest(Newest(s, cap) + more, cap) == Newest(s + more, cap)
  {
  }

  lemma {:induction false} AppendedAllQueue(m: Mail, limits: Limits, targets: seq<Target>, s: Session)
    requires |m.Pending(s)| <= limits.maxPerSession
    ensures var n := m.AppendedAll(limits, targets);
            n.Pending(s) == Newest(m.Pending(s) + For(targets, s), limits.maxPerSession) && n.seen == m.seen
    decreases |targets|
  {
    if targets == [] {
      assert m.Pending(s) + [] == m.Pending(s);
    } else {
      var init, last := targets[..|targets| - 1], targets[|targets| - 1];
      AppendedAllQueue(m, limits, init, s);
      if last.session == s {
        NewestTwice(m.Pending(s) + For(init, s), [last.message], limits.maxPerSession);
        assert m.Pending(s) + For(init, s) + [last.message] == m.Pending(s) + For(targets, s);
      } else {
        assert For(targets, s) == For(init, s);
      }
    }
  }

  /** A step's effect on one session's queue. */
  lemma {:induction false} StepQueue(m: Mail, limits: Limits, step: Step, s: Session)
    requires |m.Pending(s)| <= limits.maxPerSession
    ensures m.Do(limits, step).Pending(s) ==
            if Drains(m, step, s) then [] else Newest(m.Pending(s) + Arrives(m, step, s), limits.maxPerSession)
  {
    assert m.Pending(s) + [] == m.Pending(s);
    if step.Send? {
      AppendedAllQueue(m, limits, step.targets, s);
    }
  }

  lemma {:induction false} QueueKept(sys: System, limits: Limits, s: Session, step: Step)
    requires QueueOk(sys, limits, s)
    ensures QueueOk(sys.Do(limits, s, step), limits, s)
  {
    hide Mail.Do, Drains, Arrives;
    StepQueue(sys.mail, limits, step, s);
    NewestTwice(sys.since, Arrives(sys.mail, step, s), limits.maxPerSession);
  }

  /** A session's queue is the newest messages that came since its last drain, in order, up
      to the cap; and every drain took just that. */
  lemma {:induction false} QueueIsNewest(limits: Limits, s: Session, steps: seq<Step>)
    ensures QueueOk(Run(limits, s, steps), limits, s)
    decreases |steps|
  {
    hide Mail.Do, System.Do;
    if steps != [] {
      QueueIsNewest(limits, s, steps[..|steps| - 1]);
      QueueKept(Run(limits, s, steps[..|steps| - 1]), limits, s, steps[|steps| - 1]);
    }
  }

  // ------------------------------------------------------------- no lost wake-up

  ghost predicate HoldOk(m: Mail, h: HoldId)
    requires h in m.holds
  {
    var hold := m.holds[h];
    && (hold.phase == Parked && !hold.event && !hold.scheduled ==> m.Pending(hold.session) == [])
    && (hold.phase in {Registered, Parked, Leaving(true), Waking} ==> hold.first == [] && hold.result == [])
    && (hold.phase == Leaving(false) ==> hold.result == hold.first)
    && (hold.phase == Done && hold.released ==> hold.result == hold.first)
  }

  ghost predicate HoldsOk(m: Mail) {
    forall h :: h in m.holds ==> HoldOk(m, h)
  }

  lemma {:induction false} AppendedHolds(m: Mail, limits: Limits, s: Session, message: Inbound)
    requires HoldsOk(m)
    ensures HoldsOk(m.Appended(limits, s, message))
  {
  }

  lemma {:induction false} AppendedAllHolds(m: Mail, limits: Limits, targets: seq<Target>)
    requires HoldsOk(m)
    ensures HoldsOk(m.AppendedAll(limits, targets))
    decreases |targets|
  {
    hide HoldsOk, Mail.Appended;
    if targets != [] {
      var last := targets[|targets| - 1];
      AppendedAllHolds(m, limits, targets[..|targets| - 1]);
      AppendedHolds(m.AppendedAll(limits, targets[..|targets| - 1]), limits, last.session, last.message);
    }
  }

  lemma {:induction false} HoldStepHolds(m: Mail, h: HoldId, step: Step)
    requires HoldsOk(m) && h in m.holds
    ensures HoldsOk(m.HoldStep(h, step))
  {
    var n := m.HoldStep(h, step);
    assert HoldOk(m, h);
    forall x | x in n.holds
      ensures HoldOk(n, x)
    {
      assert HoldOk(m, x);
    }
  }

  lemma {:induction false} StepHolds(m: Mail, limits: Limits, step: Step)
    requires HoldsOk(m)
    ensures HoldsOk(m.Do(limits, step))
  {
    hide HoldsOk, Mail.HoldStep, Mail.Appended, Mail.AppendedAll;
    match step {
      case Enqueue(s, message) => AppendedHolds(m, limits, s, message);
      case Send(key, targets, fingerprint) =>
        AppendedAllHolds(m, limits, targets);
        SeenHolds(m.AppendedAll(limits, targets), m.Sent(limits, key, targets, fingerprint).0.seen);
      case Take(s) => TakeHolds(m, s);
      case Revoke(s) => RevokeHolds(m, s);
      case Open(h, s) =>
        if h !in m.holds {
          OpenHolds(m, h, s);
        }
      case _ =>
        if step.hold in m.holds {
          HoldStepHolds(m, step.hold, step);
        }
    }
  }

  lemma {:induction false} SeenHolds(m: Mail, seen: seq<Kept>)
    requires HoldsOk(m)
    ensures HoldsOk(m.(seen := seen))
  {
    forall h | h in m.holds
      ensures HoldOk(m.(seen := seen), h)
    {
      assert HoldOk(m, h);
    }
  }

  lemma {:induction false} TakeHolds(m: Mail, s: Session)
    requires HoldsOk(m)
    ensures HoldsOk(m.Emptied(s))
  {
    forall h | h in m.holds
      ensures HoldOk(m.Emptied(s), h)
    {
      assert HoldOk(m, h);
    }
  }

  lemma {:induction false} RevokeHolds(m: Mail, s: Session)
    requires HoldsOk(m)
    ensures HoldsOk(m.Revoked(s))
  {
    forall h | h in m.holds
      ensures HoldOk(m.Revoked(s), h)
    {
      assert HoldOk(m, h);
    }
  }

  lemma {:induction false} OpenHolds(m: Mail, h: HoldId, s: Session)
    requires HoldsOk(m) && h !in m.holds
    ensures HoldsOk(m.With(h, Hold(s, Registered, false, false, false, [], [])))
  {
    var n := m.With(h, Hold(s, Registered, false, false, false, [], []));
    forall x | x in n.holds
      ensures HoldOk(n, x)
    {
      if x != h {
        assert HoldOk(m, x);
      }
    }
  }

  lemma {:induction false} RunHolds(limits: Limits, s: Session, steps: seq<Step>)
    ensures HoldsOk(Run(limits, s, steps).mail)
    decreases |steps|
  {
    hide Mail.Do, HoldsOk;
    if steps == [] {
      NoHolds();
    } else {
      RunHolds(limits, s, steps[..|steps| - 1]);
      StepHolds(Run(limits, s, steps[..|steps| - 1]).mail, limits, steps[|steps| - 1]);
    }
  }

  lemma {:induction false} NoHolds()
    ensures HoldsOk(NOTHING)
  {
  }

  /** A parked hold whose event is not set, and for which no wake-up is on its way, has
      nothing to wake for. */
  lemma {:induction false} NoWakeupIsLost(limits: Limits, s: Session, steps: seq<Step>, h: HoldId)
    requires h in Run(limits, s, steps).mail.holds
    requires Run(limits, s, steps).mail.holds[h].phase == Parked
    requires Run(limits, s, steps).mail.Pending(Run(limits, s, steps).mail.holds[h].session) != []
    ensures Run(limits, s, steps).mail.holds[h].event || Run(limits, s, steps).mail.holds[h].scheduled
  {
    RunHolds(limits, s, steps);
    assert HoldOk(Run(limits, s, steps).mail, h);
  }

  // ------------------------------------------------------------- revoked holds

  /** The mail after some more steps. */
  function Later(m: Mail, limits: Limits, steps: seq<Step>): Mail
    decreases |steps|
  {
    if steps == [] then m else Later(m.Do(limits, steps[0]), limits, steps[1..])
  }

  /** The hold has a look at the queue ahead of it that a revocation does not stop: its
      first, or its last once its waiter is gone. */
  predicate StillLooks(hold: Hold) {
    hold.phase == Registered || (hold.phase == Waking && !hold.released)
  }

  predicate Looks(m: Mail, step: Step, h: HoldId) {
    && h in m.holds
    && ((step == FirstDrain(h) && m.holds[h].phase == Registered)
        || (step == LastDrain(h) && m.holds[h].phase == Waking && !m.holds[h].released))
  }

  /** What is queued when the hold next looks. */
  function NextLook(m: Mail, limits: Limits, steps: seq<Step>, h: HoldId): seq<Inbound>
    decreases |steps|
  {
    if steps == [] then []
    else if Looks(m, steps[0], h) then m.Pending(m.holds[h].session)
    else NextLook(m.Do(limits, steps[0]), limits, steps[1..], h)
  }

  /** Nothing the hold still does can take a message. */
  predicate Settled(hold: Hold) {
    hold.phase in {Done, Leaving(false)} || (hold.released && hold.phase in {Parked, Leaving(true), Waking})
  }

  predicate SameHold(a: Hold, b: Hold) {
    && b.session == a.session && b.phase == a.phase && b.first == a.first && b.result == a.result
    && (a.released ==> b.released) && (!a.Waits() ==> b.released == a.released)
  }

  predicate KeepsHold(m: Mail, n: Mail, h: HoldId)
    requires h in m.holds
  {
    h in n.holds && SameHold(m.holds[h], n.holds[h])
  }

  lemma {:induction false} AppendedAllKeepsHold(m: Mail, limits: Limits, targets: seq<Target>, h: HoldId)
    requires h in m.holds
    ensures KeepsHold(m, m.AppendedAll(limits, targets), h)
    decreases |targets|
  {
    if targets != [] {
      AppendedAllKeepsHold(m, limits, targets[..|targets| - 1], h);
    }
  }

  predicate OwnStep(step: Step, h: HoldId) {
    step in {FirstDrain(h), Wake(h), TimeOut(h), Unregister(h), LastDrain(h)}
  }

  /** What others do leaves a hold where it is, and what it took. */
  lemma {:induction false} OthersKeepHold(m: Mail, limits: Limits, step: Step, h: HoldId)
    requires h in m.holds && !OwnStep(step, h)
    ensures KeepsHold(m, m.Do(limits, step), h)
  {
    hide Mail.AppendedAll, Find;
    if step.Send? {
      AppendedAllKeepsHold(m, limits, step.targets, h);
    }
  }

  lemma {:induction false} SettledStep(m: Mail, limits: Limits, step: Step, h: HoldId)
    requires h in m.holds && Settled(m.holds[h])
    ensures var n := m.Do(limits, step);
            h in n.holds && Settled(n.holds[h]) && n.holds[h].result == m.holds[h].result
  {
    hide Mail.AppendedAll, Mail.Appended, Find;
    if !OwnStep(step, h) {
      OthersKeepHold(m, limits, step, h);
    }
  }

  lemma {:induction false} SettledTakesNothing(m: Mail, limits: Limits, steps: seq<Step>, h: HoldId)
    requires h in m.holds && Settled(m.holds[h])
    ensures var n := Later(m, limits, steps); h in n.holds && n.holds[h].result == m.holds[h].result
    decreases |steps|
  {
    hide Mail.Do, Settled;
    if steps != [] {
      SettledStep(m, limits, steps[0], h);
      SettledTakesNothing(m.Do(limits, steps[0]), limits, steps[1..], h);
    }
  }

  /** A look takes all there is, and nothing is taken after it. */
  lemma {:induction false} LookSettles(m: Mail, limits: Limits, step: Step, h: HoldId)
    requires Looks(m, step, h) && m.holds[h].result == [] && (m.holds[h].phase == Registered ==> m.holds[h].released)
    ensures var n := m.Do(limits, step);
            h in n.holds && Settled(n.holds[h]) && n.holds[h].result == m.Pending(m.holds[h].session)
  {
  }

  lemma {:induction false} NotYet(m: Mail, limits: Limits, step: Step, h: HoldId)
    requires h in m.holds && StillLooks(m.holds[h]) && !Looks(m, step, h)
    ensures KeepsHold(m, m.Do(limits, step), h)
  {
    hide Mail.AppendedAll, Mail.Appended, Find;
    if !OwnStep(step, h) {
      OthersKeepHold(m, limits, step, h);
    }
  }

  lemma {:induction false} LookerTakes(m: Mail, limits: Limits, steps: seq<Step>, h: HoldId)
    requires h in m.holds && StillLooks(m.holds[h]) && m.holds[h].result == []
    requires m.holds[h].phase == Registered ==> m.holds[h].released
    ensures var n := Later(m, limits, steps);
            h in n.holds && (n.holds[h].phase == Done ==> n.holds[h].result == NextLook(m, limits, steps, h))
    decreases |steps|
  {
    hide Mail.Do, Settled, Looks;
    if steps != [] {
      if Looks(m, steps[0], h) {
        LookSettles(m, limits, steps[0], h);
        SettledTakesNothing(m.Do(limits, steps[0]), limits, steps[1..], h);
      } else {
        NotYet(m, limits, steps[0], h);
        LookerTakes(m.Do(limits, steps[0]), limits, steps[1..], h);
      }
    }
  }

  /** A hold whose session is revoked takes nothing more exactly when no look is ahead of it,
      or nothing is queued at that look. One that is parked, or has just been woken, has
      none; one that has only registered has its first, and one whose waiter is gone its
      last. What such a look finds is what the hold comes back with. */
  lemma {:induction false} RevokedTakesNothingIff(limits: Limits, s: Session, before: seq<Step>, h: HoldId, after: seq<Step>)
    requires h in Run(limits, s, before).mail.holds
    requires var m := Run(limits, s, before).mail;
             var n := Later(m.Do(limits, Revoke(m.holds[h].session)), limits, after);
             h in n.holds && n.holds[h].phase == Done
    ensures var m := Run(limits, s, before).mail;
            var revoked := m.Do(limits, Revoke(m.holds[h].session));
            var hold, end := m.holds[h], Later(revoked, limits, after).holds[h];
            && end.result == (if StillLooks(hold) then NextLook(revoked, limits, after, h) else hold.result)
            && (end.result == hold.result <==> !StillLooks(hold) || NextLook(revoked, limits, after, h) == [])
            && (hold.phase in {Parked, Leaving(true)} ==> hold.result == [])
  {
    hide Mail.AppendedAll, Mail.HoldStep, Later, NextLook;
    RunHolds(limits, s, before);
    var m := Run(limits, s, before).mail;
    assert HoldOk(m, h);
    var revoked := m.Do(limits, Revoke(m.holds[h].session));
    if StillLooks(m.holds[h]) {
      LookerTakes(revoked, limits, after, h);
    } else {
      SettledTakesNothing(revoked, limits, after, h);
    }
  }

  /** A revoked hold that has not looked yet does look, and takes what is queued. */
  lemma {:induction false} RevokedBeforeLookTakes(m: Mail, limits: Limits, h: HoldId)
    requires h in m.holds && m.holds[h].phase == Registered && m.Pending(m.holds[h].session) != []
    ensures var n := m.Do(limits, Revoke(m.holds[h].session)).Do(limits, FirstDrain(h)).Do(limits, Unregister(h));
            && n.holds[h].phase == Done && n.holds[h].released
            && n.holds[h].result == m.Pending(m.holds[h].session)
  {
  }

  function OneHold(queues: map<Session, seq<Inbound>>, phase: Phase, event: bool, scheduled: bool): Mail {
    Mail(queues, [], map[0 := Hold(1, phase, event, scheduled, false, [], [])])
  }

  /** So does one revoked once its waiter is gone, just before it looks again. */
  lemma {:induction false} RevokedAfterReleaseTakes(limits: Limits, x: Inbound)
    requires limits.maxPerSession > 0
    ensures var parked := NOTHING.Do(limits, Open(0, 1)).Do(limits, FirstDrain(0));
            var woken := parked.Do(limits, Enqueue(1, x)).Do(limits, Callback(0)).Do(limits, Wake(0)).Do(limits, Unregister(0));
            var n := woken.Do(limits, Revoke(1)).Do(limits, LastDrain(0));
            && 0 in parked.holds && parked.holds[0].phase == Parked
            && 0 in n.holds && n.holds[0].phase == Done && n.holds[0].result == [x]
  {
    hide Mail.Do;
    var queued := map[1 := [x]];
    ParksEmpty(limits);
    SentToParked(limits, x);
    WokenByOne(limits, queued);
    RevokedTooLate(limits, queued);
  }

  lemma {:induction false} ParksEmpty(limits: Limits)
    ensures NOTHING.Do(limits, Open(0, 1)).Do(limits, FirstDrain(0)) == OneHold(map[], Parked, false, false)
  {
    var started := NOTHING.Do(limits, Open(0, 1));
    assert started == OneHold(map[], Registered, false, false);
    assert started.Emptied(1).queues == map[];
  }

  lemma {:induction false} SentToParked(limits: Limits, x: Inbound)
    requires limits.maxPerSession > 0
    ensures OneHold(map[], Parked, false, false).Do(limits, Enqueue(1, x)) == OneHold(map[1 := [x]], Parked, false, true)
  {
    var parked := OneHold(map[], Parked, false, false);
    assert parked.Pending(1) + [x] == [x];
    assert parked.Woken(1) == OneHold(map[], Parked, false, true).holds;
  }

  lemma {:induction false} WokenByOne(limits: Limits, queues: map<Session, seq<Inbound>>)
    ensures OneHold(queues, Parked, false, true).Do(limits, Callback(0)).Do(limits, Wake(0)).Do(limits, Unregister(0))
            == OneHold(queues, Waking, true, false)
  {
    var called := OneHold(queues, Parked, false, true).Do(limits, Callback(0));
    assert called == OneHold(queues, Parked, true, false);
    assert called.Do(limits, Wake(0)) == OneHold(queues, Leaving(true), true, false);
  }

  lemma {:induction false} RevokedTooLate(limits: Limits, queues: map<Session, seq<Inbound>>)
    requires 1 in queues
    ensures var n := OneHold(queues, Waking, true, false).Do(limits, Revoke(1)).Do(limits, LastDrain(0));
            0 in n.holds && n.holds[0].phase == Done && n.holds[0].result == queues[1]
  {
    var woken := OneHold(queues, Waking, true, false);
    assert woken.Do(limits, Revoke(1)).holds == woken.holds;
  }

  // ------------------------------------------------------------------- receipts

  /** Whether the send is carried out and remembered, and what is remembered. */
  predicate Recorded(m: Mail, step: Step) {
    step.Send? && step.key.Some? && step.targets != [] && Find(m.seen, step.key.value).None?
  }

  function RecordOf(step: Step): Kept
    requires step.Send? && step.key.Some? && step.targets != []
  {
    Kept(step.key.value, Receipt(Sessions(step.targets), step.fingerprint, step.targets[0].message.source))
  }

  /** Every send that was carried out under a key, in order. */
  function Records(limits: Limits, s: Session, steps: seq<Step>): seq<Kept>
    decreases |steps|
  {
    if steps == [] then []
    else
      var m, last := Run(limits, s, steps[..|steps| - 1]).mail, steps[|steps| - 1];
      Records(limits, s, steps[..|steps| - 1]) + if Recorded(m, last) then [RecordOf(last)] else []
  }

  lemma {:induction false} AppendedAllSeen(m: Mail, limits: Limits, targets: seq<Target>)
    ensures m.AppendedAll(limits, targets).seen == m.seen
    decreases |targets|
  {
    if targets != [] {
      AppendedAllSeen(m, limits, targets[..|targets| - 1]);
    }
  }

  lemma {:induction false} StepSeen(m: Mail, limits: Limits, step: Step)
    ensures m.Do(limits, step).seen ==
            if Recorded(m, step) then Newest(m.seen + [RecordOf(step)], limits.maxSeenKeys) else m.seen
  {
    if step.Send? {
      AppendedAllSeen(m, limits, step.targets);
    }
  }

  /** The receipts kept are those of the newest sends carried out, up to the cap. */
  lemma {:induction false} SeenIsNewest(limits: Limits, s: Session, steps: seq<Step>)
    ensures Run(limits, s, steps).mail.seen == Newest(Records(limits, s, steps), limits.maxSeenKeys)
    decreases |steps|
  {
    hide Mail.Do, Find;
    if steps != [] {
      var init, last := steps[..|steps| - 1], steps[|steps| - 1];
      SeenIsNewest(limits, s, init);
      var m := Run(limits, s, init).mail;
      StepSeen(m, limits, last);
      if Recorded(m, last) {
        NewestTwice(Records(limits, s, init), [RecordOf(last)], limits.maxSeenKeys);
      } else {
        assert Records(limits, s, init) + [] == Records(limits, s, init);
      }
    }
  }

  /** A key's send is carried out again only once its receipt has been pushed out: between
      two that are, at least as many others were as receipts are kept. */
  lemma {:induction false} CarriedOutOnce(limits: Limits, s: Session, steps: seq<Step>, i: nat, j: nat)
    requires i < j < |Records(limits, s, steps)|
    requires Records(limits, s, steps)[i].key == Records(limits, s, steps)[j].key
    ensures j - i > limits.maxSeenKeys
    decreases |steps|
  {
    hide Recorded, Mail.Do;
    var init, last := steps[..|steps| - 1], steps[|steps| - 1];
    var all := Records(limits, s, init);
    if j < |all| {
      CarriedOutOnce(limits, s, init, i, j);
    } else {
      SeenIsNewest(limits, s, init);
      if |all| - i <= limits.maxSeenKeys {
        NewestHas(all, limits.maxSeenKeys, i);
        FindSome(Newest(all, limits.maxSeenKeys), all[i]);
      }
      NewRecord(Run(limits, s, init).mail, last, all[i].key);
    }
  }

  lemma {:induction false} NewestHas<T>(s: seq<T>, cap: nat, i: nat)
    requires |s| - cap <= i < |s|
    ensures s[i] in Newest(s, cap)
  {
    if |s| > cap {
      assert Newest(s, cap)[i - (|s| - cap)] == s[i];
    }
  }

  lemma {:induction false} FindSome(seen: seq<Kept>, kept: Kept)
    requires kept in seen
    ensures Find(seen, kept.key).Some?
    decreases |seen|
  {
    if seen[|seen| - 1].key != kept.key {
      assert seen == seen[..|seen| - 1] + [seen[|seen| - 1]];
      FindSome(seen[..|seen| - 1], kept);
    }
  }

  lemma {:induction false} NewRecord(m: Mail, step: Step, key: Key)
    ensures Recorded(m, step) && RecordOf(step).key == key ==> Find(m.seen, key).None?
  {
  }

  lemma {:induction false} RecordsGrow(limits: Limits, s: Session, a: seq<Step>, b: seq<Step>)
    ensures |Records(limits, s, a)| <= |Records(limits, s, a + b)|
    ensures Records(limits, s, a + b)[..|Records(limits, s, a)|] == Records(limits, s, a)
    decreases |b|
  {
    if b == [] {
      assert a + b == a;
    } else {
      assert (a + b)[..|a + b| - 1] == a + b[..|b| - 1];
      RecordsGrow(limits, s, a, b[..|b| - 1]);
    }
  }

  lemma {:induction false} FindIs(seen: seq<Kept>, kept: Kept)
    requires kept in seen && forall k :: k in seen && k.key == kept.key ==> k == kept
    ensures Find(seen, kept.key) == Some(kept.receipt)
    decreases |seen|
  {
    var last := seen[|seen| - 1];
    assert last in seen;
    if last.key != kept.key {
      assert seen == seen[..|seen| - 1] + [last];
      FindIs(seen[..|seen| - 1], kept);
    }
  }

  lemma {:induction false} FoundIn(seen: seq<Kept>, key: Key)
    requires Find(seen, key).Some?
    ensures exists k :: k in seen && k.key == key
    decreases |seen|
  {
    var last := seen[|seen| - 1];
    if last.key == key {
      assert last in seen;
    } else {
      FoundIn(seen[..|seen| - 1], key);
    }
  }

  /** A send among the newest that were carried out has its receipt kept. */
  lemma {:induction false} RecordFound(limits: Limits, s: Session, steps: seq<Step>, i: nat)
    requires i < |Records(limits, s, steps)| && |Records(limits, s, steps)| - i <= limits.maxSeenKeys
    ensures var kept := Records(limits, s, steps)[i];
            Find(Run(limits, s, steps).mail.seen, kept.key) == Some(kept.receipt)
  {
    hide Records, Run;
    var all := Records(limits, s, steps);
    SeenIsNewest(limits, s, steps);
    NewestHas(all, limits.maxSeenKeys, i);
    var seen := Newest(all, limits.maxSeenKeys);
    forall k | k in seen && k.key == all[i].key
      ensures k == all[i]
    {
      var j :| 0 <= j < |seen| && seen[j] == k;
      var at := |all| - |seen| + j;
      assert all[at] == k;
      if at != i {
        CarriedOutOnce(limits, s, steps, if at < i then at else i, if at < i then i else at);
      }
    }
    FindIs(seen, all[i]);
  }

  /** A receipt is kept exactly when its send is among the newest that were carried out. */
  lemma {:induction false} ReceiptKeptIff(limits: Limits, s: Session, steps: seq<Step>, key: Key)
    ensures var all := Records(limits, s, steps);
            Find(Run(limits, s, steps).mail.seen, key).Some? <==>
            exists i :: 0 <= i < |all| && |all| - i <= limits.maxSeenKeys && all[i].key == key
  {
    hide Records, Run, Find;
    var all := Records(limits, s, steps);
    var seen := Run(limits, s, steps).mail.seen;
    SeenIsNewest(limits, s, steps);
    if i :| 0 <= i < |all| && |all| - i <= limits.maxSeenKeys && all[i].key == key {
      RecordFound(limits, s, steps, i);
    }
    if Find(seen, key).Some? {
      FoundIn(seen, key);
      var k :| k in seen && k.key == key;
      var j :| 0 <= j < |seen| && seen[j] == k;
      assert all[|all| - |seen| + j] == k;
    }
  }

  /** Until as many other sends have been carried out as receipts are kept, whatever else
      happens, a retry changes nothing: it repeats the first answer, or is refused when it
      says something else. */
  lemma {:induction false} RetryReplays(limits: Limits, s: Session, before: seq<Step>, key: Key, targets: seq<Target>,
                                        fingerprint: string, after: seq<Step>, again: seq<Target>, said: string)
    requires Find(Run(limits, s, before).mail.seen, key).None? && targets != []
    requires var all := before + [Send(Some(key), targets, fingerprint)] + after;
             |Records(limits, s, all)| - |Records(limits, s, before)| <= limits.maxSeenKeys
    ensures var m := Run(limits, s, before + [Send(Some(key), targets, fingerprint)] + after).mail;
            m.Sent(limits, Some(key), again, said) ==
            (m, if said == fingerprint then Delivered(Sessions(targets)) else Reused)
  {
    hide Mail.AppendedAll, Mail.Do, Find;
    var send := Send(Some(key), targets, fingerprint);
    var first := before + [send];
    assert first[..|before|] == before;
    assert Records(limits, s, first) == Records(limits, s, before) + [RecordOf(send)];
    RecordsGrow(limits, s, first, after);
    var i := |Records(limits, s, before)|;
    assert Records(limits, s, first + after)[..|Records(limits, s, first)|][i] == Records(limits, s, first + after)[i];
    RecordFound(limits, s, first + after, i);
  }

  // ------------------------------------------------------------ as it is written

  /** The mail side of an `InboundQueue`. Each method holds the lock throughout. */
  class MailQueue {
    const limits: Limits
    var queues: map<Session, seq<Inbound>>
    var seen: seq<Kept>
    var holds: map<HoldId, Hold>

    ghost function Now(): Mail
      reads this
    {
      Mail(queues, seen, holds)
    }

    constructor (limits: Limits)
      ensures this.limits == limits && Now() == NOTHING
    {
      this.limits := limits;
      queues, seen, holds := map[], [], map[];
    }

    method AppendCapped(s: Session, message: Inbound)
      modifies this`queues, this`holds
      ensures Now() == old(Now()).Appended(limits, s, message)
    {
      var queue := (if s in queues then queues[s] else []) + [message];
      WakeAll(s);
      queue := Trim(queue, limits.maxPerSession);
      queues := queues[s := queue];
    }

    /** The oldest are dropped while there are too many. */
    static method Trim(all: seq<Inbound>, cap: nat) returns (queue: seq<Inbound>)
      ensures queue == Newest(all, cap)
    {
      queue := all;
      while |queue| > cap
        invariant |queue| <= |all| && queue == all[|all| - |queue|..]
        invariant |queue| >= cap || queue == all
      {
        queue := queue[1..];
      }
    }

    method WakeAll(s: Session)
      modifies this`holds
      ensures holds == old(Now()).Woken(s)
    {
      holds := map h | h in holds ::
        if holds[h].session == s && holds[h].Waits() then holds[h].(scheduled := true) else holds[h];
    }

    method SendOnce(key: Option<Key>, targets: seq<Target>, fingerprint: string) returns (answer: Answer)
      modifies this
      ensures (Now(), answer) == old(Now()).Sent(limits, key, targets, fingerprint)
    {
      if key.Some? {
        var kept := Find(seen, key.value);
        if kept.Some? {
          return if kept.value.fingerprint == fingerprint then Delivered(kept.value.delivered) else Reused;
        }
      }
      var delivered: seq<Session> := [];
      AppendedAllSeen(Now(), limits, targets);
      for i := 0 to |targets|
        invariant delivered == Sessions(targets[..i]) && seen == old(seen)
        invariant Now() == old(Now()).AppendedAll(limits, targets[..i])
      {
        AppendCapped(targets[i].session, targets[i].message);
        delivered := delivered + [targets[i].session];
        assert targets[..i + 1][..i] == targets[..i];
      }
      assert targets[..|targets|] == targets;
      if key.Some? && targets != [] {
        Remember(key.value, Receipt(delivered, fingerprint, targets[0].message.source));
      }
      return Delivered(delivered);
    }

    method Remember(key: Key, receipt: Receipt)
      modifies this`seen
      ensures seen == Newest(old(seen) + [Kept(key, receipt)], limits.maxSeenKeys)
    {
      seen := seen + [Kept(key, receipt)];
      if |seen| > limits.maxSeenKeys {
        seen := seen[|seen| - limits.maxSeenKeys..];
      }
    }

    method Drain(s: Session) returns (taken: seq<Inbound>)
      modifies this`queues
      ensures taken == old(Now()).Pending(s) && Now() == old(Now()).Emptied(s)
    {
      taken := if s in queues then queues[s] else [];
      queues := queues - {s};
    }

    /** `await_messages` once it has registered. */
    method FirstLook(h: HoldId)
      requires h in holds
      modifies this
      ensures Now() == old(Now()).HoldStep(h, FirstDrain(h))
    {
      var hold := holds[h];
      if hold.phase == Registered {
        var found := Drain(hold.session);
        holds := holds[h := if found == [] then hold.(phase := Parked)
                            else hold.(phase := Leaving(false), first := found, result := found)];
      }
    }

    /** `await_messages` once its waiter is gone and its event had been set. */
    method LastLook(h: HoldId)
      requires h in holds
      modifies this
      ensures Now() == old(Now()).HoldStep(h, LastDrain(h))
    {
      var hold := holds[h];
      if hold.phase == Waking {
        if hold.released {
          holds := holds[h := hold.(phase := Done)];
        } else {
          var taken := Drain(hold.session);
          holds := holds[h := hold.(phase := Done, result := taken)];
        }
      }
    }
  }
}
