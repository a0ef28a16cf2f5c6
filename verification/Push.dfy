/** The sweep's pushes into the inbound queue, of `server/subscriber.py`: each change it
    attempts is sent once to each of its subscribers, under a key of its own. */
module Pushes {
  import opened Common
  import S = Subscribers
  import M = Mailbox

  // -------------------------------------------------------- copies in one queue

  /** What sends under one key have put in one session's queue. */
  function Copies(limits: M.Limits, s: M.Session, steps: seq<M.Step>, key: M.Key): nat
    decreases |steps|
  {
    if steps == [] then 0
    else
      var mail, last := M.Run(limits, s, steps[..|steps| - 1]).mail, steps[|steps| - 1];
      Copies(limits, s, steps[..|steps| - 1], key) + Adds(mail, last, s, key)
  }

  function Adds(mail: M.Mail, step: M.Step, s: M.Session, key: M.Key): nat {
    if M.Recorded(mail, step) && step.key == Some(key) then |M.For(step.targets, s)| else 0
  }

  ghost predicate DistinctSessions(targets: seq<M.Target>) {
    forall i, j :: 0 <= i < j < |targets| ==> targets[i].session != targets[j].session
  }

  ghost predicate Reaches(targets: seq<M.Target>, s: M.Session) {
    exists i :: 0 <= i < |targets| && targets[i].session == s
  }

  lemma {:induction false} OneForEach(targets: seq<M.Target>, s: M.Session)
    requires DistinctSessions(targets)
    ensures |M.For(targets, s)| == if Reaches(targets, s) then 1 else 0
    decreases |targets|
  {
    if targets != [] {
      var init, last := targets[..|targets| - 1], targets[|targets| - 1];
      OneForEach(init, s);
      assert targets == init + [last];
      ReachesSnoc(init, last, s);
      assert Reaches(init, s) && last.session == s ==> false by {
        assert forall i :: 0 <= i < |init| ==> targets[i].session != last.session;
      }
    }
  }

  lemma {:induction false} ReachesSnoc(init: seq<M.Target>, last: M.Target, s: M.Session)
    ensures Reaches(init + [last], s) <==> Reaches(init, s) || last.session == s
  {
    var targets := init + [last];
    assert targets[|init|] == last;
    if i :| 0 <= i < |init| && init[i].session == s {
      assert targets[i] == init[i];
    }
  }

  lemma {:induction false} CopiesSnoc(limits: M.Limits, s: M.Session, steps: seq<M.Step>, step: M.Step, key: M.Key)
    ensures Copies(limits, s, steps + [step], key)
            == Copies(limits, s, steps, key) + Adds(M.Run(limits, s, steps).mail, step, s, key)
  {
    assert (steps + [step])[..|steps|] == steps;
  }

  /** The key's sends reach each session once. */
  ghost predicate OncePerSession(steps: seq<M.Step>, key: M.Key) {
    forall i :: 0 <= i < |steps| && steps[i].Send? && steps[i].key == Some(key) ==> DistinctSessions(steps[i].targets)
  }

  lemma {:induction false} AddsOne(mail: M.Mail, step: M.Step, s: M.Session, key: M.Key)
    requires step.Send? && step.key == Some(key) ==> DistinctSessions(step.targets)
    ensures Adds(mail, step, s, key) <= 1
    ensures Adds(mail, step, s, key) > 0 ==> M.Recorded(mail, step) && M.RecordOf(step).key == key
  {
    if step.Send? && step.key == Some(key) {
      OneForEach(step.targets, s);
    }
  }

  lemma {:induction false} RecordsSnoc(limits: M.Limits, s: M.Session, steps: seq<M.Step>, step: M.Step)
    ensures M.Records(limits, s, steps + [step])
            == M.Records(limits, s, steps) + if M.Recorded(M.Run(limits, s, steps).mail, step) then [M.RecordOf(step)] else []
  {
    assert (steps + [step])[..|steps|] == steps;
  }

  /** A copy more is a send more that was carried out under the key. */
  lemma {:induction false} CopiesAreRecorded(limits: M.Limits, s: M.Session, a: seq<M.Step>, b: seq<M.Step>, key: M.Key)
    requires OncePerSession(b, key) && Copies(limits, s, a + b, key) > Copies(limits, s, a, key)
    ensures exists i :: |M.Records(limits, s, a)| <= i < |M.Records(limits, s, a + b)| && M.Records(limits, s, a + b)[i].key == key
    decreases |b|
  {
    hide Copies, M.Records, M.Run, M.Recorded, M.RecordOf, Adds;
    assert b == [] ==> a + b == a;
    if b != [] {
      var init, last := b[..|b| - 1], b[|b| - 1];
      assert a + b == (a + init) + [last];
      var records := M.Records(limits, s, a + init);
      M.RecordsGrow(limits, s, a, init);
      RecordsSnoc(limits, s, a + init, last);
      CopiesSnoc(limits, s, a + init, last, key);
      AddsOne(M.Run(limits, s, a + init).mail, last, s, key);
      if Copies(limits, s, a + init, key) > Copies(limits, s, a, key) {
        CopiesAreRecorded(limits, s, a, init, key);
        var i :| |M.Records(limits, s, a)| <= i < |records| && records[i].key == key;
        assert M.Records(limits, s, a + b)[i] == records[i];
      } else {
        assert M.Records(limits, s, a + b)[|records|].key == key;
      }
    }
  }

  /** Sent any number of times, a change puts at most one copy more in a session's queue
      while no more sends are carried out than receipts are kept, and one. */
  lemma {:induction false} AtMostOneCopy(limits: M.Limits, s: M.Session, a: seq<M.Step>, b: seq<M.Step>, key: M.Key)
    requires OncePerSession(b, key)
    requires |M.Records(limits, s, a + b)| - |M.Records(limits, s, a)| <= limits.maxSeenKeys + 1
    ensures Copies(limits, s, a, key) <= Copies(limits, s, a + b, key) <= Copies(limits, s, a, key) + 1
    decreases |b|
  {
    hide Copies, M.Records, M.Run, M.Recorded, M.RecordOf, Adds;
    if b == [] {
      assert a + b == a;
    } else {
      var init, last := b[..|b| - 1], b[|b| - 1];
      assert a + b == (a + init) + [last];
      var records := M.Records(limits, s, a + init);
      RecordsSnoc(limits, s, a + init, last);
      CopiesSnoc(limits, s, a + init, last, key);
      AtMostOneCopy(limits, s, a, init, key);
      AddsOne(M.Run(limits, s, a + init).mail, last, s, key);
      if Copies(limits, s, a + init, key) > Copies(limits, s, a, key)
         && Copies(limits, s, a + b, key) > Copies(limits, s, a + init, key) {
        CopiesAreRecorded(limits, s, a, init, key);
        var i :| |M.Records(limits, s, a)| <= i < |records| && records[i].key == key;
        assert M.Records(limits, s, a + b)[i] == records[i];
        M.CarriedOutOnce(limits, s, a + b, i, |records|);
      }
    }
  }

  /** And none more for as long as its receipt is kept. */
  lemma {:induction false} NoCopyWhileKept(limits: M.Limits, s: M.Session, a: seq<M.Step>, b: seq<M.Step>, key: M.Key)
    requires forall i :: 0 <= i < |b| ==> M.Find(M.Run(limits, s, a + b[..i]).mail.seen, key).Some?
    ensures Copies(limits, s, a + b, key) == Copies(limits, s, a, key)
    decreases |b|
  {
    if b == [] {
      assert a + b == a;
    } else {
      var init := b[..|b| - 1];
      assert (a + b)[..|a + b| - 1] == a + init;
      assert forall i :: 0 <= i < |init| ==> init[..i] == b[..i];
      NoCopyWhileKept(limits, s, a, init, key);
    }
  }

  // ---------------------------------------------------- the sweep and the queue

  /** One subscriber of a change, and the live sessions it has when the change is sent. */
  datatype Sending = Sending(subscriber: nat, targets: seq<M.Target>)

  /** The sweep moves, one change is pushed to the subscribers it got to, or anything else
      uses the queue. */
  datatype Step =
    | Sweeps(sweep: S.Step)
    | Push(sends: seq<Sending>, ok: bool)
    | Mails(mail: M.Step)

  /** `_deliver_change`: one send a subscriber, under the key of the change and subscriber. */
  function SendsOf(change: nat, sends: seq<Sending>): seq<M.Step> {
    if sends == [] then []
    else
      var last := sends[|sends| - 1];
      SendsOf(change, sends[..|sends| - 1]) + [M.Send(Some(M.Change(change, last.subscriber)), last.targets, "")]
  }

  function SweepSteps(steps: seq<Step>): seq<S.Step> {
    if steps == [] then []
    else
      SweepSteps(steps[..|steps| - 1]) +
      match steps[|steps| - 1]
      case Sweeps(step) => [step]
      case Push(_, ok) => [S.Deliver(ok)]
      case Mails(_) => []
  }

  /** The sweep as it stands after some steps. */
  function Swept(size: nat, start: S.System, steps: seq<Step>): S.System {
    S.Run(size, start, SweepSteps(steps))
  }

  function MailOf(sys: S.System, step: Step): seq<M.Step> {
    match step
    case Sweeps(_) => []
    case Push(sends, _) => if sys.sweep.Page() == [] then [] else SendsOf(sys.sweep.Page()[0].id, sends)
    case Mails(mail) => [mail]
  }

  function MailSteps(size: nat, start: S.System, steps: seq<Step>): seq<M.Step>
    decreases |steps|
  {
    if steps == [] then []
    else
      var init := steps[..|steps| - 1];
      MailSteps(size, start, init) + MailOf(Swept(size, start, init), steps[|init|])
  }

  ghost predicate DistinctSubscribers(sends: seq<Sending>) {
    forall i, j :: 0 <= i < j < |sends| ==> sends[i].subscriber != sends[j].subscriber
  }

  /** A change lists each subscriber once and a subscriber each session; nothing but a push
      uses a change's key. */
  ghost predicate StepOk(step: Step) {
    match step
    case Sweeps(sweep) => !sweep.Deliver?
    case Push(sends, _) => DistinctSubscribers(sends) && forall i :: 0 <= i < |sends| ==> DistinctSessions(sends[i].targets)
    case Mails(mail) => mail.Send? && mail.key.Some? ==> mail.key.value.Client?
  }

  /** Two changes have two ids. */
  ghost predicate UniqueIds(log: set<S.Point>) {
    forall p, q :: p in log && q in log && p.id == q.id ==> p == q
  }

  /** The step pushed this change to a session of this subscriber. */
  ghost predicate Pushed(sys: S.System, step: Step, key: M.Key, s: M.Session) {
    && step.Push? && key.Change? && sys.sweep.Page() != [] && sys.sweep.Page()[0].id == key.change
    && exists i :: 0 <= i < |step.sends| && step.sends[i].subscriber == key.subscriber && Reaches(step.sends[i].targets, s)
  }

  ghost predicate EverPushed(size: nat, start: S.System, steps: seq<Step>, key: M.Key, s: M.Session) {
    exists i :: 0 <= i < |steps| && Pushed(Swept(size, start, steps[..i]), steps[i], key, s)
  }

  // ------------------------------------------------------------ what a push adds

  ghost predicate NoRecord(limits: M.Limits, s: M.Session, steps: seq<M.Step>, key: M.Key) {
    forall i :: 0 <= i < |M.Records(limits, s, steps)| ==> M.Records(limits, s, steps)[i].key != key
  }

  lemma {:induction false} OtherStep(limits: M.Limits, s: M.Session, steps: seq<M.Step>, step: M.Step, key: M.Key)
    requires step.Send? ==> step.key != Some(key)
    ensures Copies(limits, s, steps + [step], key) == Copies(limits, s, steps, key)
    ensures NoRecord(limits, s, steps, key) ==> NoRecord(limits, s, steps + [step], key)
  {
    hide M.Find;
    assert (steps + [step])[..|steps|] == steps;
    var records, more := M.Records(limits, s, steps), M.Records(limits, s, steps + [step]);
    if NoRecord(limits, s, steps, key) {
      assert forall i :: 0 <= i < |records| ==> more[i] == records[i];
    }
  }

  lemma {:induction false} FreshStep(limits: M.Limits, s: M.Session, steps: seq<M.Step>, targets: seq<M.Target>, key: M.Key)
    requires NoRecord(limits, s, steps, key) && DistinctSessions(targets)
    ensures Copies(limits, s, steps + [M.Send(Some(key), targets, "")], key)
            == Copies(limits, s, steps, key) + if Reaches(targets, s) then 1 else 0
  {
    hide M.Find, M.Records, M.Run;
    M.ReceiptKeptIff(limits, s, steps, key);
    OneForEach(targets, s);
    CopiesSnoc(limits, s, steps, M.Send(Some(key), targets, ""), key);
  }

  ghost predicate SendsTo(sends: seq<Sending>, subscriber: nat, s: M.Session) {
    exists i :: 0 <= i < |sends| && sends[i].subscriber == subscriber && Reaches(sends[i].targets, s)
  }

  lemma {:induction false} SendsAdd(limits: M.Limits, s: M.Session, steps: seq<M.Step>, change: nat, sends: seq<Sending>, key: M.Key)
    requires StepOk(Push(sends, true)) && NoRecord(limits, s, steps, key) && key.Change? && key.change == change
    ensures Copies(limits, s, steps + SendsOf(change, sends), key)
            == Copies(limits, s, steps, key) + if SendsTo(sends, key.subscriber, s) then 1 else 0
    ensures (forall i :: 0 <= i < |sends| ==> sends[i].subscriber != key.subscriber) ==>
              NoRecord(limits, s, steps + SendsOf(change, sends), key)
    decreases |sends|
  {
    hide Copies, NoRecord, Reaches;
    if sends == [] {
      assert steps + SendsOf(change, sends) == steps;
    } else {
      var init, last := sends[..|sends| - 1], sends[|sends| - 1];
      var send := M.Send(Some(M.Change(change, last.subscriber)), last.targets, "");
      assert steps + SendsOf(change, sends) == (steps + SendsOf(change, init)) + [send];
      SendsAdd(limits, s, steps, change, init, key);
      assert SendsTo(sends, key.subscriber, s) <==>
             SendsTo(init, key.subscriber, s) || (last.subscriber == key.subscriber && Reaches(last.targets, s)) by {
        SendsToSnoc(init, last, key.subscriber, s);
        assert sends == init + [last];
      }
      if last.subscriber == key.subscriber {
        assert key == M.Change(change, last.subscriber);
        FreshStep(limits, s, steps + SendsOf(change, init), last.targets, key);
        assert !SendsTo(init, key.subscriber, s);
      } else {
        OtherStep(limits, s, steps + SendsOf(change, init), send, key);
      }
    }
  }

  lemma {:induction false} SendsToSnoc(init: seq<Sending>, last: Sending, subscriber: nat, s: M.Session)
    ensures SendsTo(init + [last], subscriber, s) <==>
            SendsTo(init, subscriber, s) || (last.subscriber == subscriber && Reaches(last.targets, s))
  {
    var sends := init + [last];
    if i :| 0 <= i < |init| && init[i].subscriber == subscriber && Reaches(init[i].targets, s) {
      assert sends[i] == init[i];
    }
    assert sends[|init|] == last;
  }

  lemma {:induction false} OtherSends(limits: M.Limits, s: M.Session, steps: seq<M.Step>, change: nat, sends: seq<Sending>, key: M.Key)
    requires key.Change? ==> key.change != change
    ensures Copies(limits, s, steps + SendsOf(change, sends), key) == Copies(limits, s, steps, key)
    ensures NoRecord(limits, s, steps, key) ==> NoRecord(limits, s, steps + SendsOf(change, sends), key)
    decreases |sends|
  {
    hide Copies, NoRecord;
    if sends == [] {
      assert steps + SendsOf(change, sends) == steps;
    } else {
      var init, last := sends[..|sends| - 1], sends[|sends| - 1];
      var send := M.Send(Some(M.Change(change, last.subscriber)), last.targets, "");
      assert steps + SendsOf(change, sends) == (steps + SendsOf(change, init)) + [send];
      OtherSends(limits, s, steps, change, init, key);
      OtherStep(limits, s, steps + SendsOf(change, init), send, key);
    }
  }

  // ------------------------------------------------------------------ whole runs

  lemma {:induction false} HonestInit(size: nat, sys: S.System, a: seq<S.Step>, b: seq<S.Step>)
    requires S.Honest(size, sys, a + b)
    ensures S.Honest(size, sys, a)
  {
    hide S.AnswersOk, S.Run;
    forall i | 0 <= i < |a|
      ensures S.AnswersOk(size, S.Run(size, sys, a[..i]), a[i])
    {
      assert (a + b)[..i] == a[..i] && (a + b)[i] == a[i];
    }
  }

  lemma {:induction false} SweptSnoc(size: nat, start: S.System, steps: seq<Step>)
    requires steps != []
    ensures var before, last := Swept(size, start, steps[..|steps| - 1]), steps[|steps| - 1];
            Swept(size, start, steps) ==
            match last
            case Sweeps(sweep) => before.Do(size, sweep)
            case Push(_, ok) => before.Do(size, S.Deliver(ok))
            case Mails(_) => before
  {
    hide S.System.Do;
    var init := SweepSteps(steps[..|steps| - 1]);
    match steps[|steps| - 1]
    case Sweeps(sweep) => S.RunSnoc(size, start, init, sweep);
    case Push(_, ok) => S.RunSnoc(size, start, init, S.Deliver(ok));
    case Mails(_) => assert init + [] == init;
  }

  ghost predicate NotAttempted(sys: S.System, key: M.Key)
    requires key.Change?
  {
    forall p :: p in sys.attempts ==> p.id != key.change
  }

  /** What a step of the two machines does to the changes attempted. */
  lemma {:induction false} AttemptsGrow(size: nat, sys: S.System, step: S.Step)
    ensures sys.log <= sys.Do(size, step).log
    ensures sys.Do(size, step).attempts ==
            if step.Deliver? && sys.sweep.Page() != [] then sys.attempts + [sys.sweep.Page()[0]] else sys.attempts
  {
  }

  /** A change in hand has not been attempted before. */
  lemma {:induction false} HeadIsNew(sys: S.System, key: M.Key)
    requires S.Inv(sys) && UniqueIds(sys.log) && sys.sweep.Page() != [] && key.Change? && sys.sweep.Page()[0].id == key.change
    ensures NotAttempted(sys, key)
  {
    var page := sys.sweep.Page();
    assert page[0] in page;
    forall p | p in sys.attempts
      ensures p.id != key.change
    {
      var i :| 0 <= i < |sys.attempts| && sys.attempts[i] == p;
      assert (sys.attempts + page)[i] == p && (sys.attempts + page)[|sys.attempts|] == page[0];
    }
  }

  ghost predicate CopiesOk(limits: M.Limits, s: M.Session, size: nat, start: S.System, steps: seq<Step>, key: M.Key)
    requires key.Change?
  {
    var mails := MailSteps(size, start, steps);
    && Copies(limits, s, mails, key) == (if EverPushed(size, start, steps, key, s) then 1 else 0)
    && (NotAttempted(Swept(size, start, steps), key) ==>
          NoRecord(limits, s, mails, key) && !EverPushed(size, start, steps, key, s))
  }

  lemma {:induction false} EverPushedSnoc(size: nat, start: S.System, steps: seq<Step>, key: M.Key, s: M.Session)
    requires steps != []
    ensures var init := steps[..|steps| - 1];
            EverPushed(size, start, steps, key, s) <==>
            EverPushed(size, start, init, key, s) || Pushed(Swept(size, start, init), steps[|init|], key, s)
  {
    hide Pushed, Swept;
    var init := steps[..|steps| - 1];
    assert forall i :: 0 <= i <= |init| ==> init[..i] == steps[..i];
    if i :| 0 <= i < |init| && Pushed(Swept(size, start, init[..i]), init[i], key, s) {
      assert steps[i] == init[i] && init[..i] == steps[..i];
    }
    assert steps[..|init|] == init;
  }

  lemma {:induction false} CopiesKept(limits: M.Limits, s: M.Session, size: nat, start: S.System, steps: seq<Step>, key: M.Key)
    requires steps != [] && key.Change? && StepOk(steps[|steps| - 1])
    requires var init := steps[..|steps| - 1];
             CopiesOk(limits, s, size, start, init, key) && S.Inv(Swept(size, start, init))
             && UniqueIds(Swept(size, start, init).log)
    ensures CopiesOk(limits, s, size, start, steps, key)
  {
    hide Copies, NoRecord, Swept, EverPushed, S.System.Do, S.Inv, UniqueIds, SendsOf, Reaches;
    var init, last := steps[..|steps| - 1], steps[|steps| - 1];
    var sys := Swept(size, start, init);
    var mails := MailSteps(size, start, init);
    EverPushedSnoc(size, start, steps, key, s);
    SweptSnoc(size, start, steps);
    match last {
      case Sweeps(sweep) =>
        AttemptsGrow(size, sys, sweep);
        assert mails + [] == mails;
      case Mails(mail) => OtherStep(limits, s, mails, mail, key);
      case Push(sends, ok) =>
        AttemptsGrow(size, sys, S.Deliver(ok));
        if sys.sweep.Page() == [] {
          assert mails + [] == mails;
        } else if sys.sweep.Page()[0].id == key.change {
          HeadIsNew(sys, key);
          SendsAdd(limits, s, mails, key.change, sends, key);
        } else {
          OtherSends(limits, s, mails, sys.sweep.Page()[0].id, sends, key);
        }
    }
  }

  lemma {:induction false} LogGrows(size: nat, start: S.System, steps: seq<Step>)
    requires steps != []
    ensures Swept(size, start, steps[..|steps| - 1]).log <= Swept(size, start, steps).log
  {
    hide S.System.Do, Swept;
    SweptSnoc(size, start, steps);
    var sys := Swept(size, start, steps[..|steps| - 1]);
    match steps[|steps| - 1]
    case Sweeps(sweep) => AttemptsGrow(size, sys, sweep);
    case Push(_, ok) => AttemptsGrow(size, sys, S.Deliver(ok));
    case Mails(_) =>
  }

  /** Over any run of the sweep beside everything else that uses the queue, a change's copies
      in a session's queue for a subscriber are exactly one when a push of the change got to
      that session, and none otherwise: however many sends there were and whatever failed. */
  lemma {:induction false} OneCopyIffPushed(limits: M.Limits, s: M.Session, size: nat, boot: S.Point, log: set<S.Point>,
                                            steps: seq<Step>, key: M.Key)
    requires size > 0 && S.Honest(size, S.Start(boot, log), SweepSteps(steps)) && key.Change?
    requires UniqueIds(Swept(size, S.Start(boot, log), steps).log)
    requires forall i :: 0 <= i < |steps| ==> StepOk(steps[i])
    ensures Copies(limits, s, MailSteps(size, S.Start(boot, log), steps), key)
            == if EverPushed(size, S.Start(boot, log), steps, key, s) then 1 else 0
  {
    CopiesInRun(limits, s, size, boot, log, steps, key);
  }

  lemma {:induction false} CopiesInRun(limits: M.Limits, s: M.Session, size: nat, boot: S.Point, log: set<S.Point>,
                                       steps: seq<Step>, key: M.Key)
    requires size > 0 && S.Honest(size, S.Start(boot, log), SweepSteps(steps)) && key.Change?
    requires UniqueIds(Swept(size, S.Start(boot, log), steps).log)
    requires forall i :: 0 <= i < |steps| ==> StepOk(steps[i])
    ensures CopiesOk(limits, s, size, S.Start(boot, log), steps, key)
    decreases |steps|
  {
    hide S.Honest, S.Inv, CopiesOk, StepOk, S.Run;
    var start := S.Start(boot, log);
    if steps == [] {
      NothingPushed(limits, s, size, start, key);
    } else {
      var init := steps[..|steps| - 1];
      assert exists more :: SweepSteps(steps) == SweepSteps(init) + more;
      var more :| SweepSteps(steps) == SweepSteps(init) + more;
      HonestInit(size, start, SweepSteps(init), more);
      LogGrows(size, start, steps);
      CopiesInRun(limits, s, size, boot, log, init, key);
      S.RunKeeps(size, boot, log, SweepSteps(init));
      CopiesKept(limits, s, size, start, steps, key);
    }
  }

  lemma {:induction false} NothingPushed(limits: M.Limits, s: M.Session, size: nat, start: S.System, key: M.Key)
    requires key.Change?
    ensures CopiesOk(limits, s, size, start, [], key)
  {
  }
}
