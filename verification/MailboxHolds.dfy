/** What a held poll comes back with, and what wakes it, over whole runs of `Mailbox`. */
module MailboxHolds {
  import opened Common
  import opened Mailbox

  lemma {:induction false} RunSnoc(limits: Limits, s: Session, steps: seq<Step>, step: Step)
    ensures Run(limits, s, steps + [step]) == Run(limits, s, steps).Do(limits, s, step)
  {
    assert (steps + [step])[..|steps|] == steps;
  }

  // ------------------------------------------------------------ what it took

  /** What the hold found at the looks it had. */
  function TookIn(limits: Limits, s: Session, steps: seq<Step>, h: HoldId): seq<Inbound> {
    if steps == [] then []
    else
      var init, last := steps[..|steps| - 1], steps[|steps| - 1];
      var m := Run(limits, s, init).mail;
      TookIn(limits, s, init, h) + if Looks(m, last, h) then m.Pending(m.holds[h].session) else []
  }

  /** A hold comes back with every message that its looks took out of the queue, each once
      and in order. */
  lemma {:induction false} HoldReturnsWhatItTook(limits: Limits, s: Session, steps: seq<Step>, h: HoldId)
    ensures h in Run(limits, s, steps).mail.holds ==>
              Run(limits, s, steps).mail.holds[h].result == TookIn(limits, s, steps, h)
    ensures h !in Run(limits, s, steps).mail.holds ==> TookIn(limits, s, steps, h) == []
    decreases |steps|
  {
    hide Mail.Do, Looks, HoldsOk;
    if steps != [] {
      var init, last := steps[..|steps| - 1], steps[|steps| - 1];
      HoldReturnsWhatItTook(limits, s, init, h);
      RunHolds(limits, s, init);
      TookStep(Run(limits, s, init).mail, limits, last, h);
    }
  }

  lemma {:induction false} TookStep(m: Mail, limits: Limits, step: Step, h: HoldId)
    requires HoldsOk(m)
    ensures var n, took := m.Do(limits, step), if Looks(m, step, h) then m.Pending(m.holds[h].session) else [];
            && (h in m.holds ==> h in n.holds && n.holds[h].result == m.holds[h].result + took)
            && (h !in m.holds ==> took == [] && (h in n.holds ==> n.holds[h].result == []))
  {
    hide Mail.AppendedAll, Mail.Appended, Find, HoldsOk;
    var none: seq<Inbound> := [];
    if h in m.holds {
      assert m.holds[h].result + none == m.holds[h].result;
      if OwnStep(step, h) {
        OwnTook(m, h, step);
      } else {
        OthersKeepHold(m, limits, step, h);
      }
    } else {
      NewHold(m, limits, step, h);
    }
  }

  lemma {:induction false} OwnTook(m: Mail, h: HoldId, step: Step)
    requires HoldsOk(m) && h in m.holds && OwnStep(step, h)
    ensures var n, took := m.HoldStep(h, step), if Looks(m, step, h) then m.Pending(m.holds[h].session) else [];
            h in n.holds && n.holds[h].result == m.holds[h].result + took
  {
    assert HoldOk(m, h);
    var none: seq<Inbound> := [];
    assert m.holds[h].result + none == m.holds[h].result;
    assert none + m.Pending(m.holds[h].session) == m.Pending(m.holds[h].session);
  }

  lemma {:induction false} NewHold(m: Mail, limits: Limits, step: Step, h: HoldId)
    requires h !in m.holds
    ensures var n := m.Do(limits, step); h in n.holds ==> n.holds[h].result == [] && !n.holds[h].event && !n.holds[h].scheduled
  {
    hide Mail.AppendedAll, Mail.Appended, Find;
    match step {
      case Enqueue(s, message) => AppendedAt(m, limits, s, message, h);
      case Send(_, targets, _) => AppendedAllAt(m, limits, targets, h);
      case _ =>
    }
  }

  // ---------------------------------------------------------------- what wakes it

  /** While the hold waited, something came for its session or the session was revoked. */
  predicate CalledIn(limits: Limits, s: Session, steps: seq<Step>, h: HoldId) {
    steps != [] &&
    var init, last := steps[..|steps| - 1], steps[|steps| - 1];
    CalledIn(limits, s, init, h) || Calls(Run(limits, s, init).mail, last, h)
  }

  predicate Calls(m: Mail, step: Step, h: HoldId) {
    && h in m.holds && m.holds[h].Waits()
    && (Arrives(m, step, m.holds[h].session) != [] || step == Revoke(m.holds[h].session))
  }

  /** A hold is woken, or about to be, exactly when it was called: not by what comes for
      another session, and not by a send that is only repeated. */
  lemma {:induction false} WokenIffCalled(limits: Limits, s: Session, steps: seq<Step>, h: HoldId)
    ensures var m := Run(limits, s, steps).mail;
            (h in m.holds && (m.holds[h].event || m.holds[h].scheduled)) <==> CalledIn(limits, s, steps, h)
    decreases |steps|
  {
    hide Mail.Do, Calls;
    if steps != [] {
      var init, last := steps[..|steps| - 1], steps[|steps| - 1];
      WokenIffCalled(limits, s, init, h);
      CallStep(Run(limits, s, init).mail, limits, last, h);
    }
  }

  predicate Called(m: Mail, h: HoldId) {
    h in m.holds && (m.holds[h].event || m.holds[h].scheduled)
  }

  lemma {:induction false} CallStep(m: Mail, limits: Limits, step: Step, h: HoldId)
    ensures Called(m.Do(limits, step), h) <==> Called(m, h) || Calls(m, step, h)
  {
    hide Mail.AppendedAll, Mail.Appended, Find;
    if h !in m.holds {
      NewHold(m, limits, step, h);
    } else {
      match step {
        case Enqueue(s, message) => AppendedAt(m, limits, s, message, h);
        case Send(_, targets, _) => AppendedAllAt(m, limits, targets, h);
        case _ =>
      }
    }
  }

  lemma {:induction false} AppendedAt(m: Mail, limits: Limits, s: Session, message: Inbound, h: HoldId)
    ensures var n := m.Appended(limits, s, message);
            && (h in n.holds <==> h in m.holds)
            && (h in m.holds ==>
                  n.holds[h] == if m.holds[h].session == s && m.holds[h].Waits() then m.holds[h].(scheduled := true) else m.holds[h])
  {
  }

  lemma {:induction false} AppendedAllAt(m: Mail, limits: Limits, targets: seq<Target>, h: HoldId)
    ensures var n := m.AppendedAll(limits, targets);
            && (h in n.holds <==> h in m.holds)
            && (h in m.holds ==>
                  n.holds[h] == if For(targets, m.holds[h].session) != [] && m.holds[h].Waits() then m.holds[h].(scheduled := true)
                                else m.holds[h])
    decreases |targets|
  {
    hide Mail.Appended;
    if targets != [] {
      var init, last := targets[..|targets| - 1], targets[|targets| - 1];
      AppendedAllAt(m, limits, init, h);
      AppendedAt(m.AppendedAll(limits, init), limits, last.session, last.message, h);
    }
  }

  // --------------------------------------------------------------- how it ends

  /** A hold that parks comes back with the whole queue when it is woken for it, unless its
      session was revoked; with nothing when its time runs out first. */
  lemma {:induction false} ParkedHoldEnds(limits: Limits, s: Session, steps: seq<Step>, h: HoldId)
    requires h in Run(limits, s, steps).mail.holds && Run(limits, s, steps).mail.holds[h].phase == Parked
    ensures var m := Run(limits, s, steps).mail;
            var woken := m.Do(limits, Callback(h)).Do(limits, Wake(h)).Do(limits, Unregister(h)).Do(limits, LastDrain(h));
            var late := m.Do(limits, TimeOut(h)).Do(limits, Unregister(h));
            && (m.Pending(m.holds[h].session) != [] && !m.holds[h].released ==>
                  && h in woken.holds && woken.holds[h].phase == Done
                  && woken.holds[h].result == m.Pending(m.holds[h].session) && woken.Pending(m.holds[h].session) == [])
            && h in late.holds && late.holds[h].phase == Done && late.holds[h].result == []
  {
    hide Run, HoldsOk;
    RunHolds(limits, s, steps);
    var m := Run(limits, s, steps).mail;
    ParkedOk(m, h);
    if m.Pending(m.holds[h].session) != [] {
      NoWakeupIsLost(limits, s, steps, h);
    }
  }

  lemma {:induction false} ParkedOk(m: Mail, h: HoldId)
    requires HoldsOk(m) && h in m.holds && m.holds[h].phase == Parked
    ensures m.holds[h].result == []
  {
    assert HoldOk(m, h);
  }

  /** A revocation wakes a parked hold, and it comes back with nothing. */
  lemma {:induction false} RevokedHoldEnds(limits: Limits, s: Session, steps: seq<Step>, h: HoldId)
    requires h in Run(limits, s, steps).mail.holds && Run(limits, s, steps).mail.holds[h].phase == Parked
    ensures var m := Run(limits, s, steps).mail;
            var called := m.Do(limits, Revoke(m.holds[h].session)).Do(limits, Callback(h));
            var n := called.Do(limits, Wake(h)).Do(limits, Unregister(h)).Do(limits, LastDrain(h));
            && h in n.holds && n.holds[h].phase == Done && n.holds[h].result == []
            && n.Pending(m.holds[h].session) == m.Pending(m.holds[h].session)
  {
    hide Run, HoldsOk;
    RunHolds(limits, s, steps);
    ParkedOk(Run(limits, s, steps).mail, h);
  }

  // ----------------------------------------------------------- what a send answers

  /** A send that is carried out names its targets' sessions, in order; so does its retry
      (`RetryReplays`). */
  lemma {:induction false} SendNamesTargets(m: Mail, limits: Limits, key: Option<Key>, targets: seq<Target>, fingerprint: string)
    requires key.None? || Find(m.seen, key.value).None?
    ensures var answer := m.Sent(limits, key, targets, fingerprint).1;
            && answer.Delivered? && |answer.sessions| == |targets|
            && forall i :: 0 <= i < |targets| ==> answer.sessions[i] == targets[i].session
  {
    SessionsAre(targets);
  }

  lemma {:induction false} SessionsAre(targets: seq<Target>)
    ensures |Sessions(targets)| == |targets|
    ensures forall i :: 0 <= i < |targets| ==> Sessions(targets)[i] == targets[i].session
    decreases |targets|
  {
    if targets != [] {
      SessionsAre(targets[..|targets| - 1]);
    }
  }
}
