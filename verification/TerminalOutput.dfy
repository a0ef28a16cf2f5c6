/** Which of a terminal's output reaches the stream, and which legs get any of it, over
    whole runs of `TerminalStream`. */
module TerminalOutput {
  import opened Common
  import opened TerminalStream

  // ------------------------------------------------- nothing is dropped or repeated

  /** All the bytes taken from the host: a frame is taken when none is being handled and the
      terminal has not ended. */
  function Taken(capacity: nat, steps: seq<Step>): Bytes {
    if steps == [] then []
    else
      var init, last := steps[..|steps| - 1], steps[|steps| - 1];
      var t := Reached(capacity, init).term;
      Taken(capacity, init) + if last.Frame? && t.host == Idle && !t.ended then last.data else []
  }

  /** The frame that waits at the gate. */
  function InHand(t: State): Bytes {
    if t.host.Held? then t.host.data else []
  }

  /** All that was taken from the host is in the stream, each byte once and in order, but
      for the frame in hand; only the terminal's end drops that one. */
  lemma {:induction false} OutputReachesStream(capacity: nat, steps: seq<Step>)
    ensures var sys := Reached(capacity, steps);
            && sys.stream + InHand(sys.term) <= Taken(capacity, steps)
            && (!sys.term.ended ==> sys.stream + InHand(sys.term) == Taken(capacity, steps))
    decreases |steps|
  {
    hide State.Do, InHand;
    if steps == [] {
      NothingInHand(capacity);
    } else {
      var init := steps[..|steps| - 1];
      OutputReachesStream(capacity, init);
      TakenStep(Reached(capacity, init), steps[|steps| - 1]);
    }
  }

  lemma {:induction false} NothingInHand(capacity: nat)
    ensures InHand(Fresh(capacity)) == []
  {
  }

  lemma {:induction false} TakenStep(sys: System, step: Step)
    ensures var t, u := sys.term, sys.Do(step).term;
            var taken := if step.Frame? && t.host == Idle && !t.ended then step.data else [];
            && (t.ended ==> u.ended)
            && (t.ended ==> taken == [] && sys.Do(step).stream + InHand(u) <= sys.stream + InHand(t))
            && (!t.ended ==> sys.Do(step).stream + InHand(u) == sys.stream + InHand(t) + taken)
  {
    hide State.Went, State.Raised, State.Claiming, State.Gone;
    HostKept(sys.term, step);
    var none: Bytes := [];
    assert sys.stream + none == sys.stream;
    assert sys.stream + InHand(sys.term) + none == sys.stream + InHand(sys.term);
  }

  lemma {:induction false} HostKept(t: State, step: Step)
    ensures step.Claim? || step.Go? || step.Raise? || step.Leave? || step.Detach? ==>
              t.Do(step).host == t.host && t.Do(step).ended == t.ended
  {
  }

  /** Once the gate is open the frame in hand goes to the stream. The next one is taken at once
      when no browser is there to get it, and else when its send is over. */
  lemma {:induction false} OpenGateLets(capacity: nat, steps: seq<Step>)
    requires var t := Reached(capacity, steps).term; t.host.Held? && t.replaying.None? && !t.ended
    ensures var sys := Reached(capacity, steps);
            && sys.Do(Relay).stream == sys.stream + InHand(sys.term) && InHand(sys.Do(Relay).term) == []
            && sys.Do(Relay).Do(Sent).term.host == Idle
            && sys.Do(Relay).Do(Sent).stream == sys.stream + InHand(sys.term)
    ensures forall data ::
              var t, u := Reached(capacity, steps).term, Reached(capacity, steps).Do(Relay).Do(Frame(data)).term;
              if t.browser.Some? && t.browser.value !in t.gone then u == t.Do(Relay) else u.host == Held(data)
  {
    hide Run;
    var sys := Reached(capacity, steps);
    assert sys.stream + InHand(sys.term) + [] == sys.stream + InHand(sys.term);
  }

  /** Only the hub ends a terminal's output. */
  lemma {:induction false} EndedIffEnd(capacity: nat, steps: seq<Step>)
    ensures Reached(capacity, steps).term.ended <==> End in steps
    decreases |steps|
  {
    hide State.Do;
    if steps != [] {
      var init, last := steps[..|steps| - 1], steps[|steps| - 1];
      EndedIffEnd(capacity, init);
      EndStep(Reached(capacity, init).term, last);
      assert steps == init + [last];
    }
  }

  lemma {:induction false} EndStep(t: State, step: Step)
    ensures t.Do(step).ended <==> t.ended || step == End
  {
    hide State.Raised, State.Went;
    match step {
      case Go(x) => WentBrowser(t, x);
      case Raise(x) => RaisedBrowser(t, x);
      case _ =>
    }
  }

  // ---------------------------------------------------------- who gets the output

  /** A browser stays the one until it detaches, its socket is gone or another attaches. */
  lemma {:induction false} BrowserStays(capacity: nat, before: seq<Step>, leg: Leg, after: seq<Step>)
    requires Reached(capacity, before).term.browser == Some(leg)
    requires leg !in Reached(capacity, before + after).term.gone
    requires forall i :: 0 <= i < |after| ==> after[i] != Detach(leg) && !after[i].Claim?
    ensures Reached(capacity, before + after).term.browser == Some(leg)
    decreases |after|
  {
    hide State.Do;
    if after == [] {
      assert before + after == before;
    } else {
      var init, step := after[..|after| - 1], after[|after| - 1];
      assert before + after == before + init + [step];
      RunSnoc(System(Fresh(capacity), []), before + init, step);
      BrowserStep(Reached(capacity, before + init).term, step, leg);
      BrowserStays(capacity, before, leg, init);
    }
  }

  lemma {:induction false} BrowserStep(t: State, step: Step, leg: Leg)
    ensures t.gone <= t.Do(step).gone
    ensures t.browser == Some(leg) && leg !in t.Do(step).gone && step != Detach(leg) && !step.Claim? ==>
              t.Do(step).browser == Some(leg)
  {
    hide State.Raised, State.Went;
    match step {
      case Go(x) => WentBrowser(t, x);
      case Raise(x) => RaisedBrowser(t, x);
      case _ =>
    }
  }

  lemma {:induction false} WentBrowser(t: State, x: Leg)
    ensures t.gone <= t.Went(x).gone && t.Went(x).ended == t.ended
    ensures t.Went(x).browser == t.browser || (t.browser == Some(x) && x in t.gone && t.Went(x).browser == None)
    ensures forall y :: y != x ==> t.Went(x).LogOf(y) == t.LogOf(y)
    ensures x in t.attaches && !t.attaches[x].InFlight() ==> t.Went(x) == t
  {
    hide State.Send, State.LogOf;
    if x in t.attaches {
      WentEffect(t, x);
    }
  }

  lemma {:induction false} RaisedBrowser(t: State, x: Leg)
    ensures t.gone <= t.Raised(x).gone && t.Raised(x).ended == t.ended
    ensures t.Raised(x).browser == t.browser || (t.browser == Some(x) && x in t.gone && t.Raised(x).browser == None)
    ensures forall y :: y != x ==> t.Raised(x).LogOf(y) == t.LogOf(y)
    ensures x in t.attaches && !t.attaches[x].InFlight() ==> t.Raised(x) == t
  {
    hide State.Went;
    WentBrowser(t, x);
  }

  /** A browser whose socket is gone is detached by the send that finds it so. */
  lemma {:induction false} SendDetachesGone(capacity: nat, steps: seq<Step>, leg: Leg)
    requires var t := Reached(capacity, steps).term; t.browser == Some(leg) && leg in t.gone
    ensures var t := Reached(capacity, steps).term;
            && (t.host.Held? && t.replaying.None? && !t.ended ==> t.Do(Relay).browser == None)
            && (t.host == Sending(leg) ==> t.Do(Sent).browser == None)
  {
    hide Run;
  }

  /** A leg that is not the browser, and whose attach is over, never gets anything again. */
  lemma {:induction false} OverGetsNothing(capacity: nat, before: seq<Step>, leg: Leg, after: seq<Step>)
    requires leg in Reached(capacity, before).term.attaches && !Reached(capacity, before).term.attaches[leg].InFlight()
    requires Reached(capacity, before).term.browser != Some(leg)
    ensures Reached(capacity, before + after).term.LogOf(leg) == Reached(capacity, before).term.LogOf(leg)
    ensures Reached(capacity, before + after).term.browser != Some(leg)
    decreases |after|
  {
    hide State.Do, State.LogOf;
    if after == [] {
      assert before + after == before;
    } else {
      var init, step := after[..|after| - 1], after[|after| - 1];
      assert before + after == before + init + [step];
      RunSnoc(System(Fresh(capacity), []), before + init, step);
      OverInRun(capacity, before, init, leg);
      OverGetsNothing(capacity, before, leg, init);
      OverStep(Reached(capacity, before + init).term, step, leg);
    }
  }

  lemma {:induction false} OverStep(t: State, step: Step, leg: Leg)
    requires leg in t.attaches && !t.attaches[leg].InFlight() && t.browser != Some(leg)
    ensures t.Do(step).LogOf(leg) == t.LogOf(leg) && t.Do(step).browser != Some(leg)
  {
    hide State.Raised, State.Went;
    match step {
      case Go(x) => WentBrowser(t, x);
      case Raise(x) => RaisedBrowser(t, x);
      case _ =>
    }
  }
}
