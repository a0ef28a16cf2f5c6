/** The change-log sweep of `server/subscriber.py`: a paging cursor over `(created, id)`,
    one delivery attempt a change, and a backoff when the query fails. */
module Subscribers {
  /** A change's place in the log. */
  datatype Point = Point(created: int, id: nat)

  predicate Less(a: Point, b: Point) {
    a.created < b.created || (a.created == b.created && a.id < b.id)
  }

  ghost predicate Rising(s: seq<Point>) {
    forall i, j :: 0 <= i < j < |s| ==> Less(s[i], s[j])
  }

  /** What the query returns: the first `size` changes past the cursor, in order. */
  ghost predicate IsPage(log: set<Point>, cursor: Point, size: nat, page: seq<Point>) {
    && Rising(page) && |page| <= size
    && (forall p :: p in page ==> p in log && Less(cursor, p))
    && (forall p :: p in log && Less(cursor, p) && p !in page ==> |page| == size && forall q :: q in page ==> Less(q, p))
  }

  /** `Dead` is a task that raised: Python's `2.0 ** 1024` overflows, and nothing catches it. */
  datatype Mode = Ready | Delivering(page: seq<Point>, full: bool) | Sleeping(ok: bool) | Dead

  const MAX_EXPONENT := 1023

  datatype Step =
    | Commit(at: Point)
    | Query(page: seq<Point>)
    | QueryFails
    | Deliver(ok: bool)
    | Wake

  datatype Sweep = Sweep(cursor: Point, mode: Mode, failures: nat) {

    /** After a page, or at once when it is empty: a full page is followed by another. */
    function Rest(page: seq<Point>, full: bool): Mode {
      if page != [] then Delivering(page, full) else if full then Ready else Sleeping(true)
    }

    function Do(size: nat, step: Step): Sweep {
      match step
      case Commit(_) => this
      case Query(page) =>
        if mode != Ready then this
        else
          var next := Rest(page, |page| == size);
          this.(mode := next, failures := if next.Sleeping? then 0 else failures)
      case QueryFails =>
        if mode != Ready then this
        else this.(failures := failures + 1, mode := if failures + 1 > MAX_EXPONENT then Dead else Sleeping(false))
      case Deliver(_) =>
        // A change whose delivery failed is skipped: the cursor advances past it too.
        if !mode.Delivering? || mode.page == [] then this
        else
          var next := Rest(mode.page[1..], mode.full);
          Sweep(mode.page[0], next, if next.Sleeping? then 0 else failures)
      case Wake => if mode.Sleeping? then this.(mode := Ready) else this
    }

    function Page(): seq<Point> {
      if mode.Delivering? then mode.page else []
    }

    /** How far the sweep has read: nothing at or before this is looked for again. */
    function Frontier(): Point {
      if Page() == [] then cursor else Page()[|Page()| - 1]
    }
  }

  /** The sweep with the log it reads, the changes it has attempted to deliver, the log as
      it was at the last query, and the changes that were committed behind the frontier. */
  datatype System = System(boot: Point, sweep: Sweep, log: set<Point>, attempts: seq<Point>, asked: set<Point>, late: set<Point>) {
    function Do(size: nat, step: Step): System {
      var next := this.(sweep := sweep.Do(size, step));
      match step
      case Commit(p) =>
        if p in log then this
        else next.(log := log + {p},
                   late := if Less(boot, p) && !Less(sweep.Frontier(), p) then late + {p} else late)
      case Query(_) => if sweep.mode == Ready then next.(asked := log) else this
      case Deliver(_) => if sweep.Page() != [] then next.(attempts := attempts + [sweep.Page()[0]]) else this
      case _ => next
    }
  }

  function Start(boot: Point, log: set<Point>): System {
    System(boot, Sweep(boot, Ready, 0), log, [], log, {})
  }

  function Run(size: nat, sys: System, steps: seq<Step>): System
    decreases |steps|
  {
    if steps == [] then sys else Run(size, sys, steps[..|steps| - 1]).Do(size, steps[|steps| - 1])
  }

  /** Every query that answers returns a page of the log as it then is. */
  ghost predicate Honest(size: nat, sys: System, steps: seq<Step>) {
    forall i :: 0 <= i < |steps| ==> AnswersOk(size, Run(size, sys, steps[..i]), steps[i])
  }

  ghost predicate AnswersOk(size: nat, sys: System, step: Step) {
    step.Query? && sys.sweep.mode == Ready ==> IsPage(sys.log, sys.sweep.cursor, size, step.page)
  }

  // ------------------------------------------------------------- the invariant

  predicate Past(p: Point, q: Point) {
    p == q || Less(p, q)
  }

  ghost predicate AttemptsOk(boot: Point, cursor: Point, attempts: seq<Point>, page: seq<Point>) {
    && Rising(attempts + page)
    && (forall p :: p in attempts ==> Less(boot, p) && Past(p, cursor))
    && (forall p :: p in page ==> Less(cursor, p))
    && Past(boot, cursor)
  }

  ghost predicate LogOk(boot: Point, log: set<Point>, attempts: seq<Point>, page: seq<Point>, late: set<Point>, frontier: Point) {
    && (forall p :: p in attempts || p in page ==> p in log && p !in late)
    && (forall p :: p in late ==> p in log && Past(p, frontier))
    && (forall p :: p in log && Less(boot, p) ==> p in attempts || p in page || Less(frontier, p) || p in late)
  }

  ghost predicate AskedOk(sys: System) {
    && sys.asked <= sys.log
    && (sys.sweep.mode.Delivering? ==>
          sys.sweep.mode.page != []
          && (!sys.sweep.mode.full ==> forall p :: p in sys.asked ==> Past(p, sys.sweep.Frontier())))
    && (sys.sweep.mode == Sleeping(true) ==> forall p :: p in sys.asked ==> Past(p, sys.sweep.cursor))
  }

  ghost predicate Inv(sys: System) {
    && AttemptsOk(sys.boot, sys.sweep.cursor, sys.attempts, sys.sweep.Page())
    && LogOk(sys.boot, sys.log, sys.attempts, sys.sweep.Page(), sys.late, sys.sweep.Frontier())
    && AskedOk(sys)
  }

  lemma {:induction false} QueryKeeps(sys: System, size: nat, page: seq<Point>)
    requires Inv(sys) && sys.sweep.mode == Ready && size > 0 && IsPage(sys.log, sys.sweep.cursor, size, page)
    ensures Inv(sys.Do(size, Query(page)))
  {
    var next := sys.Do(size, Query(page));
    var cursor := sys.sweep.cursor;
    assert sys.attempts + [] == sys.attempts;
    if page != [] {
      var frontier := page[|page| - 1];
      assert next.sweep.Page() == page && frontier in page;
      forall p | p in page
        ensures Past(p, frontier)
      {
        var i :| 0 <= i < |page| && page[i] == p;
      }
      forall i, j | 0 <= i < j < |sys.attempts + page|
        ensures Less((sys.attempts + page)[i], (sys.attempts + page)[j])
      {
        if i < |sys.attempts| <= j {
          assert sys.attempts[i] in sys.attempts && page[j - |sys.attempts|] in page;
        }
      }
      assert Less(cursor, frontier);
    }
  }

  lemma {:induction false} DeliverKeeps(sys: System, size: nat, ok: bool)
    requires Inv(sys) && sys.sweep.Page() != []
    ensures Inv(sys.Do(size, Deliver(ok)))
  {
    var page := sys.sweep.Page();
    var first, rest := page[0], page[1..];
    var next := sys.Do(size, Deliver(ok));
    assert page == [first] + rest && (sys.attempts + [first]) + rest == sys.attempts + page;
    assert next.sweep.Page() == rest && next.sweep.Frontier() == sys.sweep.Frontier();
    forall p | p in rest
      ensures Less(first, p)
    {
      var i :| 0 <= i < |rest| && rest[i] == p;
      assert (sys.attempts + page)[|sys.attempts|] == first && (sys.attempts + page)[|sys.attempts| + 1 + i] == p;
    }
    assert first in page;
  }

  lemma {:induction false} CommitKeeps(sys: System, size: nat, p: Point)
    requires Inv(sys) && p !in sys.log
    ensures Inv(sys.Do(size, Commit(p)))
  {
  }

  lemma {:induction false} StepKeeps(sys: System, size: nat, step: Step)
    requires Inv(sys) && size > 0 && AnswersOk(size, sys, step)
    ensures Inv(sys.Do(size, step))
  {
    hide AttemptsOk, LogOk, IsPage;
    match step {
      case Commit(p) =>
        if p !in sys.log {
          CommitKeeps(sys, size, p);
        }
      case Query(page) =>
        if sys.sweep.mode == Ready {
          QueryKeeps(sys, size, page);
        }
      case Deliver(ok) =>
        if sys.sweep.Page() != [] {
          DeliverKeeps(sys, size, ok);
        }
      case _ =>
    }
  }

  lemma {:induction false} RunKeeps(size: nat, boot: Point, log: set<Point>, steps: seq<Step>)
    requires size > 0 && Honest(size, Start(boot, log), steps)
    ensures Inv(Run(size, Start(boot, log), steps))
    decreases |steps|
  {
    hide AnswersOk, AttemptsOk, LogOk, System.Do;
    if steps == [] {
      StartOk(boot, log);
    } else {
      var init := steps[..|steps| - 1];
      assert forall i :: 0 <= i < |init| ==> init[..i] == steps[..i];
      RunKeeps(size, boot, log, init);
      StepKeeps(Run(size, Start(boot, log), init), size, steps[|steps| - 1]);
    }
  }

  lemma {:induction false} StartOk(boot: Point, log: set<Point>)
    ensures Inv(Start(boot, log))
  {
    var none: seq<Point> := [];
    assert none + none == none;
  }

  // -------------------------------------------------------------- what it means

  /** Each change is attempted at most once, and all in `(created, id)` order, whatever
      queries and deliveries fail. */
  lemma {:induction false} AttemptsRise(size: nat, boot: Point, log: set<Point>, steps: seq<Step>)
    requires size > 0 && Honest(size, Start(boot, log), steps)
    ensures Rising(Run(size, Start(boot, log), steps).attempts)
  {
    RunKeeps(size, boot, log, steps);
    var sys := Run(size, Start(boot, log), steps);
    assert forall i :: 0 <= i < |sys.attempts| ==> (sys.attempts + sys.sweep.Page())[i] == sys.attempts[i];
  }

  /** Once the sweep has read past a change's place, it has attempted the change, or has it
      in hand, exactly when the change was not committed behind the frontier. */
  lemma {:induction false} AttemptedIffNotLate(size: nat, boot: Point, log: set<Point>, steps: seq<Step>, p: Point)
    requires size > 0 && Honest(size, Start(boot, log), steps)
    requires p in Run(size, Start(boot, log), steps).log && Less(boot, p)
    requires Past(p, Run(size, Start(boot, log), steps).sweep.Frontier())
    ensures var sys := Run(size, Start(boot, log), steps);
            (p in sys.attempts || p in sys.sweep.Page()) <==> p !in sys.late
  {
    RunKeeps(size, boot, log, steps);
    var sys := Run(size, Start(boot, log), steps);
    BootKept(size, Start(boot, log), steps);
    assert !Less(sys.sweep.Frontier(), p);
  }

  /** A sweep that went to sleep after a short page has attempted every change that was in
      the log when it last asked, save those committed behind its frontier: a burst wider
      than a page leaves no tail. */
  lemma {:induction false} SweepDrains(size: nat, boot: Point, log: set<Point>, steps: seq<Step>, p: Point)
    requires size > 0 && Honest(size, Start(boot, log), steps)
    requires Run(size, Start(boot, log), steps).sweep.mode == Sleeping(true)
    requires p in Run(size, Start(boot, log), steps).asked && Less(boot, p)
    ensures p in Run(size, Start(boot, log), steps).attempts || p in Run(size, Start(boot, log), steps).late
  {
    RunKeeps(size, boot, log, steps);
    var sys := Run(size, Start(boot, log), steps);
    BootKept(size, Start(boot, log), steps);
    assert sys.sweep.Page() == [] && !Less(sys.sweep.cursor, p);
  }

  lemma {:induction false} BootKept(size: nat, sys: System, steps: seq<Step>)
    ensures Run(size, sys, steps).boot == sys.boot
    decreases |steps|
  {
    if steps != [] {
      BootKept(size, sys, steps[..|steps| - 1]);
    }
  }

  /** A change committed behind the frontier is never attempted, however long the sweep runs. */
  lemma {:induction false} LateStaysLate(size: nat, boot: Point, log: set<Point>, steps: seq<Step>, more: seq<Step>, p: Point)
    requires size > 0 && Honest(size, Start(boot, log), steps + more)
    requires p in Run(size, Start(boot, log), steps).late
    ensures p !in Run(size, Start(boot, log), steps + more).attempts
    decreases |more|
  {
    RunKeeps(size, boot, log, steps + more);
    LateGrows(size, Start(boot, log), steps, more, p);
  }

  lemma {:induction false} LateGrows(size: nat, sys: System, steps: seq<Step>, more: seq<Step>, p: Point)
    requires p in Run(size, sys, steps).late
    ensures p in Run(size, sys, steps + more).late
    decreases |more|
  {
    if more == [] {
      assert steps + more == steps;
    } else {
      var init := more[..|more| - 1];
      LateGrows(size, sys, steps, init, p);
      assert (steps + more)[..|steps + more| - 1] == steps + init;
    }
  }

  /** Such a change exists: its transaction began first and committed last, after a sweep
      that read past it. */
  lemma {:induction false} LateCommit(size: nat)
    requires size > 1
    ensures var first, late := Point(5, 1), Point(4, 2);
            var steps := [Commit(first), Query([first]), Deliver(true), Commit(late)];
            var sys := Run(size, Start(Point(0, 0), {}), steps);
            && Honest(size, Start(Point(0, 0), {}), steps)
            && sys.sweep.mode == Sleeping(true) && sys.attempts == [first]
            && late in sys.log && Less(sys.boot, late) && late in sys.late
  {
    hide Run, Honest;
    var first, late := Point(5, 1), Point(4, 2);
    var start := Start(Point(0, 0), {});
    NothingAsked(size, start);
    HonestSnoc(size, start, [], Commit(first));
    var a := [] + [Commit(first)];
    HonestSnoc(size, start, a, Query([first]));
    var b := a + [Query([first])];
    HonestSnoc(size, start, b, Deliver(true));
    HonestSnoc(size, start, b + [Deliver(true)], Commit(late));
    assert b + [Deliver(true)] + [Commit(late)] == [Commit(first), Query([first]), Deliver(true), Commit(late)];
  }

  lemma {:induction false} NothingAsked(size: nat, sys: System)
    ensures Honest(size, sys, []) && Run(size, sys, []) == sys
  {
  }

  // ------------------------------------------------------- one sweep of a still log

  function Ahead(log: set<Point>, cursor: Point): set<Point> {
    set p | p in log && Less(cursor, p)
  }

  lemma {:induction false} Comparable(p: Point, q: Point)
    ensures Less(p, q) || Past(q, p)
  {
    assert p == Point(p.created, p.id) && q == Point(q.created, q.id);
  }

  method First(points: set<Point>) returns (first: Point)
    requires points != {}
    ensures first in points && forall p :: p in points ==> Past(first, p)
  {
    first :| first in points;
    var todo := points - {first};
    while todo != {}
      invariant first in points && todo <= points
      invariant forall p :: p in points && p !in todo ==> Past(first, p)
      decreases todo
    {
      var p :| p in todo;
      Comparable(p, first);
      if Less(p, first) {
        first := p;
      }
      todo := todo - {p};
    }
  }

  /** `ORDER BY created, id LIMIT size` */
  method Page(log: set<Point>, cursor: Point, size: nat) returns (page: seq<Point>)
    ensures IsPage(log, cursor, size, page)
  {
    page := [];
    var rest := Ahead(log, cursor);
    while rest != {} && |page| < size
      invariant Rising(page) && |page| <= size && rest <= Ahead(log, cursor)
      invariant forall p :: p in page <==> p in Ahead(log, cursor) && p !in rest
      invariant forall p, q :: p in page && q in rest ==> Less(p, q)
      decreases rest
    {
      var first := First(rest);
      assert forall i :: 0 <= i < |page| ==> page[i] in page;
      page := page + [first];
      rest := rest - {first};
    }
  }

  /** `_drain_pending_changes` while nothing is committed: page after page until a short one,
      every change past the cursor is attempted once, in order. */
  method Drain(log: set<Point>, since: Point, size: nat) returns (attempts: seq<Point>, cursor: Point)
    requires size > 0
    ensures Rising(attempts) && forall p :: p in attempts <==> p in log && Less(since, p)
    ensures cursor == if attempts == [] then since else attempts[|attempts| - 1]
  {
    attempts, cursor := [], since;
    var full := true;
    while full
      invariant Rising(attempts) && cursor == if attempts == [] then since else attempts[|attempts| - 1]
      invariant forall p :: p in attempts ==> p in log && Less(since, p) && Past(p, cursor)
      invariant forall p :: p in log && Less(since, p) ==> p in attempts || (full && Less(cursor, p))
      decreases full, Ahead(log, cursor)
    {
      var page := Page(log, cursor, size);
      full := |page| >= size;
      AppendPage(log, since, cursor, size, attempts, page);
      ghost var before := cursor;
      attempts := attempts + page;
      if page != [] {
        cursor := page[|page| - 1];
        assert cursor in page && cursor in Ahead(log, before) && cursor !in Ahead(log, cursor);
      }
    }
  }

  lemma {:induction false} AppendPage(log: set<Point>, since: Point, cursor: Point, size: nat, attempts: seq<Point>, page: seq<Point>)
    requires Rising(attempts) && IsPage(log, cursor, size, page)
    requires cursor == if attempts == [] then since else attempts[|attempts| - 1]
    requires forall p :: p in attempts ==> Less(since, p) && Past(p, cursor)
    ensures Rising(attempts + page)
    ensures forall p :: p in page ==> Past(p, page[|page| - 1])
    ensures page != [] ==> forall p :: p in log && Less(cursor, p) && p !in page ==> Less(page[|page| - 1], p)
    ensures Past(since, cursor)
  {
    forall i, j | 0 <= i < j < |attempts + page|
      ensures Less((attempts + page)[i], (attempts + page)[j])
    {
      if i < |attempts| <= j {
        assert attempts[i] in attempts && page[j - |attempts|] in page;
      }
    }
    if page != [] {
      assert page[|page| - 1] in page;
    }
    if attempts != [] {
      assert cursor in attempts;
    }
  }

  // ------------------------------------------------------------------- backoff

  function Power(n: nat): real {
    if n == 0 then 1.0 else 2.0 * Power(n - 1)
  }

  /** How long the task sleeps after its `failures`th failing query in a row. */
  function Delay(interval: real, most: real, failures: nat): real {
    var doubled := interval * Power(failures);
    if doubled < most then doubled else most
  }

  function Total(interval: real, most: real, failures: nat): real {
    if failures == 0 then 0.0 else Total(interval, most, failures - 1) + Delay(interval, most, failures)
  }

  lemma {:induction false} PowerGrows(m: nat, n: nat)
    requires m <= n
    ensures 1.0 <= Power(m) <= Power(n)
  {
    if n > 0 {
      PowerGrows(if m < n then m else n - 1, n - 1);
    }
  }

  lemma {:induction false} DelayCapped(interval: real, most: real, k: nat, n: nat)
    requires interval > 0.0 && interval * Power(k) >= most && k <= n
    ensures Delay(interval, most, n) == most
  {
    PowerGrows(k, n);
    assert interval * (Power(n) - Power(k)) >= 0.0;
  }

  /** In an outage of any length the queries come no faster than one a cap, after the few it
      takes the delay to double up to it. */
  lemma {:induction false} OutageIsSlow(interval: real, most: real, k: nat, n: nat)
    requires interval > 0.0 && most > 0.0 && interval * Power(k) >= most && k <= n
    ensures Total(interval, most, n) >= most * ((n - k) as real)
    decreases n
  {
    if n == k {
      TotalPositive(interval, most, n);
    } else {
      OutageIsSlow(interval, most, k, n - 1);
      DelayCapped(interval, most, k, n);
      assert most * ((n - k) as real) == most * ((n - 1 - k) as real) + most;
    }
  }

  lemma {:induction false} TotalPositive(interval: real, most: real, n: nat)
    requires interval > 0.0 && most > 0.0
    ensures Total(interval, most, n) >= 0.0
  {
    if n > 0 {
      PowerGrows(0, n);
      assert interval * Power(n) >= 0.0;
      TotalPositive(interval, most, n - 1);
    }
  }

  /** `n` failing queries in a row, with the sleep after each. */
  function Outage(n: nat): seq<Step> {
    if n == 0 then [] else Outage(n - 1) + [QueryFails, Wake]
  }

  lemma {:induction false} RunJoins(size: nat, sys: System, a: seq<Step>, b: seq<Step>)
    ensures Run(size, sys, a + b) == Run(size, Run(size, sys, a), b)
    decreases |b|
  {
    if b == [] {
      assert a + b == a;
    } else {
      RunJoins(size, sys, a, b[..|b| - 1]);
      assert (a + b)[..|a + b| - 1] == a + b[..|b| - 1];
    }
  }

  lemma {:induction false} FailOnce(size: nat, sys: System)
    ensures Run(size, sys, [QueryFails, Wake]) == sys.Do(size, QueryFails).Do(size, Wake)
  {
    assert [QueryFails, Wake][..1] == [QueryFails] && [QueryFails][..0] == [];
  }

  /** How many queries failed from the `from`th step on. */
  function Failing(size: nat, sys: System, steps: seq<Step>, from: nat): nat
    decreases |steps|
  {
    if |steps| <= from then 0
    else
      var init := steps[..|steps| - 1];
      Failing(size, sys, init, from) +
      if steps[|init|] == QueryFails && Run(size, sys, init).sweep.mode == Ready then 1 else 0
  }

  /** From the `from`th step on no sweep went to sleep after draining to a short page. */
  ghost predicate NoneDrained(size: nat, sys: System, steps: seq<Step>, from: nat) {
    from <= |steps| && forall j :: from <= j <= |steps| ==> Run(size, sys, steps[..j]).sweep.mode != Sleeping(true)
  }

  lemma {:induction false} NoneDrainedInit(size: nat, sys: System, steps: seq<Step>, from: nat)
    requires steps != [] && from < |steps|
    ensures NoneDrained(size, sys, steps, from) <==>
            NoneDrained(size, sys, steps[..|steps| - 1], from) && Run(size, sys, steps).sweep.mode != Sleeping(true)
  {
    hide Run;
    var init := steps[..|steps| - 1];
    assert steps[..|steps|] == steps;
    assert forall j :: 0 <= j <= |init| ==> init[..j] == steps[..j];
  }

  /** The task's count of failures: none after a drain, and else those since the last one. */
  ghost predicate CountOk(size: nat, sys: System, steps: seq<Step>) {
    var sweep := Run(size, sys, steps).sweep;
    && (sweep.mode == Dead <==> sweep.failures > MAX_EXPONENT)
    && (sweep.mode == Sleeping(true) ==> sweep.failures == 0)
    && (sweep.mode != Sleeping(true) ==> exists from :: NoneDrained(size, sys, steps, from) && Failing(size, sys, steps, from) == sweep.failures)
    && (forall from :: NoneDrained(size, sys, steps, from) ==> Failing(size, sys, steps, from) <= sweep.failures)
  }

  /** What one step does to that count. */
  lemma {:induction false} CountStep(size: nat, sweep: Sweep, step: Step)
    requires sweep.mode == Dead <==> sweep.failures > MAX_EXPONENT
    requires sweep.mode == Sleeping(true) ==> sweep.failures == 0
    ensures var next := sweep.Do(size, step);
            && (next.mode == Dead <==> next.failures > MAX_EXPONENT)
            && (next.mode == Sleeping(true) ==> next.failures == 0)
            && (next.mode != Sleeping(true) ==>
                  next.failures == sweep.failures + if step == QueryFails && sweep.mode == Ready then 1 else 0)
  {
  }

  lemma {:induction false} CountKept(size: nat, sys: System, steps: seq<Step>)
    requires sys.sweep.failures == 0 && sys.sweep.mode != Dead && sys.sweep.mode != Sleeping(true)
    ensures CountOk(size, sys, steps)
    decreases |steps|
  {
    hide Sweep.Do, NoneDrained;
    if steps == [] {
      CountStart(size, sys);
    } else {
      var init, last := steps[..|steps| - 1], steps[|steps| - 1];
      var before, after := Run(size, sys, init).sweep, Run(size, sys, steps).sweep;
      CountKept(size, sys, init);
      SweepSteps(size, Run(size, sys, init), last);
      CountStep(size, before, last);
      forall from: nat | NoneDrained(size, sys, steps, from)
        ensures Failing(size, sys, steps, from) <= after.failures
      {
        DrainedBounds(size, sys, steps, from);
        if from < |steps| {
          NoneDrainedInit(size, sys, steps, from);
        }
      }
      if after.mode != Sleeping(true) {
        if before.mode == Sleeping(true) {
          JustNow(size, sys, steps);
        } else {
          var from :| NoneDrained(size, sys, init, from) && Failing(size, sys, init, from) == before.failures;
          DrainedBounds(size, sys, init, from);
          NoneDrainedInit(size, sys, steps, from);
        }
      }
    }
  }

  lemma {:induction false} CountStart(size: nat, sys: System)
    requires sys.sweep.failures == 0 && sys.sweep.mode != Dead && sys.sweep.mode != Sleeping(true)
    ensures CountOk(size, sys, [])
  {
    JustNow(size, sys, []);
  }

  lemma {:induction false} DrainedBounds(size: nat, sys: System, steps: seq<Step>, from: nat)
    requires NoneDrained(size, sys, steps, from)
    ensures from <= |steps| && Run(size, sys, steps).sweep.mode != Sleeping(true)
  {
    assert steps[..|steps|] == steps;
  }

  lemma {:induction false} JustNow(size: nat, sys: System, steps: seq<Step>)
    requires Run(size, sys, steps).sweep.mode != Sleeping(true)
    ensures NoneDrained(size, sys, steps, |steps|) && Failing(size, sys, steps, |steps|) == 0
  {
    assert steps[..|steps|] == steps;
  }

  lemma {:induction false} SweepSteps(size: nat, sys: System, step: Step)
    ensures sys.Do(size, step).sweep == sys.sweep.Do(size, step)
  {
  }

  /** The task has died exactly when, somewhere, more than 1023 queries failed with no sweep
      draining to a short page between them. Queries that were answered with full pages in
      between do not save it. */
  lemma {:induction false} DeadIff(size: nat, boot: Point, log: set<Point>, steps: seq<Step>)
    ensures Run(size, Start(boot, log), steps).sweep.mode == Dead <==>
            exists from :: NoneDrained(size, Start(boot, log), steps, from)
                           && Failing(size, Start(boot, log), steps, from) > MAX_EXPONENT
  {
    hide NoneDrained, Failing;
    CountKept(size, Start(boot, log), steps);
  }

  /** So an outage that starts with nothing failed kills it when it lasts 1024 queries, and a
      shorter one leaves the cursor where it was. */
  lemma {:induction false} SurvivesIffShort(size: nat, sys: System, n: nat)
    requires sys.sweep.mode == Ready && sys.sweep.failures == 0
    ensures Run(size, sys, Outage(n)).sweep.mode == Dead <==> n > MAX_EXPONENT
    ensures n <= MAX_EXPONENT ==> Run(size, sys, Outage(n)) == sys.(sweep := Sweep(sys.sweep.cursor, Ready, n))
  {
    if n > 0 {
      SurvivesIffShort(size, sys, n - 1);
      RunJoins(size, sys, Outage(n - 1), [QueryFails, Wake]);
      FailOnce(size, Run(size, sys, Outage(n - 1)));
    }
  }

  /** Each round a change is committed, read as a full page and delivered, and the query after
      it fails. */
  function Round(n: nat): seq<Step> {
    [Commit(Point(n, 0)), Query([Point(n, 0)]), Deliver(true), QueryFails, Wake]
  }

  function Rounds(n: nat): seq<Step> {
    if n == 0 then [] else Rounds(n - 1) + Round(n)
  }

  function FirstPoints(n: nat): set<Point> {
    set i | 1 <= i <= n :: Point(i, 0)
  }

  lemma {:induction false} HonestSnoc(size: nat, sys: System, steps: seq<Step>, step: Step)
    requires Honest(size, sys, steps) && AnswersOk(size, Run(size, sys, steps), step)
    ensures Honest(size, sys, steps + [step]) && Run(size, sys, steps + [step]) == Run(size, sys, steps).Do(size, step)
  {
    hide Run, AnswersOk;
    var more := steps + [step];
    assert more[..|steps|] == steps;
    assert forall i :: 0 <= i < |steps| ==> more[..i] == steps[..i];
    RunSnoc(size, sys, steps, step);
  }

  lemma {:induction false} RunSnoc(size: nat, sys: System, steps: seq<Step>, step: Step)
    ensures Run(size, sys, steps + [step]) == Run(size, sys, steps).Do(size, step)
  {
    assert (steps + [step])[..|steps|] == steps;
  }

  lemma {:induction false} RoundRuns(sys: System, steps: seq<Step>, n: nat)
    requires Honest(1, sys, steps) && n > 0
    requires var now := Run(1, sys, steps);
             && now.boot == Point(0, 0) && now.log == FirstPoints(n - 1)
             && now.sweep.cursor == Point(n - 1, 0) && now.sweep.mode == Ready
    ensures Honest(1, sys, steps + Round(n))
    ensures var now, next := Run(1, sys, steps), Run(1, sys, steps + Round(n));
            && next.boot == now.boot && next.log == FirstPoints(n)
            && next.sweep == Sweep(Point(n, 0), if now.sweep.failures < MAX_EXPONENT then Ready else Dead, now.sweep.failures + 1)
  {
    hide Run, Honest;
    var p := Point(n, 0);
    var s0 := Run(1, sys, steps);
    HonestSnoc(1, sys, steps, Commit(p));
    var s1 := s0.Do(1, Commit(p));
    assert s1.log == FirstPoints(n);
    HonestSnoc(1, sys, steps + [Commit(p)], Query([p]));
    var a := steps + [Commit(p)] + [Query([p])];
    HonestSnoc(1, sys, a, Deliver(true));
    HonestSnoc(1, sys, a + [Deliver(true)], QueryFails);
    HonestSnoc(1, sys, a + [Deliver(true)] + [QueryFails], Wake);
    assert steps + Round(n) == a + [Deliver(true)] + [QueryFails] + [Wake];
  }

  /** An answered query between every two that fail does not save the task, when each is a
      full page. */
  lemma {:induction false} AnswersDoNotSave(n: nat)
    requires n <= MAX_EXPONENT + 1
    ensures var run := Run(1, Start(Point(0, 0), {}), Rounds(n));
            && Honest(1, Start(Point(0, 0), {}), Rounds(n))
            && run.boot == Point(0, 0) && run.log == FirstPoints(n)
            && run.sweep == Sweep(Point(n, 0), if n <= MAX_EXPONENT then Ready else Dead, n)
  {
    if n == 0 {
      assert FirstPoints(0) == {};
    } else {
      hide Run, Honest, Round;
      AnswersDoNotSave(n - 1);
      RoundRuns(Start(Point(0, 0), {}), Rounds(n - 1), n);
    }
  }

  /** A dead task attempts nothing, whatever is committed later. */
  lemma {:induction false} DeadIsFinal(size: nat, sys: System, steps: seq<Step>)
    requires sys.sweep.mode == Dead
    ensures Run(size, sys, steps).sweep == sys.sweep && Run(size, sys, steps).attempts == sys.attempts
    decreases |steps|
  {
    if steps != [] {
      DeadIsFinal(size, sys, steps[..|steps| - 1]);
    }
  }

  /** With the task's defaults that is an outage of just under seventeen hours. */
  lemma {:induction false} OutageThatKills()
    ensures Total(0.5, 60.0, MAX_EXPONENT) == 61_083.0
  {
    TotalLinear(MAX_EXPONENT);
  }

  lemma {:induction false} TotalLinear(n: nat)
    requires n >= 6
    ensures Total(0.5, 60.0, n) == 63.0 + 60.0 * ((n - 6) as real)
  {
    assert Power(3) == 8.0;
    assert Power(6) == 64.0 by {
      assert Power(4) == 16.0;
      assert Power(5) == 32.0;
    }
    if n == 6 {
      assert Total(0.5, 60.0, 2) == 3.0;
      assert Total(0.5, 60.0, 3) == 7.0;
      assert Total(0.5, 60.0, 4) == 15.0;
      assert Total(0.5, 60.0, 5) == 31.0;
    } else {
      assert Power(7) == 128.0;
      DelayCapped(0.5, 60.0, 7, n);
      TotalLinear(n - 1);
    }
  }
}
