/** What the leases of `server/inbound.py` come to over whole runs: which sessions a take
    lists and in what order, and which runs a stop or a retirement turns away. */
module LeaseRuns {
  import opened Common
  import opened Dicts
  import opened Leases

  function BookOf(limits: Limits, events: seq<Event>): Book {
    RunLazily(limits, events).book
  }

  lemma {:induction false} BookSnoc(limits: Limits, events: seq<Event>)
    requires events != []
    ensures var init, ev := events[..|events| - 1], events[|events| - 1];
            BookOf(limits, events) == BookOf(limits, init).Do(limits, ev.op, ev.now).0
  {
    hide Book.Do;
  }

  lemma {:induction false} DoBook(b: Book, limits: Limits, op: Op, now: real)
    requires BookOk(b)
    ensures BookOk(b.Do(limits, op, now).0)
  {
    hide BookOk, Book.Revoked, Book.Looked, Book.Swept, Book.Renewed, Book.With, Get, PutRun;
    var c := b.Do(limits, op, now).0;
    match op {
      case Mark(id, where, account) =>
        RenewedBook(b, limits, id, where, account, now);
        SweptGone(b.Renewed(limits, id, where, account, now), limits, now);
      case Report(id, instance, state) =>
        RevokedBook(b, limits, id, now);
        if b.Live(id, now).Some? {
          WithBook(b.Looked(limits, id, now), id, b.Live(id, now).value.(where := b.Live(id, now).value.where.(state := state)));
        }
      case TakeGone =>
        SweptGone(b, limits, now);
        NoneGone(b.Swept(limits, now));
      case Active(_, _) => SweptGone(b, limits, now);
      case RunsOn(_, _) => SweptGone(b, limits, now);
      case IsStopped(_, _) =>
      case _ =>
        RevokedBook(b, limits, op.id, now);
        BookFields(b.Revoked(limits, op.id, now), c);
    }
  }

  lemma {:induction false} BookInRun(limits: Limits, events: seq<Event>)
    ensures BookOk(BookOf(limits, events))
    decreases |events|
  {
    hide BookOk, Book.Do;
    if events == [] {
      NothingRun(limits, 0.0);
      EmptyOk();
    } else {
      BookSnoc(limits, events);
      BookInRun(limits, events[..|events| - 1]);
      DoBook(BookOf(limits, events[..|events| - 1]), limits, events[|events| - 1].op, events[|events| - 1].now);
    }
  }

  lemma {:induction false} EmptyOk()
    ensures BookOk(EMPTY)
  {
    assert Elements([]) == {};
  }

  // ------------------------------------------------------------ what a take lists

  /** In any run a take lists each session once. */
  lemma {:induction false} TakenOnce(limits: Limits, events: seq<Event>, now: real)
    ensures Distinct(Names(BookOf(limits, events).Swept(limits, now).gone))
  {
    hide Book.Swept;
    BookInRun(limits, events);
    SweptGone(BookOf(limits, events), limits, now);
  }

  /** The sessions of CLI runs whose leases have expired, in the dictionary's order. */
  function Fallen(b: Book, now: real): (ids: seq<Id>)
    ensures forall id :: id in ids ==> id in b.leases
  {
    Those(b.order, Clis(Expired(b.leases, now)))
  }

  function EndsOf(ids: seq<Id>, leases: Table): Dict<real>
    requires forall id :: id in ids ==> id in leases
  {
    seq(|ids|, i requires 0 <= i < |ids| => Entry(ids[i], leases[ids[i]].expires))
  }

  function Left<V>(d: Dict<V>, keys: set<Id>): Dict<V> {
    if d == [] then []
    else Left(d[..|d| - 1], keys) + if d[|d| - 1].id in keys then [] else [d[|d| - 1]]
  }

  lemma {:induction false} LeftIds<V>(d: Dict<V>, keys: set<Id>)
    ensures Ids(Left(d, keys)) == Ids(d) - keys
    decreases |d|
  {
    if d != [] {
      var init, last := d[..|d| - 1], d[|d| - 1];
      SplitLast(d);
      LeftIds(init, keys);
      if last.id in keys {
        assert Left(init, keys) + [] == Left(init, keys);
      } else {
        IdsSnoc(Left(init, keys), last);
      }
    }
  }

  lemma {:induction false} DropLeft<V>(d: Dict<V>, keys: set<Id>, id: Id)
    requires DistinctIds(d)
    ensures Drop(Left(d, keys), id) == Left(d, keys + {id})
    decreases |d|
  {
    if d != [] {
      var init, last := d[..|d| - 1], d[|d| - 1];
      SplitLast(d);
      DistinctSnoc(init, last);
      DropLeft(init, keys, id);
      if last.id in keys {
        assert Left(init, keys) + [] == Left(init, keys);
      } else if last.id == id {
        LeftIds(init, keys);
        DropAbsent(Left(init, keys), id);
        assert (Left(init, keys) + [last])[..|Left(init, keys)|] == Left(init, keys);
      } else {
        assert (Left(init, keys) + [last])[..|Left(init, keys)|] == Left(init, keys);
      }
    }
  }

  lemma {:induction false} NothingLeftOut<V>(d: Dict<V>)
    ensures Left(d, {}) == d
    decreases |d|
  {
    if d != [] {
      SplitLast(d);
      NothingLeftOut(d[..|d| - 1]);
    }
  }

  lemma {:induction false} EndsIds(ids: seq<Id>, leases: Table)
    requires forall id :: id in ids ==> id in leases
    ensures Ids(EndsOf(ids, leases)) == Elements(ids)
  {
    var ends := EndsOf(ids, leases);
    assert forall i :: 0 <= i < |ids| ==> ends[i].id == ids[i];
    forall id | id in Elements(ids)
      ensures id in Ids(ends)
    {
      var i :| 0 <= i < |ids| && ids[i] == id;
      assert ends[i].id == id;
    }
  }

  function Fell(id: Id, leases: Table): set<Id>
    requires id in leases
  {
    if leases[id].where.cli.Some? then {id} else {}
  }

  lemma {:induction false} ClisMore(init: seq<Id>, last: Id, leases: Table)
    requires forall id :: id in init + [last] ==> id in leases
    ensures ClisIn(init + [last], leases) == ClisIn(init, leases) + Fell(last, leases)
  {
  }

  lemma {:induction false} ThoseSnoc(ids: seq<Id>, id: Id, keys: set<Id>)
    ensures Those(ids + [id], keys) == Those(ids, keys) + if id in keys then [id] else []
  {
    assert (ids + [id])[..|ids|] == ids;
  }

  /** One session more falls: it moves to the end. */
  lemma {:induction false} FellOnce(gone: Dict<real>, before: set<Id>, those: seq<Id>, last: Id, leases: Table)
    requires DistinctIds(gone) && last !in those && last in leases && forall id :: id in those ==> id in leases
    ensures Drop(Left(gone, before) + EndsOf(those, leases), last) + [Entry(last, leases[last].expires)]
            == Left(gone, before + {last}) + EndsOf(those + [last], leases)
  {
    hide Left, Drop;
    EndsIds(those, leases);
    DropJoin(Left(gone, before), EndsOf(those, leases), last);
    DropLeft(gone, before, last);
    assert EndsOf(those + [last], leases) == EndsOf(those, leases) + [Entry(last, leases[last].expires)];
  }

  /** The sessions gone once these have fallen: each moves to the end. */
  function Listed(gone: Dict<real>, ids: seq<Id>, leases: Table): Dict<real>
    requires forall id :: id in ids ==> id in leases
  {
    Left(gone, ClisIn(ids, leases)) + EndsOf(Those(ids, ClisIn(ids, leases)), leases)
  }

  lemma {:induction false} NoneFell(gone: Dict<real>, leases: Table)
    ensures Listed(gone, [], leases) == gone
  {
    NothingLeftOut(gone);
    assert ClisIn([], leases) == {};
  }

  /** Noting them one by one, the oldest forgotten each time, leaves the newest of those. */
  lemma {:induction false} NotedAllIs(gone: Dict<real>, ids: seq<Id>, leases: Table, cap: nat)
    requires DistinctIds(gone) && |gone| <= cap && Distinct(ids) && forall id :: id in ids ==> id in leases
    ensures NotedAll(gone, ids, leases, cap) == Newest(Listed(gone, ids, leases), cap)
    ensures DistinctIds(Listed(gone, ids, leases))
    decreases |ids|
  {
    hide Listed, NotedAll, Noted, Ids, DistinctIds;
    if ids == [] {
      NoneFell(gone, leases);
      NoneNoted(gone, leases, cap);
    } else {
      var init, last := ids[..|ids| - 1], ids[|ids| - 1];
      assert ids == init + [last] && last !in init;
      NotedAllIs(gone, init, leases, cap);
      NotedSnoc(gone, init, last, leases, cap);
      OneMoreFell(gone, init, last, leases, cap);
    }
  }

  lemma {:induction false} NoneNoted(gone: Dict<real>, leases: Table, cap: nat)
    ensures NotedAll(gone, [], leases, cap) == gone
  {
  }

  lemma {:induction false} OneMoreFell(gone: Dict<real>, init: seq<Id>, last: Id, leases: Table, cap: nat)
    requires DistinctIds(gone) && last !in init && forall id :: id in init + [last] ==> id in leases
    requires DistinctIds(Listed(gone, init, leases))
    ensures Noted(Newest(Listed(gone, init, leases), cap), last, leases[last], leases[last].expires, cap)
            == Newest(Listed(gone, init + [last], leases), cap)
    ensures DistinctIds(Listed(gone, init + [last], leases))
  {
    hide Left, EndsOf, Ids, DistinctIds, Drop;
    var before, after := ClisIn(init, leases), ClisIn(init + [last], leases);
    ClisMore(init, last, leases);
    ThoseSnoc(init, last, after);
    SameInit(init, before, last, Fell(last, leases));
    if leases[last].where.cli.None? {
      assert before + {} == before;
      NotFallen(init, last, leases);
      assert Those(init, after) + [] == Those(init, after);
    } else {
      var was, entry := Listed(gone, init, leases), Entry(last, leases[last].expires);
      OnlyThose(init, before, last);
      FellOnce(gone, before, Those(init, before), last, leases);
      assert Drop(was, last) + [entry] == Listed(gone, init + [last], leases);
      PutNewest(was, last, leases[last].expires, cap);
      DropIds(was, last);
      DistinctSnoc(Drop(was, last), entry);
    }
  }

  lemma {:induction false} NotFallen(init: seq<Id>, last: Id, leases: Table)
    requires (forall id :: id in init + [last] ==> id in leases) && leases[last].where.cli.None?
    ensures last !in ClisIn(init + [last], leases)
  {
  }

  lemma {:induction false} SameInit(init: seq<Id>, before: set<Id>, last: Id, more: set<Id>)
    requires last !in init && more <= {last}
    ensures Those(init, before + more) == Those(init, before)
  {
    assert Elements(init) * (before + more) == Elements(init) * before;
    ThoseSame(init, before + more, before);
  }

  lemma {:induction false} OnlyThose(ids: seq<Id>, keys: set<Id>, id: Id)
    requires id !in ids
    ensures id !in Those(ids, keys)
    decreases |ids|
  {
    if ids != [] {
      OnlyThose(ids[..|ids| - 1], keys, id);
    }
  }

  // ------------------------------------------------------- no more than the cap

  lemma {:induction false} NotedAllFits(gone: Dict<real>, ids: seq<Id>, leases: Table, cap: nat)
    requires DistinctIds(gone) && |gone| <= cap && forall id :: id in ids ==> id in leases
    ensures |NotedAll(gone, ids, leases, cap)| <= cap
    decreases |ids|
  {
    if ids != [] {
      var init, last := ids[..|ids| - 1], ids[|ids| - 1];
      NotedAllFits(gone, init, leases, cap);
      NotedAllKeeps(gone, init, leases, cap);
      PutIds(NotedAll(gone, init, leases, cap), last, leases[last].expires, cap);
    }
  }

  predicate Fits(b: Book, limits: Limits) {
    |b.gone| <= limits.maxGone
  }

  lemma {:induction false} DroppedFits(b: Book, limits: Limits, id: Id, now: real)
    requires BookOk(b) && Fits(b, limits)
    ensures Fits(b.Revoked(limits, id, now), limits) && Fits(b.Looked(limits, id, now), limits)
  {
    if id in b.leases {
      PutIds(b.gone, id, EndOf(b.leases[id], now), limits.maxGone);
    }
  }

  lemma {:induction false} SweptFits(b: Book, limits: Limits, now: real)
    requires BookOk(b) && Fits(b, limits)
    ensures Fits(b.Swept(limits, now), limits)
  {
    hide NotedAll;
    NotedAllFits(b.gone, b.Lapsed(now), b.leases, limits.maxGone);
  }

  lemma {:induction false} DoFits(b: Book, limits: Limits, op: Op, now: real)
    requires BookOk(b) && Fits(b, limits)
    ensures Fits(b.Do(limits, op, now).0, limits)
  {
    hide BookOk, Book.Revoked, Book.Looked, Book.Swept, Get, PutRun, PutLast;
    match op {
      case Mark(id, where, account) =>
        DroppedFits(b, limits, id, now);
        RenewedBook(b, limits, id, where, account, now);
        SweptFits(b.Renewed(limits, id, where, account, now), limits, now);
      case TakeGone =>
      case Active(_, _) => SweptFits(b, limits, now);
      case RunsOn(_, _) => SweptFits(b, limits, now);
      case IsStopped(_, _) =>
      case _ => DroppedFits(b, limits, op.id, now);
    }
  }

  lemma {:induction false} FitsInRun(limits: Limits, events: seq<Event>)
    ensures Fits(BookOf(limits, events), limits)
    decreases |events|
  {
    hide BookOk, Book.Do;
    if events != [] {
      BookSnoc(limits, events);
      BookInRun(limits, events[..|events| - 1]);
      FitsInRun(limits, events[..|events| - 1]);
      DoFits(BookOf(limits, events[..|events| - 1]), limits, events[|events| - 1].op, events[|events| - 1].now);
    }
  }

  /** What a take lists, after any run: the sessions noted before it that have not fallen
      since, and then those it notices, as the dictionary holds them; of all these the newest
      that there is room for. */
  lemma {:induction false} TakenIs(limits: Limits, events: seq<Event>, now: real)
    ensures var b := BookOf(limits, events);
            b.Swept(limits, now).gone
            == Newest(Left(b.gone, Clis(Expired(b.leases, now))) + EndsOf(Fallen(b, now), b.leases), limits.maxGone)
  {
    hide BookOf, Book.Swept;
    BookInRun(limits, events);
    FitsInRun(limits, events);
    SweptIs(BookOf(limits, events), limits, now);
  }

  lemma {:induction false} SweptIs(b: Book, limits: Limits, now: real)
    requires BookOk(b) && Fits(b, limits)
    ensures b.Swept(limits, now).gone
            == Newest(Left(b.gone, Clis(Expired(b.leases, now))) + EndsOf(Fallen(b, now), b.leases), limits.maxGone)
  {
    hide NotedAll, Left, EndsOf, Those;
    var lapsed := Expired(b.leases, now);
    LapsedOnce(b, now);
    assert ClisIn(b.Lapsed(now), b.leases) == Clis(lapsed) by {
      assert forall id :: id in b.Lapsed(now) <==> id in Elements(b.Lapsed(now));
    }
    NotedAllIs(b.gone, b.Lapsed(now), b.leases, limits.maxGone);
    ThoseTwice(b.order, lapsed.Keys, Clis(lapsed));
    assert lapsed.Keys * Clis(lapsed) == Clis(lapsed);
  }

  /** The sessions are listed in the order their leases ended. */
  ghost predicate OldestFirst(gone: Dict<real>) {
    forall i, j :: 0 <= i < j < |gone| ==> gone[i].value <= gone[j].value
  }

  /** Of two leases that run out together in the dictionary, the one first put ends first. */
  ghost predicate EndInOrder(ids: seq<Id>, leases: Table)
    requires forall id :: id in ids ==> id in leases
  {
    forall i, j :: 0 <= i < j < |ids| ==> leases[ids[i]].expires <= leases[ids[j]].expires
  }

  /** How many of the sessions noted before a take, and of those it notices, there is no room for. */
  function Forgotten(noted: nat, noticed: nat, cap: nat): (nat, nat) {
    var over := if noted + noticed > cap then noted + noticed - cap else 0;
    if over <= noted then (over, 0) else (noted, over - noted)
  }

  /** A take, after any run, lists the sessions oldest first exactly when, of those there is
      room for, the ones noted before it were so, the leases it now notices ended in the
      order they were first polled, and none of those ended before one already noted. */
  lemma {:induction false} OldestFirstIff(limits: Limits, events: seq<Event>, now: real)
    ensures var b := BookOf(limits, events);
            var before, ids := Left(b.gone, Clis(Expired(b.leases, now))), Fallen(b, now);
            var (noted, noticed) := Forgotten(|before|, |ids|, limits.maxGone);
            noted <= |before| && noticed <= |ids| &&
            (OldestFirst(b.Swept(limits, now).gone) <==>
             && OldestFirst(before[noted..]) && EndInOrder(ids[noticed..], b.leases)
             && forall e, id :: e in before[noted..] && id in ids[noticed..] ==> e.value <= b.leases[id].expires)
  {
    hide Left, Fallen, Book.Swept, BookOf, OldestFirst, EndInOrder;
    var b := BookOf(limits, events);
    TakenIs(limits, events, now);
    var before, ids := Left(b.gone, Clis(Expired(b.leases, now))), Fallen(b, now);
    var (noted, noticed) := Forgotten(|before|, |ids|, limits.maxGone);
    NewestOfBoth(before, ids, b.leases, limits.maxGone);
    OrderJoins(before[noted..], ids[noticed..], b.leases);
  }

  lemma {:induction false} NewestOfBoth(before: Dict<real>, ids: seq<Id>, leases: Table, cap: nat)
    requires forall id :: id in ids ==> id in leases
    ensures var (noted, noticed) := Forgotten(|before|, |ids|, cap);
            && noted <= |before| && noticed <= |ids|
            && Newest(before + EndsOf(ids, leases), cap) == before[noted..] + EndsOf(ids[noticed..], leases)
  {
  }

  lemma {:induction false} OrderJoins(before: Dict<real>, ids: seq<Id>, leases: Table)
    requires forall id :: id in ids ==> id in leases
    ensures OldestFirst(before + EndsOf(ids, leases)) <==>
            && OldestFirst(before) && EndInOrder(ids, leases)
            && forall e, id :: e in before && id in ids ==> e.value <= leases[id].expires
  {
    hide OldestFirst, EndInOrder;
    var ends := EndsOf(ids, leases);
    JoinOrder(before, ends);
    EndsOrder(ids, leases);
    if forall i, j :: 0 <= i < |before| && 0 <= j < |ends| ==> before[i].value <= ends[j].value {
      forall e, id | e in before && id in ids
        ensures e.value <= leases[id].expires
      {
        var i :| 0 <= i < |before| && before[i] == e;
        var j :| 0 <= j < |ids| && ids[j] == id;
        assert before[i].value <= ends[j].value;
      }
    }
    if forall e, id :: e in before && id in ids ==> e.value <= leases[id].expires {
      forall i, j | 0 <= i < |before| && 0 <= j < |ends|
        ensures before[i].value <= ends[j].value
      {
        assert before[i] in before && ids[j] in ids;
      }
    }
  }

  lemma {:induction false} EndsOrder(ids: seq<Id>, leases: Table)
    requires forall id :: id in ids ==> id in leases
    ensures OldestFirst(EndsOf(ids, leases)) <==> EndInOrder(ids, leases)
  {
    var ends := EndsOf(ids, leases);
    assert forall i :: 0 <= i < |ids| ==> ends[i].value == leases[ids[i]].expires;
  }

  lemma {:induction false} JoinOrder(a: Dict<real>, b: Dict<real>)
    ensures OldestFirst(a + b) <==>
            && OldestFirst(a) && OldestFirst(b)
            && forall i, j :: 0 <= i < |a| && 0 <= j < |b| ==> a[i].value <= b[j].value
  {
    var all := a + b;
    if OldestFirst(all) {
      assert forall i :: 0 <= i < |a| ==> all[i] == a[i];
      forall i, j | 0 <= i < j < |b|
        ensures b[i].value <= b[j].value
      {
        assert all[|a| + i].value <= all[|a| + j].value;
      }
      forall i, j | 0 <= i < |a| && 0 <= j < |b|
        ensures a[i].value <= b[j].value
      {
        assert all[i].value <= all[|a| + j].value;
      }
    }
  }

  /** One CLI run, as its polls name it. */
  function Cli(instance: string, cwd: Option<string>): Where {
    Where(None, None, cwd, Some("claude"), Some(instance), false, IDLE)
  }

  predicate Roomy(limits: Limits) {
    && limits.ttl == 45.0 && limits.maxLeases >= 2 && limits.maxGone >= 2
    && limits.maxStopped >= 1 && limits.maxRetired >= 1 && limits.maxPlaces >= 1
  }

  /** Two sessions poll in turn and the first polls once more: a take after both are gone
      lists the first before the second, whose lease ended ten seconds earlier. */
  lemma {:induction false} TakenOutOfOrder(limits: Limits)
    requires Roomy(limits)
    ensures var b := EMPTY.Do(limits, Mark(1, Cli("a", None), None), 0.0).0.Do(limits, Mark(2, Cli("b", None), None), 10.0).0
                          .Do(limits, Mark(1, Cli("a", None), None), 20.0).0;
            b.Swept(limits, 100.0).gone == [Entry(1, 65.0), Entry(2, 55.0)]
  {
    hide Book.Do, Book.Swept;
    FirstPolls(limits);
    SecondPolls(limits);
    FirstPollsAgain(limits);
    BookOfTwo(TwoLeases(65.0), limits);
  }

  const ONE_LEASE := EMPTY.(leases := map[1 := Lease(45.0, Cli("a", None), None)], order := [1])

  function TwoLeases(expires: real): Book {
    EMPTY.(leases := map[1 := Lease(expires, Cli("a", None), None), 2 := Lease(55.0, Cli("b", None), None)], order := [1, 2])
  }

  lemma {:induction false} FirstPolls(limits: Limits)
    requires Roomy(limits)
    ensures EMPTY.Do(limits, Mark(1, Cli("a", None), None), 0.0).0 == ONE_LEASE
  {
    hide Book.Swept;
  }

  lemma {:induction false} SecondPolls(limits: Limits)
    requires Roomy(limits)
    ensures ONE_LEASE.Do(limits, Mark(2, Cli("b", None), None), 10.0).0 == TwoLeases(45.0)
  {
    hide Book.Swept;
  }

  lemma {:induction false} FirstPollsAgain(limits: Limits)
    requires Roomy(limits)
    ensures TwoLeases(45.0).Do(limits, Mark(1, Cli("a", None), None), 20.0).0 == TwoLeases(65.0)
  {
    hide Book.Swept;
    var b := TwoLeases(45.0).Renewed(limits, 1, Cli("a", None), None, 20.0);
    assert b.leases == TwoLeases(65.0).leases;
  }

  lemma {:induction false} BookOfTwo(b: Book, limits: Limits)
    requires limits.maxGone >= 2 && b == TwoLeases(65.0)
    ensures b.Swept(limits, 100.0).gone == [Entry(1, 65.0), Entry(2, 55.0)]
  {
    hide Those, Book.Swept, NotedAll, Clis, Expired, Elements, Ids;
    OneAndTwo(b.leases);
    NoIds();
    assert Ids(b.gone) + {1, 2} == {1, 2};
    ThoseAll([1, 2], {1, 2});
    SweptIs(b, limits, 100.0);
    assert EndsOf([1, 2], b.leases) == [Entry(1, 65.0), Entry(2, 55.0)];
  }

  lemma {:induction false} NoIds()
    ensures Ids<real>([]) == {} && Elements([1, 2]) == {1, 2}
  {
    assert [1, 2][0] == 1 && [1, 2][1] == 2;
  }

  lemma {:induction false} OneAndTwo(leases: Table)
    requires leases.Keys == {1, 2} && forall id :: id in leases ==> leases[id].expires <= 100.0 && leases[id].where.cli.Some?
    ensures Clis(Expired(leases, 100.0)) == {1, 2}
  {
  }

  // ------------------------------------------- what stops and retirements turn away

  /** Every stop that found a run, in order, with the run its lease then named. */
  function Stops(limits: Limits, events: seq<Event>): Dict<string> {
    if events == [] then []
    else
      var init, ev := events[..|events| - 1], events[|events| - 1];
      Stops(limits, init) +
      if ev.op.Stop? && RunOf(BookOf(limits, init).leases, ev.op.id).Some?
      then [Entry(ev.op.id, RunOf(BookOf(limits, init).leases, ev.op.id).value)] else []
  }

  /** Every retirement that found a run, in order. */
  function Retirements(limits: Limits, events: seq<Event>): Dict<string> {
    if events == [] then []
    else
      var init, ev := events[..|events| - 1], events[|events| - 1];
      var b := BookOf(limits, init);
      Retirements(limits, init) +
      if ev.op.Retire? && RetiresRun(b.leases, b.places, ev.op.id).Some?
      then [Entry(ev.op.id, RetiresRun(b.leases, b.places, ev.op.id).value)] else []
  }

  /** Every poll, and every one that said where its run is, with what it said of it. */
  function Polls(events: seq<Event>): Dict<Where> {
    if events == [] then []
    else
      var ev := events[|events| - 1];
      Polls(events[..|events| - 1]) + if ev.op.Mark? then [Entry(ev.op.id, ev.op.where)] else []
  }

  function Placings(limits: Limits, events: seq<Event>): Dict<Where> {
    if events == [] then []
    else
      var init, ev := events[..|events| - 1], events[|events| - 1];
      Placings(limits, init) +
      if ev.op.Mark? && Placed(ev.op.where)
      then [Entry(ev.op.id, Continued(BookOf(limits, init).Live(ev.op.id, ev.now), ev.op.where))] else []
  }

  /** What an operation does to the dictionaries of runs. */
  predicate SameDicts(b: Book, c: Book) {
    c.stopped == b.stopped && c.retired == b.retired && c.places == b.places
  }

  /** Leases come and go without touching those dictionaries. */
  lemma {:induction false} DictsKept(b: Book, limits: Limits, id: Id, now: real)
    ensures SameDicts(b, b.Revoked(limits, id, now)) && SameDicts(b, b.Looked(limits, id, now))
  {
  }

  lemma {:induction false} DictsSwept(b: Book, limits: Limits, now: real)
    ensures SameDicts(b, b.Swept(limits, now))
  {
  }

  lemma {:induction false} DictsWith(b: Book, id: Id, lease: Lease)
    ensures SameDicts(b, b.With(id, lease))
  {
  }

  /** What an operation does to the dictionaries of runs. */
  lemma {:induction false} DoDicts(b: Book, limits: Limits, op: Op, now: real)
    ensures var c := b.Do(limits, op, now).0;
            && c.stopped == (if op.Stop? then PutRun(b.stopped, op.id, RunOf(b.leases, op.id), limits.maxStopped) else b.stopped)
            && c.retired == (if op.Retire? then PutRun(b.retired, op.id, RetiresRun(b.leases, b.places, op.id), limits.maxRetired)
                             else b.retired)
            && c.places == (if op.Mark? && Placed(op.where)
                            then PutLast(b.places, op.id, Continued(b.Live(op.id, now), op.where), limits.maxPlaces) else b.places)
  {
    hide Book.Revoked, Book.Looked, Book.Swept, Book.With, PutLast, Get, Wanted, RunsThere, HoldsOff, Continued;
    match op {
      case Mark(id, where, account) =>
        var lease := Lease(now + limits.ttl, Continued(b.Live(id, now), where), account);
        DictsKept(b, limits, id, now);
        DictsWith(b.Looked(limits, id, now), id, lease);
        DictsSwept(b.Renewed(limits, id, where, account, now), limits, now);
      case Report(id, _, state) =>
        var live := b.Live(id, now);
        DictsKept(b, limits, id, now);
        if live.Some? {
          DictsWith(b.Looked(limits, id, now), id, live.value.(where := live.value.where.(state := state)));
        }
      case TakeGone => DictsSwept(b, limits, now);
      case Active(_, _) => DictsSwept(b, limits, now);
      case RunsOn(_, _) => DictsSwept(b, limits, now);
      case IsStopped(_, _) =>
      case _ => DictsKept(b, limits, op.id, now);
    }
  }

  lemma {:induction false} FilledSnoc<V>(puts: Dict<V>, e: Entry<V>, cap: nat)
    ensures Filled(puts + [e], cap) == PutLast(Filled(puts, cap), e.id, e.value, cap)
  {
    assert (puts + [e])[..|puts|] == puts;
  }

  lemma {:induction false} DictsAreFilled(limits: Limits, events: seq<Event>)
    ensures var b := BookOf(limits, events);
            && b.stopped == Filled(Stops(limits, events), limits.maxStopped)
            && b.retired == Filled(Retirements(limits, events), limits.maxRetired)
            && b.places == Filled(Placings(limits, events), limits.maxPlaces)
    decreases |events|
  {
    hide Book.Do, Filled, PutLast, Get, Continued;
    if events == [] {
      NothingFilled(limits);
    } else {
      var init, ev := events[..|events| - 1], events[|events| - 1];
      var b := BookOf(limits, init);
      BookSnoc(limits, events);
      DictsAreFilled(limits, init);
      DoDicts(b, limits, ev.op, ev.now);
      match ev.op {
        case Stop(id) =>
          if RunOf(b.leases, id).Some? {
            FilledSnoc(Stops(limits, init), Entry(id, RunOf(b.leases, id).value), limits.maxStopped);
          }
        case Retire(id) =>
          if RetiresRun(b.leases, b.places, id).Some? {
            FilledSnoc(Retirements(limits, init), Entry(id, RetiresRun(b.leases, b.places, id).value), limits.maxRetired);
          }
        case Mark(id, where, _) =>
          if Placed(where) {
            FilledSnoc(Placings(limits, init), Entry(id, Continued(b.Live(id, ev.now), where)), limits.maxPlaces);
          }
        case _ =>
      }
      assert Stops(limits, init) + [] == Stops(limits, init);
      assert Retirements(limits, init) + [] == Retirements(limits, init);
      assert Placings(limits, init) + [] == Placings(limits, init);
    }
  }

  lemma {:induction false} NothingFilled(limits: Limits)
    ensures var b := BookOf(limits, []);
            && b.stopped == Filled(Stops(limits, []), limits.maxStopped)
            && b.retired == Filled(Retirements(limits, []), limits.maxRetired)
            && b.places == Filled(Placings(limits, []), limits.maxPlaces)
  {
  }

  /** After any run, `stopped` says yes to just the run that the session's last stop found,
      for as long as fewer others have been stopped since than are remembered. */
  lemma {:induction false} StoppedIff(limits: Limits, events: seq<Event>, id: Id, instance: string, now: real)
    ensures var stops := Stops(limits, events);
            BookOf(limits, events).Do(limits, IsStopped(id, instance), now).1
            == Held(Get(stops, id) == Some(instance) && |Since(stops, id)| < limits.maxStopped)
  {
    hide Get, Since, Filled, Book.Do, BookOf, Stops;
    DictsAreFilled(limits, events);
    FilledGet(Stops(limits, events), limits.maxStopped, id);
    AnswersStopped(BookOf(limits, events), limits, id, instance, now);
  }

  lemma {:induction false} AnswersStopped(b: Book, limits: Limits, id: Id, instance: string, now: real)
    ensures b.Do(limits, IsStopped(id, instance), now).1 == Held(Get(b.stopped, id) == Some(instance))
  {
  }

  /** A drain is held off by the remembered retirement that found its run, or by a live lease. */
  lemma {:induction false} HeldByLive(limits: Limits, events: seq<Event>, id: Id, cli: string, instance: string, now: real)
    ensures var b, retirements := BookOf(limits, events), Retirements(limits, events);
            b.Do(limits, HeldBy(id, cli, instance), now).1
            == Held((Get(retirements, id) == Some(instance) && |Since(retirements, id)| < limits.maxRetired)
                    || HoldsOff(b.Live(id, now), cli, instance))
  {
    hide Get, Since, Filled, HoldsOff, Book.Do, BookOf, Retirements;
    DictsAreFilled(limits, events);
    FilledGet(Retirements(limits, events), limits.maxRetired, id);
    AnswersHeld(BookOf(limits, events), limits, id, cli, instance, now);
  }

  lemma {:induction false} AnswersHeld(b: Book, limits: Limits, id: Id, cli: string, instance: string, now: real)
    ensures b.Do(limits, HeldBy(id, cli, instance), now).1
            == Held(Get(b.retired, id) == Some(instance) || HoldsOff(b.Live(id, now), cli, instance))
  {
  }

  lemma {:induction false} LeaseStep(b: Book, limits: Limits, op: Op, now: real, id: Id)
    requires id in b.Do(limits, op, now).0.leases && !(op.Mark? && op.id == id)
    ensures id in b.leases && b.Do(limits, op, now).0.leases[id].where.instance == b.leases[id].where.instance
  {
    hide Noted, NotedAll, Without, Those, PutLast, Get, Wanted, RunsThere, HoldsOff, Continued, RunOf, RetiresRun, PutRun;
  }

  lemma {:induction false} MarkedLease(b: Book, limits: Limits, op: Op, now: real)
    requires op.Mark? && op.id in b.Do(limits, op, now).0.leases
    ensures b.Do(limits, op, now).0.leases[op.id].where.instance == op.where.instance
  {
    hide Noted, NotedAll, Without, Those, PutLast, Get;
  }

  /** A lease names the run of the session's last poll. */
  lemma {:induction false} LeaseIsLastPoll(limits: Limits, events: seq<Event>, id: Id)
    requires id in BookOf(limits, events).leases
    ensures Get(Polls(events), id).Some? && BookOf(limits, events).leases[id].where.instance == Get(Polls(events), id).value.instance
    decreases |events|
  {
    hide Book.Do;
    if events != [] {
      var init, ev := events[..|events| - 1], events[|events| - 1];
      BookSnoc(limits, events);
      if ev.op.Mark? {
        SinceSnoc(Polls(init), Entry(ev.op.id, ev.op.where), id);
      } else {
        assert Polls(init) + [] == Polls(init);
      }
      if ev.op.Mark? && ev.op.id == id {
        MarkedLease(BookOf(limits, init), limits, ev.op, ev.now);
      } else {
        LeaseStep(BookOf(limits, init), limits, ev.op, ev.now, id);
        LeaseIsLastPoll(limits, init, id);
      }
    }
  }

  function RunIn(where: Option<Where>): Option<string> {
    if where.Some? then where.value.instance else None
  }

  /** The run of the session's last poll that said where it is, while remembered. */
  function PlacedRun(limits: Limits, events: seq<Event>, id: Id): Option<string> {
    var placings := Placings(limits, events);
    if |Since(placings, id)| < limits.maxPlaces then RunIn(Get(placings, id)) else None
  }

  // ------------------------------------------- what reads a lease without its expiry

  lemma {:induction false} PutGet(d: Dict<string>, id: Id, run: string, cap: nat, x: Id)
    requires DistinctIds(d) && |d| <= cap && cap > 0
    ensures Get(PutLast(d, id, run, cap), id) == Some(run)
    ensures id in Ids(d) && x != id ==> Get(PutLast(d, id, run, cap), x) == Get(d, x)
  {
    hide Get, Drop, Ids, DistinctIds;
    var all := Drop(d, id) + [Entry(id, run)];
    DropIds(d, id);
    SinceSnoc(Drop(d, id), Entry(id, run), id);
    DistinctSnoc(Drop(d, id), Entry(id, run));
    if |all| > cap {
      assert all[|all| - cap..] == all[|all| - cap..|all| - 1] + [Entry(id, run)];
      SinceSnoc(all[|all| - cap..|all| - 1], Entry(id, run), id);
    } else if x != id {
      SinceSnoc(Drop(d, id), Entry(id, run), x);
      SinceDrop(d, id, x);
    }
  }

  /** Two runs put for a session leave all answers alike exactly when they are one, or the
      one that is there is what was there before. */
  lemma {:induction false} PutRunSame(d: Dict<string>, id: Id, a: Option<string>, b: Option<string>, cap: nat)
    requires DistinctIds(d) && |d| <= cap && cap > 0
    ensures (forall x :: Get(PutRun(d, id, a, cap), x) == Get(PutRun(d, id, b, cap), x)) <==>
            a == b || (a.None? && b == Get(d, id)) || (b.None? && a == Get(d, id))
  {
    hide Get, PutLast, Ids, DistinctIds;
    GetIn(d, id);
    PutRunGet(d, id, a, cap, id);
    PutRunGet(d, id, b, cap, id);
    if a == b || (a.None? && b == Get(d, id)) || (b.None? && a == Get(d, id)) {
      forall x
        ensures Get(PutRun(d, id, a, cap), x) == Get(PutRun(d, id, b, cap), x)
      {
        PutRunGet(d, id, a, cap, x);
        PutRunGet(d, id, b, cap, x);
      }
    }
  }

  lemma {:induction false} PutRunGet(d: Dict<string>, id: Id, run: Option<string>, cap: nat, x: Id)
    requires DistinctIds(d) && |d| <= cap && cap > 0
    ensures Get(PutRun(d, id, run, cap), id) == if run.Some? then run else Get(d, id)
    ensures id in Ids(d) && x != id ==> Get(PutRun(d, id, run, cap), x) == Get(d, x)
  {
    hide Get, PutLast, Ids, DistinctIds;
    if run.Some? {
      PutGet(d, id, run.value, cap, x);
    }
  }

  lemma {:induction false} DictsOk(limits: Limits, events: seq<Event>)
    ensures var b := BookOf(limits, events);
            && DistinctIds(b.stopped) && |b.stopped| <= limits.maxStopped
            && DistinctIds(b.retired) && |b.retired| <= limits.maxRetired
  {
    hide Filled, DistinctIds, Since, Get, Ids;
    DictsAreFilled(limits, events);
    FilledIsOk(Stops(limits, events), limits.maxStopped);
    FilledIsOk(Retirements(limits, events), limits.maxRetired);
  }

  /** A stop, after any run, is answered ever after as if expired leases had ended exactly
      when the session has no expired lease naming a run, or that run is the one it last
      stopped already. */
  lemma {:induction false} StopIsEagerIff(limits: Limits, events: seq<Event>, e: Ideal, id: Id, now: real)
    requires Agrees(BookOf(limits, events), e, now) && limits.maxStopped > 0
    ensures var b := BookOf(limits, events);
            (forall x :: Get(b.Do(limits, Stop(id), now).0.stopped, x) == Get(e.Do(limits, Stop(id), now).0.stopped, x)) <==>
            !(id in b.leases && b.leases[id].expires <= now && b.leases[id].where.instance.Some?)
            || Get(b.stopped, id) == b.leases[id].where.instance
  {
    hide Get, DistinctIds, PutRun, Book.Revoked;
    var b := BookOf(limits, events);
    DictsOk(limits, events);
    DoDicts(b, limits, Stop(id), now);
    PutRunSame(b.stopped, id, RunOf(b.leases, id), RunOf(e.leases, id), limits.maxStopped);
  }

  /** A retirement, after any run, turns away the same run as if expired leases had ended
      exactly when the session has no expired lease, or the run of its last poll is that of
      its last poll that said where it is, fewer others having said so since than are
      remembered. */
  lemma {:induction false} RetireIsEagerIff(limits: Limits, events: seq<Event>, e: Ideal, id: Id, now: real)
    requires Agrees(BookOf(limits, events), e, now)
    ensures var b := BookOf(limits, events);
            RetiresRun(b.leases, b.places, id) == RetiresRun(e.leases, e.places, id) <==>
            !(id in b.leases && b.leases[id].expires <= now)
            || RunIn(Get(Polls(events), id)) == PlacedRun(limits, events, id)
  {
    hide Get, Since, Filled, BookOf, Polls, Placings;
    var b := BookOf(limits, events);
    DictsAreFilled(limits, events);
    FilledGet(Placings(limits, events), limits.maxPlaces, id);
    if id in b.leases {
      LeaseIsLastPoll(limits, events, id);
    }
  }

  /** And is answered so ever after exactly then, or when one of the two runs is none and the
      other is the one turned away already. */
  lemma {:induction false} RetiredAnswersIff(limits: Limits, events: seq<Event>, e: Ideal, id: Id, now: real)
    requires Agrees(BookOf(limits, events), e, now) && limits.maxRetired > 0
    requires id in BookOf(limits, events).leases && BookOf(limits, events).leases[id].expires <= now
    ensures var b := BookOf(limits, events);
            var polled, placed := RunIn(Get(Polls(events), id)), PlacedRun(limits, events, id);
            (forall x :: Get(b.Do(limits, Retire(id), now).0.retired, x) == Get(e.Do(limits, Retire(id), now).0.retired, x)) <==>
            polled == placed || (polled.None? && placed == Get(b.retired, id)) || (placed.None? && polled == Get(b.retired, id))
  {
    hide Get, Since, Filled, BookOf, Polls, Placings, DistinctIds, PutRun, Book.Revoked;
    var b := BookOf(limits, events);
    DictsOk(limits, events);
    DictsAreFilled(limits, events);
    FilledGet(Placings(limits, events), limits.maxPlaces, id);
    LeaseIsLastPoll(limits, events, id);
    DoDicts(b, limits, Retire(id), now);
    PutRunSame(b.retired, id, RunOf(b.leases, id), PlacedRun(limits, events, id), limits.maxRetired);
  }

  /** One poll, and a stop long after the lease ran out: the run is stopped all the same. */
  lemma {:induction false} StopAfterExpiry(limits: Limits)
    requires Roomy(limits)
    ensures var b := EMPTY.Do(limits, Mark(7, Cli("a", None), None), 0.0).0;
            && b.Do(limits, Poll(7), 100.0).1 == Ran(None)
            && b.Do(limits, Stop(7), 100.0).0.Do(limits, IsStopped(7, "a"), 100.0).1 == Held(true)
  {
    var b := EMPTY.Do(limits, Mark(7, Cli("a", None), None), 0.0).0;
    assert RunOf(b.leases, 7) == Some("a");
    PutGet([], 7, "a", limits.maxStopped, 7);
  }

  /** A run polls from a directory, another takes its place and does not say where it is: a
      retirement long after turns the second away, and not the one last known to run. */
  lemma {:induction false} RetireAfterExpiry(limits: Limits)
    requires Roomy(limits)
    ensures var b := EMPTY.Do(limits, Mark(7, Cli("a", Some("/home")), None), 0.0).0.Do(limits, Mark(7, Cli("b", None), None), 1.0).0;
            && b.Do(limits, Poll(7), 100.0).1 == Ran(None)
            && RetiresRun(b.leases, b.places, 7) == Some("b")
            && RetiresRun(Unexpired(b.leases, 100.0), b.places, 7) == Some("a")
  {
    var first := EMPTY.Do(limits, Mark(7, Cli("a", Some("/home")), None), 0.0).0;
    assert first.places == [Entry(7, Cli("a", Some("/home")))];
    var b := first.Do(limits, Mark(7, Cli("b", None), None), 1.0).0;
    assert b.places == first.places && Unexpired(b.leases, 100.0) == map[];
  }
}
