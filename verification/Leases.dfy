/** Poller leases of `server/inbound.py`. The queue notices an expired lease only when it
    next looks; the specification ends each lease the instant it expires. */
module Leases {
  import opened Common
  import opened Dicts

  /** A run as its polls describe it, with the state it last reported. */
  datatype Where = Where(run: Option<string>, machine: Option<string>, cwd: Option<string>, cli: Option<string>,
                         instance: Option<string>, runs: bool, state: string)

  datatype Lease = Lease(expires: real, where: Where, account: Option<string>)

  type Table = map<Id, Lease>

  const IDLE := "idle"

  // ----------------------------------------------------------------- operations

  datatype Limits = Limits(ttl: real, maxGone: nat, maxLeases: nat, maxRetired: nat, maxStopped: nat, maxPlaces: nat)

  datatype Op =
    | Mark(id: Id, where: Where, account: Option<string>)
    | Poll(id: Id)
    | Report(id: Id, instance: string, state: string)
    | TakeGone
    | Active(cli: Option<string>, account: Option<string>)
    | HeldBy(id: Id, runOf: string, instance: string)
    | RunsOn(machine: string, owner: string)
    | Forget(id: Id)
    | Stop(id: Id)
    | Retire(id: Id)
    | IsStopped(id: Id, instance: string)

  datatype Out =
    | Nothing
    | Ran(where: Option<Where>)
    | Kept(kept: bool)
    | Gone(gone: set<Id>)
    | Polled(polled: set<Id>)
    | Held(held: bool)
    | Runs(runs: map<Id, Where>)

  function Lower(s: string): string {
    seq(|s|, i requires 0 <= i < |s| => if 'A' <= s[i] <= 'Z' then (s[i] as int + 32) as char else s[i])
  }

  function LowerOf(account: Option<string>): string {
    if account.Some? then Lower(account.value) else ""
  }

  predicate Wanted(lease: Lease, cli: Option<string>, account: Option<string>) {
    (cli.None? || lease.where.cli == cli) && (account.None? || LowerOf(lease.account) == Lower(account.value))
  }

  predicate RunsThere(lease: Lease, machine: string, owner: string) {
    && lease.where.cli.Some? && lease.where.machine == Some(machine)
    && lease.account.Some? && Lower(lease.account.value) == Lower(owner)
  }

  predicate HoldsOff(lease: Option<Lease>, cli: string, instance: string) {
    && lease.Some? && lease.value.where.cli == Some(cli)
    && lease.value.where.instance.Some? && lease.value.where.instance.value != instance
  }

  /** The state a run reported stays while the same run polls on. */
  function Continued(held: Option<Lease>, where: Where): Where {
    where.(state := if held.None? || where.instance.None? || held.value.where.instance != where.instance
                    then IDLE else held.value.where.state)
  }

  predicate Placed(where: Where) {
    where.run.Some? || where.machine.Some? || where.cwd.Some?
  }

  function Find(leases: Table, id: Id): Option<Lease> {
    if id in leases then Some(leases[id]) else None
  }

  /** The run a lease names, if there is one. */
  function RunOf(leases: Table, id: Id): Option<string> {
    if id in leases then leases[id].where.instance else None
  }

  /** The run `retire_run` turns away: the lease's, or the one the session was last placed for. */
  function RetiresRun(leases: Table, places: Dict<Where>, id: Id): Option<string> {
    if id in leases then leases[id].where.instance
    else if Get(places, id).Some? then Get(places, id).value.instance
    else None
  }

  function PutRun(d: Dict<string>, id: Id, run: Option<string>, cap: nat): Dict<string> {
    if run.Some? then PutLast(d, id, run.value, cap) else d
  }

  // ------------------------------------------------------------- as it is written

  function Unexpired(leases: Table, now: real): Table {
    map id | id in leases && leases[id].expires > now :: leases[id]
  }

  function Expired(leases: Table, now: real): Table {
    map id | id in leases && leases[id].expires <= now :: leases[id]
  }

  function Elements(ids: seq<Id>): set<Id> {
    set id | id in ids
  }

  ghost predicate Distinct(ids: seq<Id>) {
    forall i, j :: 0 <= i < j < |ids| ==> ids[i] != ids[j]
  }

  function Those(ids: seq<Id>, keys: set<Id>): (those: seq<Id>)
    ensures forall id :: id in those ==> id in keys
  {
    if ids == [] then []
    else Those(ids[..|ids| - 1], keys) + if ids[|ids| - 1] in keys then [ids[|ids| - 1]] else []
  }

  function Without(ids: seq<Id>, id: Id): seq<Id> {
    Those(ids, Elements(ids) - {id})
  }

  /** `_lapse`: nothing is noted of a run that is no CLI's; the oldest go past the cap. */
  function Noted(gone: Dict<real>, id: Id, lease: Lease, end: real, cap: nat): Dict<real> {
    if lease.where.cli.None? then gone else PutLast(gone, id, end, cap)
  }

  /** Expired leases drop one by one, each having ended as it expired. */
  function NotedAll(gone: Dict<real>, ids: seq<Id>, leases: Table, cap: nat): Dict<real>
    requires forall id :: id in ids ==> id in leases
    decreases |ids|
  {
    if ids == [] then gone
    else
      var last := ids[|ids| - 1];
      Noted(NotedAll(gone, ids[..|ids| - 1], leases, cap), last, leases[last], leases[last].expires, cap)
  }

  /** When a lease that is dropped now ended: as it expired, if it had. */
  function EndOf(lease: Lease, now: real): real {
    if lease.expires <= now then lease.expires else now
  }

  /** The lease fields of an `InboundQueue`. `order` is the order the dictionary of leases
      holds its keys in, and the value of a session gone is when its lease ended, which the
      code does not keep. */
  datatype Book = Book(leases: Table, order: seq<Id>, gone: Dict<real>, retired: Dict<string>, stopped: Dict<string>,
                       places: Dict<Where>)
  {
    function With(id: Id, lease: Lease): Book {
      this.(leases := leases[id := lease], order := if id in leases then order else order + [id])
    }

    /** A lease is dropped, expired or not. */
    function Revoked(limits: Limits, id: Id, now: real): Book {
      if id !in leases then this
      else this.(leases := leases - {id}, order := Without(order, id),
                 gone := Noted(gone, id, leases[id], EndOf(leases[id], now), limits.maxGone))
    }

    /** `_live`: an expired lease is dropped, and gone, when it is looked at. */
    function Looked(limits: Limits, id: Id, now: real): Book {
      if id in leases && leases[id].expires <= now then Revoked(limits, id, now) else this
    }

    function Live(id: Id, now: real): Option<Lease> {
      if id in leases && leases[id].expires > now then Some(leases[id]) else None
    }

    /** The expired leases, in the order the dictionary holds them. */
    function Lapsed(now: real): (ids: seq<Id>)
      ensures forall id :: id in ids ==> id in leases
    {
      Those(order, Expired(leases, now).Keys)
    }

    /** `_sweep` */
    function Swept(limits: Limits, now: real): Book {
      this.(leases := Unexpired(leases, now), order := Those(order, Unexpired(leases, now).Keys),
            gone := NotedAll(gone, Lapsed(now), leases, limits.maxGone))
    }

    function Renewed(limits: Limits, id: Id, where: Where, account: Option<string>, now: real): Book {
      var said := Continued(Live(id, now), where);
      var b := Looked(limits, id, now).With(id, Lease(now + limits.ttl, said, account));
      b.(places := if Placed(where) then PutLast(b.places, id, said, limits.maxPlaces) else b.places)
    }

    function Marked(limits: Limits, id: Id, where: Where, account: Option<string>, now: real): Book {
      var b := Renewed(limits, id, where, account, now);
      if |b.leases| > limits.maxLeases then b.Swept(limits, now) else b
    }

    function Do(limits: Limits, op: Op, now: real): (Book, Out) {
      match op
      case Mark(id, where, account) => (Marked(limits, id, where, account, now), Nothing)
      case Poll(id) =>
        var live := Live(id, now);
        (Looked(limits, id, now), Ran(if live.Some? then Some(live.value.where) else None))
      case Report(id, instance, state) =>
        var live := Live(id, now);
        var b := Looked(limits, id, now);
        if live.None? || live.value.where.instance != Some(instance) then (b, Kept(false))
        else (b.With(id, live.value.(where := live.value.where.(state := state))), Kept(true))
      case TakeGone =>
        var b := Swept(limits, now);
        (b.(gone := []), Gone(Ids(b.gone)))
      case Active(cli, account) =>
        var b := Swept(limits, now);
        (b, Polled(set id | id in b.leases && Wanted(b.leases[id], cli, account)))
      case HeldBy(id, cli, instance) =>
        if Get(retired, id) == Some(instance) then (this, Held(true))
        else (Looked(limits, id, now), Held(HoldsOff(Live(id, now), cli, instance)))
      case RunsOn(machine, owner) =>
        var b := Swept(limits, now);
        (b, Runs(map id | id in b.leases && RunsThere(b.leases[id], machine, owner) :: b.leases[id].where))
      case Forget(id) => (Revoked(limits, id, now), Nothing)
      case Stop(id) =>
        (Revoked(limits, id, now).(stopped := PutRun(stopped, id, RunOf(leases, id), limits.maxStopped)), Nothing)
      case Retire(id) =>
        (Revoked(limits, id, now).(retired := PutRun(retired, id, RetiresRun(leases, places, id), limits.maxRetired)), Nothing)
      case IsStopped(id, instance) => (this, Held(Get(stopped, id) == Some(instance)))
    }

    /** A stop or retirement that finds the run it would find had expired leases ended:
        none is expired, or it says nothing else than what is left says. */
    predicate Timely(op: Op, now: real) {
      match op
      case Stop(id) => id in leases && leases[id].expires <= now ==> leases[id].where.instance.None?
      case Retire(id) => id in leases && leases[id].expires <= now ==>
                           leases[id].where.instance == RetiresRun(map[], places, id)
      case _ => true
    }
  }

  // ------------------------------------------------------------ as it is meant

  /** Leases that end on time: no operation below ever asks what time it is, except to set
      when a lease will end. */
  datatype Ideal = Ideal(leases: Table, gone: set<Id>, retired: Dict<string>, stopped: Dict<string>, places: Dict<Where>) {

    /** Time passes: each lease that runs out ends, and a CLI's session is gone. */
    function Advance(now: real): Ideal {
      this.(leases := Unexpired(leases, now), gone := gone + Clis(Expired(leases, now)))
    }

    function Revoked(id: Id): Ideal {
      this.(leases := leases - {id}, gone := gone + Offline(leases, id))
    }

    function Do(limits: Limits, op: Op, now: real): (Ideal, Out) {
      match op
      case Mark(id, where, account) =>
        var said := Continued(Find(leases, id), where);
        (this.(leases := leases[id := Lease(now + limits.ttl, said, account)],
               places := if Placed(where) then PutLast(places, id, said, limits.maxPlaces) else places),
         Nothing)
      case Poll(id) => (this, Ran(if id in leases then Some(leases[id].where) else None))
      case Report(id, instance, state) =>
        if id !in leases || leases[id].where.instance != Some(instance) then (this, Kept(false))
        else (this.(leases := leases[id := leases[id].(where := leases[id].where.(state := state))]), Kept(true))
      case TakeGone => (this.(gone := {}), Gone(gone))
      case Active(cli, account) => (this, Polled(set id | id in leases && Wanted(leases[id], cli, account)))
      case HeldBy(id, cli, instance) =>
        (this, Held(Get(retired, id) == Some(instance) || HoldsOff(Find(leases, id), cli, instance)))
      case RunsOn(machine, owner) =>
        (this, Runs(map id | id in leases && RunsThere(leases[id], machine, owner) :: leases[id].where))
      case Forget(id) => (Revoked(id), Nothing)
      case Stop(id) => (Revoked(id).(stopped := PutRun(stopped, id, RunOf(leases, id), limits.maxStopped)), Nothing)
      case Retire(id) =>
        (Revoked(id).(retired := PutRun(retired, id, RetiresRun(leases, places, id), limits.maxRetired)), Nothing)
      case IsStopped(id, instance) => (this, Held(Get(stopped, id) == Some(instance)))
    }
  }

  /** The sessions of a CLI's run among the leases. */
  function Clis(leases: Table): set<Id> {
    set id | id in leases && leases[id].where.cli.Some?
  }

  function Offline(leases: Table, id: Id): set<Id> {
    if id in leases && leases[id].where.cli.Some? then {id} else {}
  }

  /** The dictionary holds each lease's key once, and so does that of the sessions gone. */
  ghost predicate BookOk(b: Book) {
    Distinct(b.order) && Elements(b.order) == b.leases.Keys && DistinctIds(b.gone)
  }

  /** What the lazy fields stand for at `now`, the sessions gone apart. */
  ghost predicate Agrees(b: Book, e: Ideal, now: real) {
    && e.leases == Unexpired(b.leases, now)
    && e.retired == b.retired && e.stopped == b.stopped && e.places == b.places
  }

  /** And, while none had to be forgotten, the sessions gone. */
  ghost predicate AgreesGone(b: Book, e: Ideal, now: real) {
    e.gone == Ids(b.gone) + Clis(Expired(b.leases, now))
  }

  // ----------------------------------------------------- the dictionary's order

  lemma {:induction false} DistinctAfter(ids: seq<Id>, id: Id)
    requires Distinct(ids) && id !in Elements(ids)
    ensures Distinct(ids + [id]) && Elements(ids + [id]) == Elements(ids) + {id}
  {
    assert forall i :: 0 <= i < |ids| ==> ids[i] in Elements(ids);
  }

  lemma {:induction false} ThoseIn(ids: seq<Id>, keys: set<Id>)
    requires Distinct(ids)
    ensures Distinct(Those(ids, keys)) && Elements(Those(ids, keys)) == Elements(ids) * keys
    decreases |ids|
  {
    if ids != [] {
      var init, last := ids[..|ids| - 1], ids[|ids| - 1];
      ThoseIn(init, keys);
      assert ids == init + [last] && Elements(ids) == Elements(init) + {last};
      assert last !in Elements(init) && Those(init, keys) + [] == Those(init, keys);
      if last in keys {
        DistinctAfter(Those(init, keys), last);
      }
    }
  }

  lemma {:induction false} WithoutIn(ids: seq<Id>, id: Id)
    requires Distinct(ids)
    ensures Distinct(Without(ids, id)) && Elements(Without(ids, id)) == Elements(ids) - {id}
  {
    ThoseIn(ids, Elements(ids) - {id});
  }

  // ----------------------------------------------------------- the sessions gone

  function NotedSet(gone: set<Id>, id: Id, lease: Lease): set<Id> {
    if lease.where.cli.Some? then gone + {id} else gone
  }

  /** Noting a session keeps it once; below the cap, nothing is forgotten. */
  lemma {:induction false} NotedKeeps(gone: Dict<real>, id: Id, lease: Lease, end: real, cap: nat)
    requires DistinctIds(gone)
    ensures DistinctIds(Noted(gone, id, lease, end, cap))
    ensures |NotedSet(Ids(gone), id, lease)| <= cap ==>
              Ids(Noted(gone, id, lease, end, cap)) == NotedSet(Ids(gone), id, lease)
  {
    PutIds(gone, id, end, cap);
  }

  function ClisIn(ids: seq<Id>, leases: Table): set<Id>
    requires forall id :: id in ids ==> id in leases
  {
    set id | id in ids && leases[id].where.cli.Some?
  }

  lemma {:induction false} ClisSnoc(gone: set<Id>, init: seq<Id>, last: Id, leases: Table)
    requires forall id :: id in init + [last] ==> id in leases
    ensures gone + ClisIn(init + [last], leases) == NotedSet(gone + ClisIn(init, leases), last, leases[last])
  {
  }

  lemma {:induction false} NotedAllKeeps(gone: Dict<real>, ids: seq<Id>, leases: Table, cap: nat)
    requires DistinctIds(gone) && forall id :: id in ids ==> id in leases
    ensures DistinctIds(NotedAll(gone, ids, leases, cap))
    ensures |Ids(gone) + ClisIn(ids, leases)| <= cap ==>
              Ids(NotedAll(gone, ids, leases, cap)) == Ids(gone) + ClisIn(ids, leases)
    decreases |ids|
  {
    if ids == [] {
      assert Ids(gone) + {} == Ids(gone);
    } else {
      hide Noted, DistinctIds, Ids;
      var init, last := ids[..|ids| - 1], ids[|ids| - 1];
      NotedAllKeeps(gone, init, leases, cap);
      NotedKeeps(NotedAll(gone, init, leases, cap), last, leases[last], leases[last].expires, cap);
      ClisSnoc(Ids(gone), init, last, leases);
      assert ids == init + [last];
      SubsetSize(Ids(gone) + ClisIn(init, leases), Ids(gone) + ClisIn(ids, leases));
    }
  }

  lemma {:induction false} SweptGone(b: Book, limits: Limits, now: real)
    requires BookOk(b)
    ensures var c := b.Swept(limits, now);
            && BookOk(c)
            && (|Ids(b.gone) + Clis(Expired(b.leases, now))| <= limits.maxGone ==>
                  Ids(c.gone) == Ids(b.gone) + Clis(Expired(b.leases, now)))
  {
    hide NotedAll, Distinct, DistinctIds, Ids;
    var lapsed := Expired(b.leases, now);
    ThoseIn(b.order, lapsed.Keys);
    ThoseIn(b.order, Unexpired(b.leases, now).Keys);
    NotedAllKeeps(b.gone, b.Lapsed(now), b.leases, limits.maxGone);
    assert Elements(b.order) * Unexpired(b.leases, now).Keys == Unexpired(b.leases, now).Keys;
    assert ClisIn(b.Lapsed(now), b.leases) == Clis(lapsed) by {
      assert Elements(b.order) * lapsed.Keys == lapsed.Keys;
      assert forall id :: id in lapsed ==> id in Elements(b.Lapsed(now));
    }
  }

  // --------------------------------------------------------------- the refinement

  /** Ending leases in two goes is ending them in one. */
  lemma {:induction false} AdvanceAgrees(b: Book, e: Ideal, now: real, later: real)
    requires Agrees(b, e, now) && now <= later
    ensures Agrees(b, e.Advance(later), later)
    ensures AgreesGone(b, e, now) ==> AgreesGone(b, e.Advance(later), later)
  {
    assert Unexpired(Unexpired(b.leases, now), later) == Unexpired(b.leases, later);
    assert Clis(Expired(b.leases, now)) + Clis(Expired(Unexpired(b.leases, now), later)) == Clis(Expired(b.leases, later));
  }

  lemma {:induction false} RevokedBook(b: Book, limits: Limits, id: Id, now: real)
    requires BookOk(b)
    ensures BookOk(b.Revoked(limits, id, now)) && BookOk(b.Looked(limits, id, now))
  {
    hide Noted, Distinct, DistinctIds, Elements, Without;
    if id in b.leases {
      NotedKeeps(b.gone, id, b.leases[id], EndOf(b.leases[id], now), limits.maxGone);
      WithoutIn(b.order, id);
    }
  }

  lemma {:induction false} WithBook(b: Book, id: Id, lease: Lease)
    requires BookOk(b)
    ensures BookOk(b.With(id, lease))
  {
    hide Distinct, DistinctIds, Elements;
    if id !in b.leases {
      DistinctAfter(b.order, id);
    }
  }

  /** Noticing one expired lease changes nothing that is meant. */
  lemma {:induction false} LookedAgrees(b: Book, e: Ideal, limits: Limits, id: Id, now: real)
    requires Agrees(b, e, now) && BookOk(b)
    ensures Agrees(b.Looked(limits, id, now), e, now) && BookOk(b.Looked(limits, id, now))
    ensures b.Live(id, now) == Find(e.leases, id) == Find(b.Looked(limits, id, now).leases, id)
  {
    hide Noted, BookOk, Without;
    RevokedBook(b, limits, id, now);
    if id in b.leases && b.leases[id].expires <= now {
      assert Unexpired(b.leases - {id}, now) == Unexpired(b.leases, now);
    }
  }

  lemma {:induction false} LookedGone(b: Book, e: Ideal, limits: Limits, id: Id, now: real)
    requires BookOk(b) && AgreesGone(b, e, now) && |e.gone| <= limits.maxGone
    ensures AgreesGone(b.Looked(limits, id, now), e, now)
  {
    hide Noted, DistinctIds, Distinct, Ids, Elements, Without;
    if id in b.leases && b.leases[id].expires <= now {
      var lease := b.leases[id];
      NotedKeeps(b.gone, id, lease, EndOf(lease, now), limits.maxGone);
      DroppedClis(Ids(b.gone), b.leases, id, now);
      SubsetSize(NotedSet(Ids(b.gone), id, lease), e.gone);
    }
  }

  lemma {:induction false} DroppedClis(gone: set<Id>, leases: Table, id: Id, now: real)
    requires id in leases && leases[id].expires <= now
    ensures NotedSet(gone, id, leases[id]) + Clis(Expired(leases - {id}, now)) == gone + Clis(Expired(leases, now))
  {
  }

  lemma {:induction false} SweptAgrees(b: Book, e: Ideal, limits: Limits, now: real)
    requires Agrees(b, e, now) && BookOk(b)
    ensures var c := b.Swept(limits, now);
            && c.leases == e.leases && Agrees(c, e, now) && BookOk(c)
            && (AgreesGone(b, e, now) && |e.gone| <= limits.maxGone ==> AgreesGone(c, e, now) && e.gone == Ids(c.gone))
  {
    hide BookOk, Ids, NotedAll, Those;
    SweptGone(b, limits, now);
    var c := b.Swept(limits, now);
    assert Unexpired(c.leases, now) == c.leases && Clis(Expired(c.leases, now)) == {};
    assert Ids(c.gone) + {} == Ids(c.gone);
  }

  /** Putting a lease that has not expired, for a session with none that has. */
  lemma {:induction false} PutAgrees(leases: Table, id: Id, lease: Lease, now: real)
    requires lease.expires > now && (id in leases ==> leases[id].expires > now)
    ensures Unexpired(leases[id := lease], now) == Unexpired(leases, now)[id := lease]
    ensures Clis(Expired(leases[id := lease], now)) == Clis(Expired(leases, now))
  {
  }

  /** One operation, both ways, from what both say once time has passed. */
  ghost predicate StepOk(b: Book, e: Ideal, limits: Limits, op: Op, now: real) {
    var (c, out) := b.Do(limits, op, now);
    var (f, meant) := e.Do(limits, op, now);
    && Agrees(c, f, now) && BookOk(c)
    && (op != TakeGone ==> out == meant)
    && (AgreesGone(b, e, now) && |e.gone| <= limits.maxGone && |f.gone| <= limits.maxGone ==>
          AgreesGone(c, f, now) && out == meant)
  }

  lemma {:induction false} RenewedAgrees(b: Book, e: Ideal, limits: Limits, id: Id, where: Where, account: Option<string>, now: real)
    requires Agrees(b, e, now) && BookOk(b) && limits.ttl > 0.0
    ensures var c := b.Renewed(limits, id, where, account, now);
            var f := e.Do(limits, Mark(id, where, account), now).0;
            && Agrees(c, f, now) && BookOk(c) && f.gone == e.gone
            && (AgreesGone(b, e, now) && |e.gone| <= limits.maxGone ==> AgreesGone(c, f, now))
  {
    hide PutLast, Ids, Elements, Distinct, DistinctIds, Book.Looked, Unexpired, Expired, Clis;
    LookedAgrees(b, e, limits, id, now);
    LiveOnly(b, limits, id, now);
    var d := b.Looked(limits, id, now);
    var lease := Lease(now + limits.ttl, Continued(b.Live(id, now), where), account);
    PutAgrees(d.leases, id, lease, now);
    WithBook(d, id, lease);
    if AgreesGone(b, e, now) && |e.gone| <= limits.maxGone {
      LookedGone(b, e, limits, id, now);
    }
  }

  lemma {:induction false} LiveOnly(b: Book, limits: Limits, id: Id, now: real)
    ensures id in b.Looked(limits, id, now).leases ==> b.Looked(limits, id, now).leases[id].expires > now
  {
  }

  lemma {:induction false} MarkOk(b: Book, e: Ideal, limits: Limits, op: Op, now: real)
    requires op.Mark? && Agrees(b, e, now) && BookOk(b) && limits.ttl > 0.0
    ensures StepOk(b, e, limits, op, now)
  {
    hide BookOk, Agrees, AgreesGone, Book.Renewed, Book.Swept;
    var c := b.Renewed(limits, op.id, op.where, op.account, now);
    var f := e.Do(limits, op, now).0;
    RenewedAgrees(b, e, limits, op.id, op.where, op.account, now);
    SweptAgrees(c, f, limits, now);
  }

  lemma {:induction false} ReportOk(b: Book, e: Ideal, limits: Limits, op: Op, now: real)
    requires op.Report? && Agrees(b, e, now) && BookOk(b)
    ensures StepOk(b, e, limits, op, now)
  {
    hide Ids, BookOk, Book.Looked, Unexpired, Expired, Clis;
    LookedAgrees(b, e, limits, op.id, now);
    LiveOnly(b, limits, op.id, now);
    var live := b.Live(op.id, now);
    if live.Some? {
      var lease := live.value.(where := live.value.where.(state := op.state));
      PutAgrees(b.Looked(limits, op.id, now).leases, op.id, lease, now);
      WithBook(b.Looked(limits, op.id, now), op.id, lease);
    }
    if AgreesGone(b, e, now) && |e.gone| <= limits.maxGone {
      LookedGone(b, e, limits, op.id, now);
    }
  }

  lemma {:induction false} PollOk(b: Book, e: Ideal, limits: Limits, op: Op, now: real)
    requires op.Poll? && Agrees(b, e, now) && BookOk(b)
    ensures StepOk(b, e, limits, op, now)
  {
    hide Agrees, AgreesGone, BookOk, Book.Looked, Book.Live;
    LookedAgrees(b, e, limits, op.id, now);
    if AgreesGone(b, e, now) && |e.gone| <= limits.maxGone {
      LookedGone(b, e, limits, op.id, now);
    }
  }

  lemma {:induction false} HeldByOk(b: Book, e: Ideal, limits: Limits, op: Op, now: real)
    requires op.HeldBy? && Agrees(b, e, now) && BookOk(b)
    ensures StepOk(b, e, limits, op, now)
  {
    assert e.retired == b.retired;
    hide Agrees, AgreesGone, BookOk, Book.Looked, Book.Live, Get, HoldsOff;
    LookedAgrees(b, e, limits, op.id, now);
    if AgreesGone(b, e, now) && |e.gone| <= limits.maxGone {
      LookedGone(b, e, limits, op.id, now);
    }
  }

  lemma {:induction false} SweepOk(b: Book, e: Ideal, limits: Limits, op: Op, now: real)
    requires (op.TakeGone? || op.Active? || op.RunsOn?) && Agrees(b, e, now) && BookOk(b)
    ensures StepOk(b, e, limits, op, now)
  {
    hide BookOk, Book.Swept, Wanted, RunsThere, Ids;
    SweptAgrees(b, e, limits, now);
    var c := b.Swept(limits, now);
    assert Unexpired(c.leases, now) == c.leases && Clis(Expired(c.leases, now)) == {};
    NoneGone(c);
  }

  lemma {:induction false} NoneGone(b: Book)
    ensures Ids(b.(gone := []).gone) == {} && (BookOk(b) ==> BookOk(b.(gone := [])))
  {
  }

  /** Dropping a lease, whichever operation does. */
  lemma {:induction false} RevokedAgrees(b: Book, e: Ideal, limits: Limits, id: Id, now: real)
    requires Agrees(b, e, now) && BookOk(b)
    ensures Agrees(b.Revoked(limits, id, now), e.Revoked(id), now) && BookOk(b.Revoked(limits, id, now))
    ensures AgreesGone(b, e, now) && |e.Revoked(id).gone| <= limits.maxGone ==>
              AgreesGone(b.Revoked(limits, id, now), e.Revoked(id), now)
  {
    hide Noted, BookOk, Ids, AgreesGone, Without;
    RevokedBook(b, limits, id, now);
    if id in b.leases {
      assert Unexpired(b.leases - {id}, now) == e.leases - {id};
    }
    if AgreesGone(b, e, now) && |e.Revoked(id).gone| <= limits.maxGone {
      RevokedGone(b, e, limits, id, now);
    }
  }

  lemma {:induction false} RevokedGone(b: Book, e: Ideal, limits: Limits, id: Id, now: real)
    requires Agrees(b, e, now) && BookOk(b) && AgreesGone(b, e, now)
    requires |e.gone + Offline(e.leases, id)| <= limits.maxGone
    ensures AgreesGone(b.Revoked(limits, id, now), e.Revoked(id), now)
  {
    hide Noted, Distinct, DistinctIds, Ids, Elements, Clis, Without;
    if id in b.leases {
      var noted := NotedSet(Ids(b.gone), id, b.leases[id]);
      NotedKeeps(b.gone, id, b.leases[id], EndOf(b.leases[id], now), limits.maxGone);
      RevokedClis(Ids(b.gone), b.leases, id, now);
      SubsetSize(noted, noted + Clis(Expired(b.leases - {id}, now)));
    } else {
      assert e.gone + {} == e.gone;
    }
  }

  lemma {:induction false} RevokedClis(gone: set<Id>, leases: Table, id: Id, now: real)
    requires id in leases
    ensures NotedSet(gone, id, leases[id]) + Clis(Expired(leases - {id}, now))
            == gone + Clis(Expired(leases, now)) + Offline(Unexpired(leases, now), id)
  {
  }

  lemma {:induction false} RevokeOk(b: Book, e: Ideal, limits: Limits, op: Op, now: real)
    requires (op.Forget? || op.Stop? || op.Retire?) && Agrees(b, e, now) && BookOk(b) && b.Timely(op, now)
    ensures StepOk(b, e, limits, op, now)
  {
    hide BookOk, Ids, Book.Revoked, Ideal.Revoked, PutRun, Get;
    RevokedAgrees(b, e, limits, op.id, now);
    RevokedFields(b, e, limits, op.id, now);
    BookFields(b.Revoked(limits, op.id, now), b.Do(limits, op, now).0);
    assert op.Stop? ==> RunOf(e.leases, op.id) == RunOf(b.leases, op.id);
    assert op.Retire? ==> RetiresRun(e.leases, e.places, op.id) == RetiresRun(b.leases, b.places, op.id);
  }

  lemma {:induction false} RevokedFields(b: Book, e: Ideal, limits: Limits, id: Id, now: real)
    ensures var c, f := b.Revoked(limits, id, now), e.Revoked(id);
            && c.retired == b.retired && c.stopped == b.stopped && c.places == b.places
            && f.retired == e.retired && f.stopped == e.stopped && f.places == e.places
  {
  }

  lemma {:induction false} BookFields(b: Book, c: Book)
    ensures c.leases == b.leases && c.order == b.order && c.gone == b.gone ==> (BookOk(b) ==> BookOk(c))
  {
  }

  lemma {:induction false} OpOk(b: Book, e: Ideal, limits: Limits, op: Op, now: real)
    requires Agrees(b, e, now) && BookOk(b) && limits.ttl > 0.0 && b.Timely(op, now)
    ensures StepOk(b, e, limits, op, now)
  {
    match op {
      case Mark(_, _, _) => MarkOk(b, e, limits, op, now);
      case Report(_, _, _) => ReportOk(b, e, limits, op, now);
      case Poll(_) => PollOk(b, e, limits, op, now);
      case HeldBy(_, _, _) => HeldByOk(b, e, limits, op, now);
      case Forget(_) => RevokeOk(b, e, limits, op, now);
      case Stop(_) => RevokeOk(b, e, limits, op, now);
      case Retire(_) => RevokeOk(b, e, limits, op, now);
      case IsStopped(_, _) =>
      case _ => SweepOk(b, e, limits, op, now);
    }
  }

  // ---------------------------------------------------------------- whole runs

  datatype Event = Event(op: Op, now: real)

  datatype Lazily = Lazily(book: Book, outs: seq<Out>)

  datatype Eagerly = Eagerly(ideal: Ideal, outs: seq<Out>, most: nat)

  const EMPTY := Book(map[], [], [], [], [], [])

  function Max(a: nat, b: nat): nat {
    if a < b then b else a
  }

  function StepLazily(limits: Limits, r: Lazily, ev: Event): Lazily {
    var (b, out) := r.book.Do(limits, ev.op, ev.now);
    Lazily(b, r.outs + [out])
  }

  /** `most` is the greatest number of sessions that ever waited to be taken. */
  function StepEagerly(limits: Limits, t: Eagerly, ev: Event): Eagerly {
    var e := t.ideal.Advance(ev.now);
    var (f, out) := e.Do(limits, ev.op, ev.now);
    Eagerly(f, t.outs + [out], Max(t.most, Max(|e.gone|, |f.gone|)))
  }

  function RunLazily(limits: Limits, events: seq<Event>): Lazily {
    if events == [] then Lazily(EMPTY, [])
    else StepLazily(limits, RunLazily(limits, events[..|events| - 1]), events[|events| - 1])
  }

  function RunEagerly(limits: Limits, events: seq<Event>): Eagerly {
    if events == [] then Eagerly(Ideal(map[], {}, [], [], []), [], 0)
    else StepEagerly(limits, RunEagerly(limits, events[..|events| - 1]), events[|events| - 1])
  }

  /** Time does not go back. */
  ghost predicate InTime(events: seq<Event>) {
    forall i, j :: 0 <= i < j < |events| ==> events[i].now <= events[j].now
  }

  /** No stop or retirement reads an expired lease that says more than what is left says. */
  ghost predicate AllTimely(limits: Limits, events: seq<Event>) {
    forall i :: 0 <= i < |events| ==> RunLazily(limits, events[..i]).book.Timely(events[i].op, events[i].now)
  }

  ghost predicate SameOuts(limits: Limits, events: seq<Event>, lazily: seq<Out>, eagerly: seq<Out>, most: nat) {
    && |lazily| == |eagerly| == |events|
    && (forall i :: 0 <= i < |events| && events[i].op != TakeGone ==> lazily[i] == eagerly[i])
    && (most <= limits.maxGone ==> lazily == eagerly)
  }

  lemma {:induction false} TimelyInit(limits: Limits, events: seq<Event>)
    requires AllTimely(limits, events) && InTime(events) && events != []
    ensures var init, ev := events[..|events| - 1], events[|events| - 1];
            && AllTimely(limits, init) && RunLazily(limits, init).book.Timely(ev.op, ev.now)
            && InTime(init) && (init != [] ==> init[|init| - 1].now <= ev.now)
  {
    hide RunLazily, Book.Timely;
    var init := events[..|events| - 1];
    assert forall i :: 0 <= i < |init| ==> init[..i] == events[..i];
  }

  /** What holds of the two ways of running the same events. */
  ghost predicate RunOk(limits: Limits, r: Lazily, t: Eagerly, events: seq<Event>, now: real) {
    && Agrees(r.book, t.ideal, now) && BookOk(r.book)
    && SameOuts(limits, events, r.outs, t.outs, t.most)
    && (t.most <= limits.maxGone ==> AgreesGone(r.book, t.ideal, now))
  }

  lemma {:induction false} OutsSnoc(limits: Limits, init: seq<Event>, ev: Event, lazily: seq<Out>, eagerly: seq<Out>,
                                    most: nat, more: nat, a: Out, b: Out)
    requires SameOuts(limits, init, lazily, eagerly, most) && most <= more
    requires (ev.op != TakeGone ==> a == b) && (more <= limits.maxGone ==> a == b)
    ensures SameOuts(limits, init + [ev], lazily + [a], eagerly + [b], more)
  {
  }

  lemma {:induction false} EventOk(limits: Limits, init: seq<Event>, ev: Event, r: Lazily, t: Eagerly, before: real)
    requires RunOk(limits, r, t, init, before) && limits.ttl > 0.0 && before <= ev.now
    requires r.book.Timely(ev.op, ev.now)
    ensures RunOk(limits, StepLazily(limits, r, ev), StepEagerly(limits, t, ev), init + [ev], ev.now)
  {
    hide Agrees, AgreesGone, BookOk, Book.Timely, Book.Do, Ideal.Do, Ideal.Advance, SameOuts;
    AdvanceAgrees(r.book, t.ideal, before, ev.now);
    var e := t.ideal.Advance(ev.now);
    OpOk(r.book, e, limits, ev.op, ev.now);
    var out, meant := r.book.Do(limits, ev.op, ev.now).1, e.Do(limits, ev.op, ev.now).1;
    var f := e.Do(limits, ev.op, ev.now).0;
    OutsSnoc(limits, init, ev, r.outs, t.outs, t.most, Max(t.most, Max(|e.gone|, |f.gone|)), out, meant);
  }

  lemma {:induction false} RunAgrees(limits: Limits, events: seq<Event>, now: real)
    requires InTime(events) && AllTimely(limits, events) && limits.ttl > 0.0
    requires events != [] ==> now == events[|events| - 1].now
    ensures RunOk(limits, RunLazily(limits, events), RunEagerly(limits, events), events, now)
    decreases |events|
  {
    if events == [] {
      NothingRun(limits, now);
    } else {
      hide RunOk, AllTimely, InTime, RunLazily, RunEagerly, StepLazily, StepEagerly, Book.Timely;
      var init, ev := events[..|events| - 1], events[|events| - 1];
      var before := if init == [] then ev.now else init[|init| - 1].now;
      TimelyInit(limits, events);
      RunAgrees(limits, init, before);
      EventOk(limits, init, ev, RunLazily(limits, init), RunEagerly(limits, init), before);
      assert events == init + [ev];
      RunLast(limits, events);
    }
  }

  lemma {:induction false} RunLast(limits: Limits, events: seq<Event>)
    requires events != []
    ensures RunLazily(limits, events) == StepLazily(limits, RunLazily(limits, events[..|events| - 1]), events[|events| - 1])
    ensures RunEagerly(limits, events) == StepEagerly(limits, RunEagerly(limits, events[..|events| - 1]), events[|events| - 1])
  {
    hide StepLazily, StepEagerly;
  }

  lemma {:induction false} NothingRun(limits: Limits, now: real)
    ensures RunOk(limits, RunLazily(limits, []), RunEagerly(limits, []), [], now)
  {
    assert Unexpired(map[], now) == map[] && Clis(Expired(map[], now)) == {} && Ids(EMPTY.gone) == {};
    assert Elements([]) == {};
  }

  /** The queue answers as if each lease ended the instant it expired: every answer but the
      sessions gone in any run, and those too while none had to be forgotten. A stop or a
      retirement that reads an expired lease is the one thing that can tell the difference. */
  lemma {:induction false} LazyRefinesEager(limits: Limits, events: seq<Event>)
    requires InTime(events) && AllTimely(limits, events) && limits.ttl > 0.0
    ensures SameOuts(limits, events, RunLazily(limits, events).outs, RunEagerly(limits, events).outs,
                     RunEagerly(limits, events).most)
  {
    RunAgrees(limits, events, if events == [] then 0.0 else events[|events| - 1].now);
  }

  // ------------------------------------------------------------- a sweep's loop

  /** The keys of a dictionary, in its order. */
  function Names<V>(d: Dict<V>): seq<Id> {
    seq(|d|, i requires 0 <= i < |d| => d[i].id)
  }

  lemma {:induction false} NamesAreIds<V>(d: Dict<V>)
    ensures Elements(Names(d)) == Ids(d)
  {
    forall id | id in Ids(d)
      ensures id in Names(d)
    {
      var i :| 0 <= i < |d| && d[i].id == id;
      assert Names(d)[i] == id;
    }
  }

  lemma {:induction false} RenewedBook(b: Book, limits: Limits, id: Id, where: Where, account: Option<string>, now: real)
    requires BookOk(b)
    ensures BookOk(b.Renewed(limits, id, where, account, now))
  {
    hide BookOk, Book.Looked;
    RevokedBook(b, limits, id, now);
    var lease := Lease(now + limits.ttl, Continued(b.Live(id, now), where), account);
    WithBook(b.Looked(limits, id, now), id, lease);
    BookFields(b.Looked(limits, id, now).With(id, lease), b.Renewed(limits, id, where, account, now));
  }

  lemma {:induction false} ThoseAll(ids: seq<Id>, keys: set<Id>)
    requires Elements(ids) <= keys
    ensures Those(ids, keys) == ids
    decreases |ids|
  {
    if ids != [] {
      var init := ids[..|ids| - 1];
      assert ids == init + [ids[|ids| - 1]];
      assert forall id :: id in init ==> id in Elements(ids);
      assert ids[|ids| - 1] in Elements(ids);
      ThoseAll(init, keys);
    }
  }

  lemma {:induction false} ThoseTwice(ids: seq<Id>, keys: set<Id>, less: set<Id>)
    ensures Those(Those(ids, keys), less) == Those(ids, keys * less)
    decreases |ids|
  {
    if ids != [] {
      var init, last := ids[..|ids| - 1], ids[|ids| - 1];
      ThoseTwice(init, keys, less);
      if last in keys {
        assert (Those(init, keys) + [last])[..|Those(init, keys)|] == Those(init, keys);
      } else {
        assert Those(init, keys) + [] == Those(init, keys);
      }
    }
  }

  lemma {:induction false} ThoseSame(ids: seq<Id>, keys: set<Id>, more: set<Id>)
    requires Elements(ids) * keys == Elements(ids) * more
    ensures Those(ids, keys) == Those(ids, more)
    decreases |ids|
  {
    if ids != [] {
      var init, last := ids[..|ids| - 1], ids[|ids| - 1];
      assert ids == init + [last];
      assert forall id :: id in init ==> id in Elements(ids);
      assert last in Elements(ids);
      assert last in keys <==> last in Elements(ids) * keys;
      assert last in more <==> last in Elements(ids) * more;
      assert Elements(init) * keys == Elements(init) * more by {
        assert forall id :: id in Elements(init) * keys <==> id in Elements(init) && id in Elements(ids) * keys;
        assert forall id :: id in Elements(init) * more <==> id in Elements(init) && id in Elements(ids) * more;
      }
      ThoseSame(init, keys, more);
    }
  }

  lemma {:induction false} ThoseWithout(ids: seq<Id>, keys: set<Id>, id: Id)
    ensures Without(Those(ids, keys), id) == Those(ids, keys - {id})
  {
    var those := Those(ids, keys);
    ThoseTwice(ids, keys, Elements(those) - {id});
    forall x | x in ids && x in keys
      ensures x in those
    {
      KeptInThose(ids, keys, x);
    }
    ThoseSame(ids, keys * (Elements(those) - {id}), keys - {id});
  }

  lemma {:induction false} KeptInThose(ids: seq<Id>, keys: set<Id>, x: Id)
    requires x in ids && x in keys
    ensures x in Those(ids, keys)
    decreases |ids|
  {
    if ids[|ids| - 1] != x {
      assert ids == ids[..|ids| - 1] + [ids[|ids| - 1]];
      KeptInThose(ids[..|ids| - 1], keys, x);
    }
  }

  /** The book once these leases were dropped, each as it expired. */
  function Dropping(b: Book, limits: Limits, ids: seq<Id>): Book
    requires forall id :: id in ids ==> id in b.leases
  {
    b.(leases := b.leases - Elements(ids), order := Those(b.order, b.leases.Keys - Elements(ids)),
       gone := NotedAll(b.gone, ids, b.leases, limits.maxGone))
  }

  lemma {:induction false} LapsedOnce(b: Book, now: real)
    requires BookOk(b)
    ensures Distinct(b.Lapsed(now)) && Elements(b.Lapsed(now)) == Expired(b.leases, now).Keys
  {
    ThoseIn(b.order, Expired(b.leases, now).Keys);
  }

  lemma {:induction false} NoneDropped(b: Book, limits: Limits)
    requires BookOk(b)
    ensures Dropping(b, limits, []) == b
  {
    ThoseAll(b.order, b.leases.Keys);
    assert b.leases - Elements([]) == b.leases && b.leases.Keys - Elements([]) == b.leases.Keys;
  }

  lemma {:induction false} DropNext(b: Book, limits: Limits, ids: seq<Id>, id: Id, now: real)
    requires (forall x :: x in ids + [id] ==> x in b.leases) && id !in ids && id in b.leases && b.leases[id].expires <= now
    ensures Dropping(b, limits, ids + [id]) == Dropping(b, limits, ids).Revoked(limits, id, now)
  {
    hide Those, Without, NotedAll;
    NotedSnoc(b.gone, ids, id, b.leases, limits.maxGone);
    ThoseWithout(b.order, b.leases.Keys - Elements(ids), id);
    assert Elements(ids + [id]) == Elements(ids) + {id};
    assert b.leases.Keys - Elements(ids) - {id} == b.leases.Keys - Elements(ids + [id]);
    assert b.leases - Elements(ids) - {id} == b.leases - Elements(ids + [id]);
  }

  lemma {:induction false} AllDropped(b: Book, limits: Limits, now: real)
    requires BookOk(b)
    ensures Dropping(b, limits, b.Lapsed(now)) == b.Swept(limits, now)
  {
    hide Those, NotedAll, Distinct, DistinctIds;
    LapsedOnce(b, now);
    assert b.leases.Keys - Expired(b.leases, now).Keys == Unexpired(b.leases, now).Keys;
    assert b.leases - Expired(b.leases, now).Keys == Unexpired(b.leases, now);
  }

  lemma {:induction false} NotedSnoc(gone: Dict<real>, ids: seq<Id>, id: Id, leases: Table, cap: nat)
    requires id in leases && forall x :: x in ids ==> x in leases
    ensures NotedAll(gone, ids + [id], leases, cap)
            == Noted(NotedAll(gone, ids, leases, cap), id, leases[id], leases[id].expires, cap)
  {
    assert (ids + [id])[..|ids|] == ids;
  }

  // ------------------------------------------------------------ as it is written

  /** The lease side of an `InboundQueue`. Each method holds the lock throughout. */
  class LeaseQueue {
    const limits: Limits
    var leases: Table
    var order: seq<Id>
    var gone: Dict<real>
    var retired: Dict<string>
    var stopped: Dict<string>
    var places: Dict<Where>

    ghost function Now(): Book
      reads this
    {
      Book(leases, order, gone, retired, stopped, places)
    }

    constructor (limits: Limits)
      ensures this.limits == limits && Now() == EMPTY
    {
      this.limits := limits;
      leases, order, gone, retired, stopped, places := map[], [], [], [], [], [];
    }

    /** `_leases.pop` and `_lapse` */
    method Lapse(id: Id, now: real)
      requires id in leases
      modifies this`leases, this`order, this`gone
      ensures Now() == old(Now()).Revoked(limits, id, now)
    {
      var lease := leases[id];
      leases := leases - {id};
      order := Without(order, id);
      if lease.where.cli.None? {
        return;
      }
      gone := Drop(gone, id) + [Entry(id, EndOf(lease, now))];
      if |gone| > limits.maxGone {
        gone := gone[|gone| - limits.maxGone..];
      }
    }

    method Live(id: Id, now: real) returns (lease: Option<Lease>)
      modifies this`leases, this`order, this`gone
      ensures lease == old(Now()).Live(id, now) && Now() == old(Now()).Looked(limits, id, now)
    {
      if id !in leases {
        return None;
      }
      var held := leases[id];
      if held.expires <= now {
        Lapse(id, now);
        return None;
      }
      return Some(held);
    }

    method Put(id: Id, lease: Lease)
      modifies this`leases, this`order
      ensures Now() == old(Now()).With(id, lease)
    {
      if id !in leases {
        order := order + [id];
      }
      leases := leases[id := lease];
    }

    /** The expired leases are listed first, and then dropped one by one. */
    method Sweep(now: real)
      requires BookOk(Now())
      modifies this`leases, this`order, this`gone
      ensures Now() == old(Now()).Swept(limits, now)
    {
      hide BookOk, Those, Without, NotedAll;
      var lapsed := Those(order, Expired(leases, now).Keys);
      ghost var was := Now();
      LapsedOnce(was, now);
      NoneDropped(was, limits);
      for i := 0 to |lapsed|
        invariant Now() == Dropping(was, limits, lapsed[..i])
      {
        assert lapsed[i] in lapsed && lapsed[i] !in lapsed[..i];
        assert lapsed[..i + 1] == lapsed[..i] + [lapsed[i]];
        DropNext(was, limits, lapsed[..i], lapsed[i], now);
        Lapse(lapsed[i], now);
      }
      assert lapsed[..|lapsed|] == lapsed;
      AllDropped(was, limits, now);
    }

    method MarkPoller(id: Id, where: Where, account: Option<string>, now: real)
      requires BookOk(Now())
      modifies this
      ensures Now() == old(Now()).Marked(limits, id, where, account, now)
    {
      RenewedBook(Now(), limits, id, where, account, now);
      var held := Live(id, now);
      var said := Continued(held, where);
      Put(id, Lease(now + limits.ttl, said, account));
      if Placed(where) {
        places := PutLast(places, id, said, limits.maxPlaces);
      }
      if |leases| > limits.maxLeases {
        Sweep(now);
      }
    }

    method PollerRun(id: Id, now: real) returns (where: Option<Where>)
      modifies this`leases, this`order, this`gone
      ensures (Now(), Ran(where)) == old(Now()).Do(limits, Poll(id), now)
    {
      var lease := Live(id, now);
      where := if lease.None? then None else Some(lease.value.where);
    }

    method ReportState(id: Id, instance: string, state: string, now: real) returns (kept: bool)
      modifies this`leases, this`order, this`gone
      ensures (Now(), Kept(kept)) == old(Now()).Do(limits, Report(id, instance, state), now)
    {
      var lease := Live(id, now);
      if lease.None? || lease.value.where.instance != Some(instance) {
        return false;
      }
      Put(id, lease.value.(where := lease.value.where.(state := state)));
      return true;
    }

    method TakeGone(now: real) returns (taken: seq<Id>)
      requires BookOk(Now())
      modifies this`leases, this`order, this`gone
      ensures taken == Names(old(Now()).Swept(limits, now).gone)
      ensures (Now(), Gone(Elements(taken))) == old(Now()).Do(limits, Op.TakeGone, now)
    {
      Sweep(now);
      taken := Names(gone);
      NamesAreIds(gone);
      gone := [];
    }

    method HeldByAnother(id: Id, cli: string, instance: string, now: real) returns (held: bool)
      modifies this`leases, this`order, this`gone
      ensures (Now(), Held(held)) == old(Now()).Do(limits, HeldBy(id, cli, instance), now)
    {
      if Get(retired, id) == Some(instance) {
        return true;
      }
      var lease := Live(id, now);
      return HoldsOff(lease, cli, instance);
    }

    method ForgetPoller(id: Id, now: real)
      modifies this`leases, this`order, this`gone
      ensures Now() == old(Now()).Revoked(limits, id, now)
    {
      if id in leases {
        Lapse(id, now);
      }
    }

    method StopRun(id: Id, now: real)
      modifies this`leases, this`order, this`gone, this`stopped
      ensures Now() == old(Now()).Do(limits, Stop(id), now).0
    {
      if id in leases && leases[id].where.instance.Some? {
        stopped := PutLast(stopped, id, leases[id].where.instance.value, limits.maxStopped);
      }
      ForgetPoller(id, now);
    }

    method RetireRun(id: Id, now: real)
      modifies this`leases, this`order, this`gone, this`retired
      ensures Now() == old(Now()).Do(limits, Retire(id), now).0
    {
      var where := if id in leases then Some(leases[id].where) else Get(places, id);
      if where.Some? && where.value.instance.Some? {
        retired := PutLast(retired, id, where.value.instance.value, limits.maxRetired);
      }
      ForgetPoller(id, now);
    }
  }
}
