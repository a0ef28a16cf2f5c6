/** Python's dictionaries as `server/inbound.py` bounds them: in the order their keys were
    last put, the oldest forgotten past a cap. */
module Dicts {
  import opened Common

  type Id = nat

  datatype Entry<V> = Entry(id: Id, value: V)

  type Dict<V> = seq<Entry<V>>

  function Get<V>(d: Dict<V>, id: Id): Option<V> {
    if d == [] then None
    else if d[|d| - 1].id == id then Some(d[|d| - 1].value)
    else Get(d[..|d| - 1], id)
  }

  function Drop<V>(d: Dict<V>, id: Id): Dict<V> {
    if d == [] then []
    else if d[|d| - 1].id == id then d[..|d| - 1]
    else Drop(d[..|d| - 1], id) + [d[|d| - 1]]
  }

  /** `d[id] = value`, moved to the end, and the oldest forgotten past the cap. */
  function PutLast<V>(d: Dict<V>, id: Id, value: V, cap: nat): Dict<V> {
    Newest(Drop(d, id) + [Entry(id, value)], cap)
  }

  function Ids<V>(d: Dict<V>): set<Id> {
    set i | 0 <= i < |d| :: d[i].id
  }

  ghost predicate DistinctIds<V>(d: Dict<V>) {
    forall i, j :: 0 <= i < j < |d| ==> d[i].id != d[j].id
  }

  lemma {:induction false} IdsSnoc<V>(d: Dict<V>, e: Entry<V>)
    ensures Ids(d + [e]) == Ids(d) + {e.id}
  {
    assert forall i :: 0 <= i < |d| ==> (d + [e])[i] == d[i];
    assert (d + [e])[|d|] == e;
  }

  lemma {:induction false} SplitLast<V>(d: Dict<V>)
    requires d != []
    ensures d == d[..|d| - 1] + [d[|d| - 1]] && Ids(d) == Ids(d[..|d| - 1]) + {d[|d| - 1].id}
  {
    IdsSnoc(d[..|d| - 1], d[|d| - 1]);
    assert d == d[..|d| - 1] + [d[|d| - 1]];
  }

  lemma {:induction false} DistinctSnoc<V>(d: Dict<V>, e: Entry<V>)
    ensures DistinctIds(d + [e]) <==> DistinctIds(d) && e.id !in Ids(d)
  {
    var more := d + [e];
    assert forall i :: 0 <= i < |d| ==> more[i] == d[i];
    assert more[|d|] == e;
    if DistinctIds(d) && e.id !in Ids(d) {
      forall i, j | 0 <= i < j < |more|
        ensures more[i].id != more[j].id
      {
        assert more[i].id in Ids(d);
      }
    }
  }

  lemma {:induction false} DistinctSize<V>(d: Dict<V>)
    requires DistinctIds(d)
    ensures |Ids(d)| == |d|
    decreases |d|
  {
    if d != [] {
      SplitLast(d);
      DistinctSnoc(d[..|d| - 1], d[|d| - 1]);
      DistinctSize(d[..|d| - 1]);
    }
  }

  lemma {:induction false} GetIn<V>(d: Dict<V>, id: Id)
    ensures Get(d, id).Some? <==> id in Ids(d)
    decreases |d|
  {
    if d != [] {
      SplitLast(d);
      GetIn(d[..|d| - 1], id);
    }
  }

  lemma {:induction false} DropIds<V>(d: Dict<V>, id: Id)
    requires DistinctIds(d)
    ensures DistinctIds(Drop(d, id)) && Ids(Drop(d, id)) == Ids(d) - {id}
    ensures |Drop(d, id)| == |d| - if id in Ids(d) then 1 else 0
    decreases |d|
  {
    if d != [] {
      var init, last := d[..|d| - 1], d[|d| - 1];
      SplitLast(d);
      DistinctSnoc(init, last);
      DropIds(init, id);
      if last.id != id {
        IdsSnoc(Drop(init, id), last);
        DistinctSnoc(Drop(init, id), last);
      }
    }
  }

  /** Putting a key keeps it once; below the cap nothing is forgotten. */
  lemma {:induction false} PutIds<V>(d: Dict<V>, id: Id, value: V, cap: nat)
    requires DistinctIds(d)
    ensures DistinctIds(PutLast(d, id, value, cap)) && |PutLast(d, id, value, cap)| <= cap
    ensures |Ids(d) + {id}| <= cap ==>
              Ids(PutLast(d, id, value, cap)) == Ids(d) + {id} && PutLast(d, id, value, cap) == Drop(d, id) + [Entry(id, value)]
  {
    var all := Drop(d, id) + [Entry(id, value)];
    DropIds(d, id);
    IdsSnoc(Drop(d, id), Entry(id, value));
    DistinctSnoc(Drop(d, id), Entry(id, value));
    assert Ids(all) == Ids(d) + {id};
    DistinctSize(all);
  }

  lemma {:induction false} DropAbsent<V>(d: Dict<V>, id: Id)
    requires id !in Ids(d)
    ensures Drop(d, id) == d
    decreases |d|
  {
    if d != [] {
      SplitLast(d);
      DropAbsent(d[..|d| - 1], id);
    }
  }

  lemma {:induction false} DropJoin<V>(d: Dict<V>, e: Dict<V>, id: Id)
    requires id !in Ids(e)
    ensures Drop(d + e, id) == Drop(d, id) + e
    decreases |e|
  {
    if e == [] {
      assert d + e == d;
    } else {
      SplitLast(e);
      assert (d + e)[..|d + e| - 1] == d + e[..|e| - 1];
      DropJoin(d, e[..|e| - 1], id);
    }
  }

  lemma {:induction false} DropRight<V>(d: Dict<V>, e: Dict<V>, id: Id)
    requires id in Ids(e)
    ensures Drop(d + e, id) == d + Drop(e, id)
    decreases |e|
  {
    SplitLast(e);
    assert (d + e)[..|d + e| - 1] == d + e[..|e| - 1];
    if e[|e| - 1].id != id {
      DropRight(d, e[..|e| - 1], id);
    }
  }

  /** Forgetting the oldest before a put changes nothing that the put leaves. */
  lemma {:induction false} PutNewest<V>(d: Dict<V>, id: Id, value: V, cap: nat)
    requires DistinctIds(d)
    ensures PutLast(Newest(d, cap), id, value, cap) == PutLast(d, id, value, cap)
  {
    if |d| > cap {
      hide Drop, Ids, DistinctIds;
      var x, y := d[..|d| - cap], d[|d| - cap..];
      assert d == x + y;
      assert DistinctIds(y) by { DistinctTail(d, |d| - cap); }
      DropIds(y, id);
      if id in Ids(y) {
        DropRight(x, y, id);
        TailJoin(x, Drop(y, id) + [Entry(id, value)], cap);
        assert Drop(d, id) + [Entry(id, value)] == x + (Drop(y, id) + [Entry(id, value)]);
      } else {
        DropAbsent(y, id);
        DropJoin(x, y, id);
        TailJoin(Drop(x, id), y + [Entry(id, value)], cap);
        assert Drop(d, id) + [Entry(id, value)] == Drop(x, id) + (y + [Entry(id, value)]);
      }
    }
  }

  lemma {:induction false} DistinctTail<V>(d: Dict<V>, k: nat)
    requires DistinctIds(d) && k <= |d|
    ensures DistinctIds(d[k..])
  {
  }

  lemma {:induction false} TailJoin<T>(x: seq<T>, y: seq<T>, cap: nat)
    requires |y| >= cap
    ensures Newest(x + y, cap) == Newest(y, cap)
  {
  }

  // --------------------------------------------------- what a bounded one remembers

  /** What a dictionary holds after these puts. */
  function Filled<V>(puts: Dict<V>, cap: nat): Dict<V> {
    if puts == [] then []
    else PutLast(Filled(puts[..|puts| - 1], cap), puts[|puts| - 1].id, puts[|puts| - 1].value, cap)
  }

  /** The other keys put since this one last was. */
  function Since<V>(puts: Dict<V>, id: Id): set<Id> {
    if puts == [] || puts[|puts| - 1].id == id then {}
    else Since(puts[..|puts| - 1], id) + {puts[|puts| - 1].id}
  }

  lemma {:induction false} SinceSnoc<V>(d: Dict<V>, e: Entry<V>, id: Id)
    ensures Since(d + [e], id) == if e.id == id then {} else Since(d, id) + {e.id}
    ensures Get(d + [e], id) == if e.id == id then Some(e.value) else Get(d, id)
  {
    assert (d + [e])[..|d|] == d;
  }

  lemma {:induction false} SinceDrop<V>(d: Dict<V>, x: Id, id: Id)
    requires DistinctIds(d) && id != x
    ensures Since(Drop(d, x), id) + {x} == Since(d, id) + {x} && Get(Drop(d, x), id) == Get(d, id)
    decreases |d|
  {
    if d != [] {
      var init, last := d[..|d| - 1], d[|d| - 1];
      SplitLast(d);
      DistinctSnoc(init, last);
      SinceDrop(init, x, id);
      if last.id != x {
        SinceSnoc(Drop(init, x), last, id);
      }
    }
  }

  /** Forgetting the oldest changes nothing for the keys that stay. */
  lemma {:induction false} SinceNewest<V>(d: Dict<V>, cap: nat, id: Id)
    requires DistinctIds(d) && id in Ids(Newest(d, cap))
    ensures Since(Newest(d, cap), id) == Since(d, id) && Get(Newest(d, cap), id) == Get(d, id)
    decreases |d|
  {
    if |d| > cap {
      var init, last := d[..|d| - 1], d[|d| - 1];
      SplitLast(d);
      DistinctSnoc(init, last);
      var k := cap - 1;
      assert Newest(d, cap) == Newest(init, k) + [last];
      IdsSnoc(Newest(init, k), last);
      SinceSnoc(Newest(init, k), last, id);
      if id != last.id {
        SinceNewest(init, k, id);
      }
    }
  }

  lemma {:induction false} SinceFew<V>(d: Dict<V>, id: Id)
    requires id in Ids(d)
    ensures |Since(d, id)| < |d|
    decreases |d|
  {
    SplitLast(d);
    if d[|d| - 1].id != id {
      SinceFew(d[..|d| - 1], id);
    }
  }

  /** What was pushed out has as many keys put since as there is room for. */
  lemma {:induction false} ForgottenSince<V>(d: Dict<V>, cap: nat, id: Id)
    requires DistinctIds(d) && id in Ids(d) && id !in Ids(Newest(d, cap))
    ensures |Since(d, id)| >= cap && Ids(Newest(d, cap)) <= Since(d, id)
    decreases |d|
  {
    var init, last := d[..|d| - 1], d[|d| - 1];
    SplitLast(d);
    DistinctSnoc(init, last);
    if cap > 0 {
      var k := cap - 1;
      assert Newest(d, cap) == Newest(init, k) + [last];
      IdsSnoc(Newest(init, k), last);
      ForgottenSince(init, k, id);
      SinceIn(init, id);
    } else {
      assert Newest(d, cap) == [];
    }
  }

  lemma {:induction false} SinceIn<V>(d: Dict<V>, id: Id)
    ensures Since(d, id) <= Ids(d)
    decreases |d|
  {
    if d != [] {
      SplitLast(d);
      SinceIn(d[..|d| - 1], id);
    }
  }

  ghost predicate FilledOk<V>(puts: Dict<V>, cap: nat, d: Dict<V>) {
    && DistinctIds(d) && |d| <= cap && Ids(d) <= Ids(puts)
    && (forall id :: id in Ids(d) ==> Since(d, id) == Since(puts, id) && Get(d, id) == Get(puts, id))
    && (forall id :: id in Ids(puts) && id !in Ids(d) ==> |Since(puts, id)| >= cap)
  }

  lemma {:induction false} PutKeeps<V>(puts: Dict<V>, cap: nat, d: Dict<V>, e: Entry<V>)
    requires FilledOk(puts, cap, d)
    ensures FilledOk(puts + [e], cap, PutLast(d, e.id, e.value, cap))
  {
    hide Since, Get, Drop, Newest;
    var all, more := Drop(d, e.id) + [e], puts + [e];
    var next := Newest(all, cap);
    DropIds(d, e.id);
    IdsSnoc(Drop(d, e.id), e);
    DistinctSnoc(Drop(d, e.id), e);
    IdsSnoc(puts, e);
    PutIds(d, e.id, e.value, cap);
    NewestIn(all, cap);
    forall id | id in Ids(all)
      ensures Since(all, id) == Since(more, id) && Get(all, id) == Get(more, id)
    {
      SinceSnoc(Drop(d, e.id), e, id);
      SinceSnoc(puts, e, id);
      if id != e.id {
        SinceDrop(d, e.id, id);
      }
    }
    forall id | id in Ids(next)
      ensures Since(next, id) == Since(more, id) && Get(next, id) == Get(more, id)
    {
      SinceNewest(all, cap, id);
    }
    forall id | id in Ids(more) && id !in Ids(next)
      ensures |Since(more, id)| >= cap
    {
      SinceSnoc(puts, e, id);
      if id in Ids(all) {
        ForgottenSince(all, cap, id);
      } else {
        SubsetSize(Since(puts, id), Since(more, id));
      }
    }
  }

  lemma {:induction false} NewestIn<V>(d: Dict<V>, cap: nat)
    ensures Ids(Newest(d, cap)) <= Ids(d)
  {
    if |d| > cap {
      assert forall i :: 0 <= i < cap ==> Newest(d, cap)[i] == d[|d| - cap + i];
    }
  }

  lemma {:induction false} FilledIsOk<V>(puts: Dict<V>, cap: nat)
    ensures FilledOk(puts, cap, Filled(puts, cap))
    decreases |puts|
  {
    hide FilledOk;
    if puts == [] {
      FilledNothing<V>(cap);
    } else {
      var init, last := puts[..|puts| - 1], puts[|puts| - 1];
      FilledIsOk(init, cap);
      PutKeeps(init, cap, Filled(init, cap), last);
      assert puts == init + [last];
    }
  }

  lemma {:induction false} FilledNothing<V>(cap: nat)
    ensures FilledOk<V>([], cap, [])
  {
  }

  /** A bounded dictionary has a key exactly when it was put and, since it last was, fewer
      others than there is room for; and it has what was put last. */
  lemma {:induction false} FilledGet<V>(puts: Dict<V>, cap: nat, id: Id)
    ensures Get(Filled(puts, cap), id) == if |Since(puts, id)| < cap then Get(puts, id) else None
  {
    hide Since, Get, Filled;
    var d := Filled(puts, cap);
    FilledIsOk(puts, cap);
    GetIn(d, id);
    GetIn(puts, id);
    if id in Ids(d) {
      SinceFew(d, id);
    }
  }
}
