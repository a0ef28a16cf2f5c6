/** Keeping each edge kind acyclic under concurrent transactions: `server/primitives.py`.

    A transaction inserts an edge in three statements: take the kind's advisory lock, walk
    the kind's edges from the target, insert the row. Other transactions run between any
    two of them. A statement reads the committed edges and its own transaction's changes. */
module EdgeDag {

  type Node = nat

  type Tx = nat

  datatype EdgeKind = ProducedBy | Narrows | Requires | Supersedes | Proves | Favors | CitesPaper

  datatype Edge = Edge(src: Node, dst: Node, kind: EdgeKind)

  predicate EnforcesAcyclicity(kind: EdgeKind) {
    kind != CitesPaper
  }

  // ---------------------------------------------------------------- paths

  ghost predicate IsPath(edges: set<Edge>, kind: EdgeKind, p: seq<Node>) {
    |p| > 0 && forall i {:trigger p[i]} :: 0 <= i < |p| - 1 ==> Edge(p[i], p[i + 1], kind) in edges
  }

  ghost predicate PathFrom(edges: set<Edge>, kind: EdgeKind, p: seq<Node>, a: Node, b: Node) {
    IsPath(edges, kind, p) && p[0] == a && p[|p| - 1] == b
  }

  ghost predicate Reach(edges: set<Edge>, kind: EdgeKind, a: Node, b: Node) {
    exists p :: PathFrom(edges, kind, p, a, b)
  }

  ghost predicate Acyclic(edges: set<Edge>, kind: EdgeKind) {
    forall p :: IsPath(edges, kind, p) && |p| >= 2 ==> p[0] != p[|p| - 1]
  }

  lemma {:induction false} AcyclicSubset(small: set<Edge>, big: set<Edge>, kind: EdgeKind)
    requires Acyclic(big, kind)
    requires forall e :: e in small && e.kind == kind ==> e in big
    ensures Acyclic(small, kind)
  {
    forall p | IsPath(small, kind, p) && |p| >= 2
      ensures p[0] != p[|p| - 1]
    {
      assert IsPath(big, kind, p);
    }
  }

  /** A path that may use `e`, from `e`'s target to its source, can avoid `e`. */
  lemma {:induction false} AvoidEdge(edges: set<Edge>, e: Edge, p: seq<Node>)
    requires PathFrom(edges + {e}, e.kind, p, e.dst, e.src)
    ensures Reach(edges, e.kind, e.dst, e.src)
    decreases |p|
  {
    if j :| 0 <= j < |p| - 1 && p[j] == e.src && p[j + 1] == e.dst {
      AvoidEdge(edges, e, p[..j + 1]);
    } else {
      assert PathFrom(edges, e.kind, p, e.dst, e.src);
    }
  }

  lemma {:induction false} ClosingEdgeMakesCycle(edges: set<Edge>, e: Edge)
    requires e.src == e.dst || Reach(edges, e.kind, e.dst, e.src)
    ensures !Acyclic(edges + {e}, e.kind)
  {
    if e.src == e.dst {
      assert IsPath(edges + {e}, e.kind, [e.src, e.dst]);
    } else {
      var p :| PathFrom(edges, e.kind, p, e.dst, e.src);
      assert IsPath(edges + {e}, e.kind, [e.src] + p);
    }
  }

  /** Adding an edge keeps a kind acyclic exactly when the edge is no self-loop and its
      target does not already reach its source. */
  lemma {:induction false} AddKeepsAcyclic(edges: set<Edge>, e: Edge)
    ensures Acyclic(edges + {e}, e.kind)
       <==> Acyclic(edges, e.kind) && e.src != e.dst && !Reach(edges, e.kind, e.dst, e.src)
  {
    if e.src == e.dst || Reach(edges, e.kind, e.dst, e.src) {
      ClosingEdgeMakesCycle(edges, e);
    } else if Acyclic(edges + {e}, e.kind) {
      AcyclicSubset(edges, edges + {e}, e.kind);
    } else {
      var p :| IsPath(edges + {e}, e.kind, p) && |p| >= 2 && p[0] == p[|p| - 1];
      CycleUsesEdge(edges, e, p);
    }
  }

  lemma {:induction false} SlicePath(edges: set<Edge>, kind: EdgeKind, p: seq<Node>, lo: nat, hi: nat)
    requires IsPath(edges, kind, p) && lo < hi <= |p|
    ensures IsPath(edges, kind, p[lo..hi])
  {
    assert forall i {:trigger p[lo..hi][i]} :: 0 <= i < hi - lo - 1 ==>
        p[lo..hi][i] == p[lo + i] && p[lo..hi][i + 1] == p[lo + i + 1];
  }

  lemma {:induction false} JoinPaths(edges: set<Edge>, kind: EdgeKind, p: seq<Node>, q: seq<Node>)
    requires IsPath(edges, kind, p) && IsPath(edges, kind, q) && Edge(p[|p| - 1], q[0], kind) in edges
    ensures IsPath(edges, kind, p + q)
  {
    forall i | 0 <= i < |p + q| - 1
      ensures Edge((p + q)[i], (p + q)[i + 1], kind) in edges
    {
      if i < |p| - 1 {
        assert Edge(p[i], p[i + 1], kind) in edges;
      } else if i >= |p| {
        var k := i - |p|;
        assert Edge(q[k], q[k + 1], kind) in edges;
      }
    }
  }

  /** Along a cycle, the target of any of its edges reaches the edge's source. */
  lemma {:induction false} CycleReaches(edges: set<Edge>, kind: EdgeKind, p: seq<Node>, i: nat)
    requires IsPath(edges, kind, p) && i < |p| - 1 && p[0] == p[|p| - 1]
    ensures Reach(edges, kind, p[i + 1], p[i])
  {
    var turned := p[i + 1..];
    SlicePath(edges, kind, p, i + 1, |p|);
    if i > 0 {
      SlicePath(edges, kind, p, 1, i + 1);
      assert Edge(p[0], p[0 + 1], kind) in edges;
      JoinPaths(edges, kind, turned, p[1..i + 1]);
      turned := turned + p[1..i + 1];
    }
    assert PathFrom(edges, kind, turned, p[i + 1], p[i]);
  }

  lemma {:induction false} CycleUsesEdge(edges: set<Edge>, e: Edge, p: seq<Node>)
    requires IsPath(edges + {e}, e.kind, p) && |p| >= 2 && p[0] == p[|p| - 1]
    ensures IsPath(edges, e.kind, p) || Reach(edges, e.kind, e.dst, e.src)
  {
    if i :| 0 <= i < |p| - 1 && p[i] == e.src && p[i + 1] == e.dst {
      CycleReaches(edges + {e}, e.kind, p, i);
      var turned :| PathFrom(edges + {e}, e.kind, turned, e.dst, e.src);
      AvoidEdge(edges, e, turned);
    }
  }

  lemma {:induction false} ReachStep(edges: set<Edge>, kind: EdgeKind, a: Node, b: Node, c: Node)
    requires Reach(edges, kind, a, b) && Edge(b, c, kind) in edges
    ensures Reach(edges, kind, a, c)
  {
    var p :| PathFrom(edges, kind, p, a, b);
    assert PathFrom(edges, kind, p + [c], a, c);
  }

  lemma {:induction false} ClosedHoldsPath(edges: set<Edge>, kind: EdgeKind, ids: set<Node>, p: seq<Node>, n: nat)
    requires IsPath(edges, kind, p) && p[0] in ids && n < |p|
    requires forall e :: e in edges && e.kind == kind && e.src in ids ==> e.dst in ids
    ensures p[n] in ids
  {
    if n > 0 {
      ClosedHoldsPath(edges, kind, ids, p, n - 1);
      assert Edge(p[n - 1], p[n], kind) in edges;
    }
  }

  /** The recursive query: from `root`, add the targets of the working set's edges until
      a round adds none. It ends on every finite graph with exact reachability. */
  method Descendants(edges: set<Edge>, kind: EdgeKind, root: Node) returns (ids: set<Node>)
    ensures forall v :: v in ids <==> Reach(edges, kind, root, v)
  {
    ghost var all := {root} + set e | e in edges :: e.dst;
    ids := {root};
    var working := {root};
    assert PathFrom(edges, kind, [root], root, root);
    while working != {}
      invariant working <= ids <= all && root in ids
      invariant forall v :: v in ids ==> Reach(edges, kind, root, v)
      invariant forall e :: e in edges && e.kind == kind && e.src in ids - working ==> e.dst in ids
      decreases all - ids, working
    {
      var next := set e | e in edges && e.kind == kind && e.src in working && e.dst !in ids :: e.dst;
      forall v | v in next
        ensures Reach(edges, kind, root, v)
      {
        var e :| e in edges && e.kind == kind && e.src in working && e.dst == v;
        assert e == Edge(e.src, v, kind);
        ReachStep(edges, kind, root, e.src, v);
      }
      ids, working := ids + next, next;
    }
    forall v | Reach(edges, kind, root, v)
      ensures v in ids
    {
      var p :| PathFrom(edges, kind, p, root, v);
      ClosedHoldsPath(edges, kind, ids, p, |p| - 1);
    }
  }

  // --------------------------------------------------------- transactions

  /** Where a transaction is inside `insert_edge`. */
  datatype Phase = Ready | Locking(edge: Edge) | Checking(edge: Edge) | Inserting(edge: Edge)

  datatype Txn = Txn(added: set<Edge>, removed: set<Edge>, locks: set<EdgeKind>, phase: Phase)

  const Fresh := Txn({}, {}, {}, Ready)

  datatype Step =
    | Begin(tx: Tx)
    | Ask(tx: Tx, edge: Edge)
    | Lock(tx: Tx)
    | Check(tx: Tx)
    | Insert(tx: Tx)
    | Delete(tx: Tx, edge: Edge)
    | Commit(tx: Tx)
    | Abort(tx: Tx)

  datatype Database = Database(committed: set<Edge>, txs: map<Tx, Txn>) {

    /** What a statement of `tx` reads. */
    function Sees(tx: Tx): set<Edge>
      requires tx in txs
    {
      committed - txs[tx].removed + txs[tx].added
    }

    predicate LockedByOther(tx: Tx, kind: EdgeKind) {
      exists t :: t in txs && t != tx && kind in txs[t].locks
    }

    function Put(tx: Tx, t: Txn): Database {
      this.(txs := txs[tx := t])
    }

    /** One statement of one transaction; a step that cannot happen changes nothing. */
    ghost function Do(step: Step): Database {
      if step.Begin? then
        if step.tx in txs then this else Put(step.tx, Fresh)
      else if step.tx !in txs then this
      else
        var t := txs[step.tx];
        match step
        case Begin(_) => this
        // A self-loop is refused; a kind that may hold cycles skips the lock and the walk.
        case Ask(tx, e) =>
          if !t.phase.Ready? || e.src == e.dst then this
          else if EnforcesAcyclicity(e.kind) then Put(tx, t.(phase := Locking(e)))
          else Put(tx, t.(phase := Inserting(e)))
        case Lock(tx) =>
          if t.phase.Locking? && !LockedByOther(tx, t.phase.edge.kind)
          then Put(tx, t.(phase := Checking(t.phase.edge), locks := t.locks + {t.phase.edge.kind}))
          else this
        case Check(tx) =>
          if !t.phase.Checking? then this
          else if Reach(Sees(tx), t.phase.edge.kind, t.phase.edge.dst, t.phase.edge.src)
          then Put(tx, t.(phase := Ready))
          else Put(tx, t.(phase := Inserting(t.phase.edge)))
        case Insert(tx) =>
          if !t.phase.Inserting? then this
          else if t.phase.edge in Sees(tx) then Put(tx, t.(phase := Ready))
          else Put(tx, t.(phase := Ready, added := t.added + {t.phase.edge}))
        case Delete(tx, e) =>
          if t.phase.Ready? && e in Sees(tx)
          then Put(tx, t.(added := t.added - {e}, removed := t.removed + {e}))
          else this
        case Commit(tx) =>
          if t.phase.Ready? then Database(Sees(tx), txs - {tx}) else this
        case Abort(tx) => this.(txs := txs - {tx})
    }

    ghost function Run(steps: seq<Step>): Database
      decreases |steps|
    {
      if steps == [] then this else Do(steps[0]).Run(steps[1..])
    }

    /** Each acyclic kind is a DAG, as committed and as its lock's holder sees it; a
        checked edge may be added; only the holder has uncommitted edges of the kind. */
    ghost predicate Inv() {
      && (forall k :: EnforcesAcyclicity(k) ==> Acyclic(committed, k))
      && (forall t :: t in txs ==> TxInv(t))
      && (forall t, u, k :: t in txs && u in txs && k in txs[t].locks && k in txs[u].locks ==> t == u)
    }

    ghost predicate TxInv(t: Tx)
      requires t in txs
    {
      && (forall e :: e in txs[t].added && EnforcesAcyclicity(e.kind) ==> e.kind in txs[t].locks)
      && (forall k :: k in txs[t].locks ==> EnforcesAcyclicity(k) && Acyclic(Sees(t), k))
      && (txs[t].phase.Checking? ==> txs[t].phase.edge.kind in txs[t].locks)
      && (!txs[t].phase.Ready? ==> txs[t].phase.edge.src != txs[t].phase.edge.dst)
      && (txs[t].phase.Locking? ==> EnforcesAcyclicity(txs[t].phase.edge.kind))
      && (txs[t].phase.Inserting? && EnforcesAcyclicity(txs[t].phase.edge.kind) ==>
            && txs[t].phase.edge.kind in txs[t].locks
            && Acyclic(Sees(t) + {txs[t].phase.edge}, txs[t].phase.edge.kind))
    }
  }

  /** The edges `t` would insert of an acyclic kind stay a DAG when the edges it reads
      shrink. */
  lemma {:induction false} TxInvShrinks(before: Database, after: Database, t: Tx)
    requires t in before.txs && t in after.txs && before.TxInv(t)
    requires after.txs[t] == before.txs[t]
    requires forall e :: e in after.Sees(t) && e.kind in before.txs[t].locks ==> e in before.Sees(t)
    ensures after.TxInv(t)
  {
    var x := before.txs[t];
    forall k | k in x.locks
      ensures Acyclic(after.Sees(t), k)
    {
      AcyclicSubset(after.Sees(t), before.Sees(t), k);
    }
    if x.phase.Inserting? && EnforcesAcyclicity(x.phase.edge.kind) {
      AcyclicSubset(after.Sees(t) + {x.phase.edge}, before.Sees(t) + {x.phase.edge}, x.phase.edge.kind);
    }
  }

  /** Replacing one transaction's state keeps the invariant when its own part holds and
      it took no lock another holds. */
  lemma {:induction false} PutKeeps(d: Database, tx: Tx, t: Txn)
    requires d.Inv() && d.Put(tx, t).TxInv(tx)
    requires forall k :: k in t.locks ==> !d.LockedByOther(tx, k)
    ensures d.Put(tx, t).Inv()
  {
    var after := d.Put(tx, t);
    forall u | u in after.txs && u != tx
      ensures after.TxInv(u)
    {
      TxInvShrinks(d, after, u);
    }
  }

  lemma {:induction false} AbortKeeps(d: Database, tx: Tx)
    requires d.Inv()
    ensures d.(txs := d.txs - {tx}).Inv()
  {
    var after := d.(txs := d.txs - {tx});
    forall t | t in after.txs
      ensures after.TxInv(t)
    {
      TxInvShrinks(d, after, t);
    }
  }

  lemma {:induction false} CommitKeeps(d: Database, tx: Tx)
    requires d.Inv() && tx in d.txs && d.txs[tx].phase.Ready?
    ensures Database(d.Sees(tx), d.txs - {tx}).Inv()
  {
    var after := Database(d.Sees(tx), d.txs - {tx});
    forall k | EnforcesAcyclicity(k)
      ensures Acyclic(after.committed, k)
    {
      if k !in d.txs[tx].locks {
        AcyclicSubset(after.committed, d.committed, k);
      }
    }
    forall t | t in after.txs
      ensures after.TxInv(t)
    {
      forall e | e in after.Sees(t) && e.kind in d.txs[t].locks
        ensures e in d.Sees(t)
      {
        assert e.kind !in d.txs[tx].locks;
      }
      TxInvShrinks(d, after, t);
    }
  }

  lemma {:induction false} StepKeepsInv(d: Database, step: Step)
    requires d.Inv()
    ensures d.Do(step).Inv()
  {
    hide Acyclic;
    var after := d.Do(step);
    if after != d {
      if step.Commit? {
        CommitKeeps(d, step.tx);
      } else if step.Abort? {
        AbortKeeps(d, step.tx);
      } else {
        OwnStepKeeps(d, step);
        assert after == d.Put(step.tx, after.txs[step.tx]);
        PutKeeps(d, step.tx, after.txs[step.tx]);
      }
    }
  }

  lemma {:induction false} OwnStepKeeps(d: Database, step: Step)
    requires d.Inv() && !step.Commit? && !step.Abort? && step.tx in d.Do(step).txs
    ensures d.Do(step).TxInv(step.tx)
  {
    var tx := step.tx;
    var after := d.Do(step);
    if after == d {
    } else if step.Begin? {
      assert after.txs[tx] == Fresh;
    } else {
      var t := d.txs[tx];
      match step
      case Ask(_, e) => assert after.Sees(tx) == d.Sees(tx);
      case Lock(_) =>
        assert after.Sees(tx) == d.Sees(tx);
        var kind := t.phase.edge.kind;
        if kind !in t.locks {
          AcyclicSubset(d.Sees(tx), d.committed, kind);
        }
      case Check(_) =>
        assert after.Sees(tx) == d.Sees(tx);
        AddKeepsAcyclic(d.Sees(tx), t.phase.edge);
      case Insert(_) =>
        var e := t.phase.edge;
        assert after.Sees(tx) == d.Sees(tx) + {e};
        forall k | k in t.locks
          ensures Acyclic(after.Sees(tx), k)
        {
          if k != e.kind {
            AcyclicSubset(after.Sees(tx), d.Sees(tx), k);
          }
        }
      case Delete(_, e) =>
        forall k | k in t.locks
          ensures Acyclic(after.Sees(tx), k)
        {
          AcyclicSubset(after.Sees(tx), d.Sees(tx), k);
        }
      case Begin(_) =>
      case Commit(_) =>
      case Abort(_) =>
    }
  }

  lemma {:induction false} RunKeepsInv(d: Database, steps: seq<Step>)
    requires d.Inv()
    ensures d.Run(steps).Inv()
    decreases |steps|
  {
    if steps != [] {
      StepKeepsInv(d, steps[0]);
      RunKeepsInv(d.Do(steps[0]), steps[1..]);
    }
  }

  lemma {:induction false} FreshDatabaseInv(edges: set<Edge>)
    ensures Database(edges, map[]).Inv() <==> forall k :: k != CitesPaper ==> Acyclic(edges, k)
  {
  }

  /** From any database in which only citations may form cycles, after any interleaving of
      any transactions, the committed edges of every other kind, and what the holder of its
      lock sees, form a DAG; the kind's lock has one holder. */
  lemma {:induction false} EveryRunIsAcyclic(edges: set<Edge>, steps: seq<Step>, kind: EdgeKind)
    requires forall k :: k != CitesPaper ==> Acyclic(edges, k)
    requires kind != CitesPaper
    ensures var last := Database(edges, map[]).Run(steps);
            && Acyclic(last.committed, kind)
            && (forall t :: t in last.txs && kind in last.txs[t].locks ==> Acyclic(last.Sees(t), kind))
            && (forall t, u :: t in last.txs && u in last.txs && kind in last.txs[t].locks && kind in last.txs[u].locks ==> t == u)
  {
    hide Acyclic;
    FreshDatabaseInv(edges);
    RunKeepsInv(Database(edges, map[]), steps);
  }

  // -------------------------------------------------------- what one insert does

  /** `insert_edge` and its commit, with no other statement in between. */
  function InsertSteps(t: Tx, e: Edge): seq<Step> {
    [Ask(t, e), Lock(t), Check(t), Insert(t), Commit(t)]
  }

  /** A transaction that finds the lock free commits what it saw, and the edge with it
      exactly when that is no self-loop and is a citation or closes no cycle. */
  lemma {:induction false} InsertLandsIff(d: Database, t: Tx, e: Edge)
    requires t in d.txs && d.txs[t].phase.Ready?
    requires forall u :: u in d.txs && u != t ==> e.kind !in d.txs[u].locks
    ensures var lands := e.src != e.dst && (e.kind == CitesPaper || !Reach(d.Sees(t), e.kind, e.dst, e.src));
            d.Run(InsertSteps(t, e)) == Database(d.Sees(t) + if lands then {e} else {}, d.txs - {t})
  {
    hide Reach;
    RunFive(d, Ask(t, e), Lock(t), Check(t), Insert(t), Commit(t));
    assert !d.LockedByOther(t, e.kind);
    var before := d.txs[t];
    if e.src == e.dst {
      assert d.Sees(t) + {} == d.Sees(t);
    } else if e.kind == CitesPaper {
      Inserts(d, d.Put(t, before.(phase := Inserting(e))), t, e);
    } else {
      var locks := before.locks + {e.kind};
      var asked := d.Put(t, before.(phase := Locking(e)));
      var locked := d.Put(t, before.(phase := Checking(e), locks := locks));
      assert !asked.LockedByOther(t, e.kind);
      assert asked.Do(Lock(t)) == locked;
      assert locked.Sees(t) == d.Sees(t);
      if Reach(d.Sees(t), e.kind, e.dst, e.src) {
        var refused := d.Put(t, before.(phase := Ready, locks := locks));
        assert locked.Do(Check(t)) == refused;
        assert refused.Do(Insert(t)).Do(Commit(t)) == Database(d.Sees(t) + {}, d.txs - {t});
      } else {
        var checked := d.Put(t, before.(phase := Inserting(e), locks := locks));
        assert locked.Do(Check(t)) == checked;
        Inserts(d, checked, t, e);
      }
    }
  }

  lemma {:induction false} Inserts(d: Database, now: Database, t: Tx, e: Edge)
    requires t in d.txs && t in now.txs && now.txs[t].phase == Phase.Inserting(e) && now.committed == d.committed
    requires now.Sees(t) == d.Sees(t) && now.txs - {t} == d.txs - {t}
    ensures now.Do(Insert(t)).Do(Commit(t)) == Database(d.Sees(t) + {e}, d.txs - {t})
  {
    var after := now.Do(Insert(t));
    assert after.txs - {t} == now.txs - {t};
    assert after.Sees(t) == d.Sees(t) + {e};
  }

  lemma {:induction false} RunFive(d: Database, a: Step, b: Step, c: Step, e: Step, f: Step)
    ensures d.Run([a, b, c, e, f]) == d.Do(a).Do(b).Do(c).Do(e).Do(f)
  {
    hide Database.Do;
    RunOne(d, a, [b, c, e, f]);
    RunOne(d.Do(a), b, [c, e, f]);
    RunOne(d.Do(a).Do(b), c, [e, f]);
    RunOne(d.Do(a).Do(b).Do(c), e, [f]);
    RunOne(d.Do(a).Do(b).Do(c).Do(e), f, []);
    assert [a, b, c, e, f] == [a] + [b, c, e, f] && [b, c, e, f] == [b] + [c, e, f] && [c, e, f] == [c] + [e, f];
    assert [e, f] == [e] + [f] && [f] == [f] + [];
  }

  lemma {:induction false} RunOne(d: Database, step: Step, rest: seq<Step>)
    ensures d.Run([step] + rest) == d.Do(step).Run(rest)
  {
    assert ([step] + rest)[1..] == rest;
  }

  /** What a transaction changes is committed by its commit and by nothing else: not by its
      end without one, nor by any other's steps short of theirs. */
  lemma {:induction false} NothingWithoutCommit(d: Database, steps: seq<Step>)
    requires forall i :: 0 <= i < |steps| ==> !steps[i].Commit?
    ensures d.Run(steps).committed == d.committed
    decreases |steps|
  {
    if steps != [] {
      NothingWithoutCommit(d.Do(steps[0]), steps[1..]);
    }
  }

  // ------------------------------- committed edges with the holder's own

  /** The committed edges and a transaction's own uncommitted ones, those it deleted included. */
  function Union(d: Database, t: Tx): set<Edge>
    requires t in d.txs
  {
    d.committed + d.txs[t].added
  }

  /** They form a DAG exactly when no committed edge that the holder deleted would close a
      cycle among them. */
  lemma {:induction false} UnionIsAcyclicIff(d: Database, t: Tx, kind: EdgeKind)
    requires d.Inv() && t in d.txs && kind in d.txs[t].locks
    ensures Acyclic(Union(d, t), kind) <==>
            forall r :: r in d.committed && r in d.txs[t].removed && r !in d.txs[t].added && r.kind == kind ==>
                          r.src != r.dst && !Reach(Union(d, t), kind, r.dst, r.src)
  {
    var all := Union(d, t);
    if Acyclic(all, kind) {
      forall r | r in d.committed && r.kind == kind
        ensures r.src != r.dst && !Reach(all, kind, r.dst, r.src)
      {
        assert all + {r} == all;
        AddKeepsAcyclic(all, r);
      }
    } else {
      var p :| IsPath(all, kind, p) && |p| >= 2 && p[0] == p[|p| - 1];
      assert !IsPath(d.Sees(t), kind, p);
      var i :| 0 <= i < |p| - 1 && Edge(p[i], p[i + 1], kind) !in d.Sees(t);
      assert Edge(p[i], p[i + 1], kind) in all;
      CycleReaches(all, kind, p, i);
    }
  }

  /** An insert keeps them one exactly when the edge was there, or its target does not reach
      its source through any of them, deleted ones included. */
  lemma {:induction false} InsertKeepsUnionIff(d: Database, t: Tx)
    requires d.Inv() && t in d.txs && d.txs[t].phase.Inserting?
    requires Acyclic(Union(d, t), d.txs[t].phase.edge.kind)
    ensures var e := d.txs[t].phase.edge;
            Acyclic(Union(d.Do(Insert(t)), t), e.kind) <==> e in d.Sees(t) || !Reach(Union(d, t), e.kind, e.dst, e.src)
  {
    var e := d.txs[t].phase.edge;
    if e !in d.Sees(t) {
      assert Union(d.Do(Insert(t)), t) == Union(d, t) + {e};
      AddKeepsAcyclic(Union(d, t), e);
    } else {
      assert Union(d.Do(Insert(t)), t) == Union(d, t);
    }
  }

  /** No transaction inserts an edge of the kind once it has deleted one. `remove_edge` and
      `purge` delete in transactions of their own that insert none. */
  ghost predicate NoInsertAfterDelete(d: Database, steps: seq<Step>, kind: EdgeKind) {
    forall i :: 0 <= i < |steps| ==> InsertsFirst(d.Run(steps[..i]), steps[i], kind)
  }

  ghost predicate InsertsFirst(d: Database, step: Step, kind: EdgeKind) {
    step.Insert? && step.tx in d.txs && d.txs[step.tx].phase.Inserting? && d.txs[step.tx].phase.edge.kind == kind ==>
      forall e :: e in d.txs[step.tx].removed ==> e.kind != kind
  }

  ghost predicate UnionOk(d: Database, kind: EdgeKind) {
    forall t :: t in d.txs ==> Acyclic(Union(d, t), kind)
  }

  lemma {:induction false} StepKeepsUnion(d: Database, step: Step, kind: EdgeKind)
    requires d.Inv() && EnforcesAcyclicity(kind) && UnionOk(d, kind) && InsertsFirst(d, step, kind)
    ensures UnionOk(d.Do(step), kind)
  {
    hide Reach, Acyclic, Database.LockedByOther;
    var after := d.Do(step);
    forall t | t in after.txs
      ensures Acyclic(Union(after, t), kind)
    {
      if t !in d.txs {
        AcyclicSubset(Union(after, t), d.committed, kind);
      } else if step == Insert(t) && d.txs[t].phase.Inserting? && d.txs[t].phase.edge.kind == kind {
        AcyclicSubset(Union(after, t), d.Sees(t) + {d.txs[t].phase.edge}, kind);
      } else if step.Commit? && after != d && kind in d.txs[step.tx].locks {
        AcyclicSubset(Union(after, t), d.Sees(step.tx), kind);
      } else {
        AcyclicSubset(Union(after, t), Union(d, t), kind);
      }
    }
  }

  lemma {:induction false} RunKeepsUnion(d: Database, steps: seq<Step>, kind: EdgeKind)
    requires d.Inv() && EnforcesAcyclicity(kind) && UnionOk(d, kind) && NoInsertAfterDelete(d, steps, kind)
    ensures UnionOk(d.Run(steps), kind)
    decreases |steps|
  {
    hide Database.Inv, UnionOk, InsertsFirst, Database.Do;
    if steps != [] {
      assert d.Run(steps[..0]) == d;
      StepKeepsUnion(d, steps[0], kind);
      StepKeepsInv(d, steps[0]);
      var rest := steps[1..];
      forall i | 0 <= i < |rest|
        ensures InsertsFirst(d.Do(steps[0]).Run(rest[..i]), rest[i], kind)
      {
        assert steps[..i + 1][0] == steps[0] && steps[..i + 1][1..] == rest[..i] && steps[i + 1] == rest[i];
      }
      RunKeepsUnion(d.Do(steps[0]), rest, kind);
    }
  }

  /** After every such run from a database of DAGs, the committed edges of an enforced kind
      and any open transaction's own uncommitted ones form a DAG. */
  lemma {:induction false} UnionIsAcyclic(edges: set<Edge>, steps: seq<Step>, kind: EdgeKind, t: Tx)
    requires forall k :: k != CitesPaper ==> Acyclic(edges, k)
    requires kind != CitesPaper && NoInsertAfterDelete(Database(edges, map[]), steps, kind)
    requires t in Database(edges, map[]).Run(steps).txs
    ensures Acyclic(Union(Database(edges, map[]).Run(steps), t), kind)
  {
    hide Acyclic, NoInsertAfterDelete;
    FreshDatabaseInv(edges);
    RunKeepsUnion(Database(edges, map[]), steps, kind);
  }

  // ---------------------------------------------------- the edge store

  /** The edge table and its open transactions, changed one statement at a time. */
  class EdgeStore {
    var committed: set<Edge>
    var txs: map<Tx, Txn>

    ghost function State(): Database
      reads this
    {
      Database(committed, txs)
    }

    constructor ()
      ensures State() == Database({}, map[])
    {
      committed, txs := {}, map[];
    }

    method BeginTx(tx: Tx)
      modifies this
      ensures State() == old(State()).Do(Begin(tx))
    {
      if tx !in txs {
        txs := txs[tx := Fresh];
      }
    }

    /** The start of `insert_edge`; says whether the edge was refused outright. */
    method AskInsert(tx: Tx, e: Edge) returns (refused: bool)
      requires tx in txs && txs[tx].phase.Ready?
      modifies this
      ensures State() == old(State()).Do(Ask(tx, e))
      ensures refused == (e.src == e.dst)
    {
      refused := e.src == e.dst;
      if !refused {
        txs := txs[tx := txs[tx].(phase := if EnforcesAcyclicity(e.kind) then Locking(e) else Inserting(e))];
      }
    }

    method TryLock(tx: Tx) returns (granted: bool)
      requires tx in txs && txs[tx].phase.Locking?
      modifies this
      ensures State() == old(State()).Do(Lock(tx))
      ensures granted == !old(State()).LockedByOther(tx, old(txs[tx].phase.edge.kind))
    {
      var t := txs[tx];
      var kind := t.phase.edge.kind;
      granted := !exists u :: u in txs && u != tx && kind in txs[u].locks;
      if granted {
        txs := txs[tx := t.(phase := Checking(t.phase.edge), locks := t.locks + {kind})];
      }
    }

    /** The cycle query; says whether the edge would close a cycle. */
    method CheckCycle(tx: Tx) returns (cycle: bool)
      requires tx in txs && txs[tx].phase.Checking?
      modifies this
      ensures State() == old(State()).Do(Check(tx))
      ensures var e := old(txs[tx].phase.edge);
              cycle <==> Reach(old(State()).Sees(tx), e.kind, e.dst, e.src)
    {
      var t := txs[tx];
      var e := t.phase.edge;
      var below := Descendants(committed - t.removed + t.added, e.kind, e.dst);
      cycle := e.src in below;
      txs := txs[tx := t.(phase := if cycle then Ready else Inserting(e))];
    }

    method InsertRow(tx: Tx) returns (inserted: bool)
      requires tx in txs && txs[tx].phase.Inserting?
      modifies this
      ensures State() == old(State()).Do(Insert(tx))
      ensures inserted <==> old(txs[tx].phase.edge) !in old(State()).Sees(tx)
      ensures tx in txs && old(txs[tx].phase.edge) in State().Sees(tx)
    {
      var t := txs[tx];
      var e := t.phase.edge;
      inserted := e !in committed - t.removed + t.added;
      txs := txs[tx := t.(phase := Ready, added := if inserted then t.added + {e} else t.added)];
    }

    method DeleteRow(tx: Tx, e: Edge)
      requires tx in txs && txs[tx].phase.Ready?
      modifies this
      ensures State() == old(State()).Do(Delete(tx, e))
    {
      var t := txs[tx];
      if e in committed - t.removed + t.added {
        txs := txs[tx := t.(added := t.added - {e}, removed := t.removed + {e})];
      }
    }

    method CommitTx(tx: Tx)
      requires tx in txs && txs[tx].phase.Ready?
      modifies this
      ensures State() == old(State()).Do(Commit(tx))
    {
      committed := committed - txs[tx].removed + txs[tx].added;
      txs := txs - {tx};
    }

    method AbortTx(tx: Tx)
      modifies this
      ensures State() == old(State()).Do(Abort(tx))
    {
      txs := txs - {tx};
      assert tx !in old(txs) ==> txs == old(txs);
    }
  }

  // ------------------------------------------------- inferred provenance

  /** Which of the kinds between a pair labels the inference, strongest first. */
  const PRECEDENCE := [ProducedBy, Narrows, Requires, Supersedes]

  datatype Endpoints = Endpoints(producer: Node, produced: Node, winner: EdgeKind)

  datatype Inferred = Nothing | Stamp(endpoints: Endpoints)

  predicate Older(created: Node -> int, a: Node, b: Node) {
    created(a) < created(b) || (created(a) == created(b) && a < b)
  }

  function KindsBetween(edges: set<Edge>, a: Node, b: Node): set<EdgeKind> {
    set e | e in edges && ((e.src == a && e.dst == b) || (e.src == b && e.dst == a)) :: e.kind
  }

  function Winner(kinds: set<EdgeKind>, order: seq<EdgeKind>): (w: seq<EdgeKind>)
  {
    if order == [] then [] else if order[0] in kinds then [order[0]] else Winner(kinds, order[1..])
  }

  function InferProduced(edges: set<Edge>, created: Node -> int, a: Node, b: Node): Inferred {
    var winner := Winner(KindsBetween(edges, a, b), PRECEDENCE);
    if winner == [] || winner[0] == ProducedBy then Nothing
    else if Older(created, a, b) then Stamp(Endpoints(a, b, winner[0]))
    else Stamp(Endpoints(b, a, winner[0]))
  }

  lemma {:induction false} WinnerFound(kinds: set<EdgeKind>, order: seq<EdgeKind>)
    ensures Winner(kinds, order) == [] <==> forall k :: k in order ==> k !in kinds
    ensures Winner(kinds, order) != [] ==> Winner(kinds, order)[0] in order && Winner(kinds, order)[0] in kinds
  {
    if order != [] {
      WinnerFound(kinds, order[1..]);
      assert order == [order[0]] + order[1..];
    }
  }

  lemma {:induction false} WinnerIsStrongest(kinds: set<EdgeKind>)
    ensures Winner(kinds, PRECEDENCE) == if ProducedBy in kinds then [ProducedBy]
                                         else if Narrows in kinds then [Narrows]
                                         else if Requires in kinds then [Requires]
                                         else if Supersedes in kinds then [Supersedes] else []
  {
    assert PRECEDENCE[1..] == [Narrows, Requires, Supersedes] && PRECEDENCE[1..][1..] == [Requires, Supersedes];
    assert [Requires, Supersedes][1..] == [Supersedes] && [Supersedes][1..] == [];
    assert Winner(kinds, [Supersedes]) == if Supersedes in kinds then [Supersedes] else [];
    assert Winner(kinds, [Requires, Supersedes]) == if Requires in kinds then [Requires] else Winner(kinds, [Supersedes]);
  }

  /** The inference does not depend on which endpoint is named first, always makes the older
      one the producer, is labelled with the strongest kind between them, and is made exactly
      when a structural edge joins the pair and no `produced_by` does yet. */
  lemma {:induction false} InferProducedStable(edges: set<Edge>, created: Node -> int, a: Node, b: Node)
    requires a != b
    ensures InferProduced(edges, created, a, b) == InferProduced(edges, created, b, a)
    ensures var found := InferProduced(edges, created, a, b);
            && (found.Stamp? ==> var (p, q) := (found.endpoints.producer, found.endpoints.produced);
                                 (created(p) < created(q) || (created(p) == created(q) && p < q)) && {p, q} == {a, b})
            && (found.Stamp? ==> found.endpoints.winner == if Narrows in KindsBetween(edges, a, b) then Narrows
                                                           else if Requires in KindsBetween(edges, a, b) then Requires
                                                           else Supersedes)
            && (found.Stamp? <==> && ProducedBy !in KindsBetween(edges, a, b)
                                  && KindsBetween(edges, a, b) * {Narrows, Requires, Supersedes} != {})
  {
    assert KindsBetween(edges, a, b) == KindsBetween(edges, b, a);
    var kinds := KindsBetween(edges, a, b);
    WinnerFound(kinds, PRECEDENCE);
    WinnerIsStrongest(kinds);
    assert PRECEDENCE == [ProducedBy, Narrows, Requires, Supersedes];
    assert forall k :: k in PRECEDENCE <==> k in {ProducedBy, Narrows, Requires, Supersedes};
    if ProducedBy in kinds {
      assert Winner(kinds, PRECEDENCE) == [ProducedBy];
    }
    var winner := Winner(kinds, PRECEDENCE);
    assert winner != [] && winner[0] != ProducedBy ==> winner[0] in kinds * {Narrows, Requires, Supersedes};
    assert forall k :: k in kinds * {Narrows, Requires, Supersedes} ==> k in PRECEDENCE && k in kinds;
  }

  /** A citation from a younger node to an older one, and nothing else between the two:
      nothing is inferred. */
  lemma {:induction false} CitationInfersNothing(created: Node -> int)
    requires created(1) < created(2)
    ensures InferProduced({Edge(2, 1, Proves)}, created, 2, 1) == Nothing
  {
    InferProducedStable({Edge(2, 1, Proves)}, created, 2, 1);
    assert KindsBetween({Edge(2, 1, Proves)}, 2, 1) == {Proves};
  }

  /** Edges that all lead from a younger to an older node cannot form a cycle, so
      inferred provenance alone never makes one. */
  lemma {:induction false} YoungerToOlderIsAcyclic(edges: set<Edge>, created: Node -> int, kind: EdgeKind)
    requires forall e :: e in edges && e.kind == kind ==>
                           created(e.dst) < created(e.src) || (created(e.dst) == created(e.src) && e.dst < e.src)
    ensures Acyclic(edges, kind)
  {
    forall p | IsPath(edges, kind, p) && |p| >= 2
      ensures p[0] != p[|p| - 1]
    {
      OlderAlong(edges, created, kind, p, |p| - 1);
    }
  }

  lemma {:induction false} OlderAlong(edges: set<Edge>, created: Node -> int, kind: EdgeKind, p: seq<Node>, n: nat)
    requires forall e :: e in edges && e.kind == kind ==> Older(created, e.dst, e.src)
    requires IsPath(edges, kind, p) && 0 < n < |p|
    ensures Older(created, p[n], p[0])
  {
    assert Edge(p[n - 1], p[n], kind) in edges;
    if n > 1 {
      OlderAlong(edges, created, kind, p, n - 1);
    }
  }
}
