/** Replaying a live graph into another server, of `tools/replay_live_graph.py`: the crawl
    that inserts as it discovers, the replay in creation order, and the fair sample. */
module GraphReplay {

  type Id = nat

  datatype Edge = Edge(from: Id, to: Id, kind: string, valence: int)

  /** A node as the source shows it: when it was created, and every edge that touches it. */
  datatype Detail = Detail(created: int, edges: seq<Edge>)

  type Source = map<Id, Detail>

  // ------------------------------------------------------------------- the source

  /** The edges of a node touch it, and lead to nodes the source has. */
  ghost predicate Closed(source: Source) {
    forall id, e :: id in source && e in source[id].edges ==>
      (e.from == id || e.to == id) && e.from in source && e.to in source
  }

  /** Each edge is shown once at each of its two ends: as an edge at one, as a backlink at
      the other. The source's table has no edge twice and none from a node to itself. */
  ghost predicate Consistent(source: Source) {
    forall id, e :: id in source && e in source[id].edges && e.from in source && e.to in source ==>
      && e.from != e.to
      && multiset(source[e.from].edges)[e] == 1 && multiset(source[e.to].edges)[e] == 1
  }

  function Other(e: Edge, id: Id): Id {
    if e.from == id then e.to else e.from
  }

  /** The nodes next to one, in the order its edges are shown, of whatever kind. */
  function Peers(id: Id, edges: seq<Edge>): seq<Id> {
    if edges == [] then [] else Peers(id, edges[..|edges| - 1]) + [Other(edges[|edges| - 1], id)]
  }

  /** An edge that the source shows at the one joins it with the other, either way round. */
  ghost predicate NextTo(source: Source, a: Id, b: Id) {
    a in source && exists e :: e in source[a].edges && ((e.from == a && e.to == b) || (e.to == a && e.from == b))
  }

  lemma {:induction false} PeersAre(source: Source, id: Id, edges: seq<Edge>, b: Id)
    requires Closed(source) && id in source && forall e :: e in edges ==> e in source[id].edges
    ensures b in Peers(id, edges) <==> exists e :: e in edges && ((e.from == id && e.to == b) || (e.to == id && e.from == b))
    decreases |edges|
  {
    if edges != [] {
      var init, last := edges[..|edges| - 1], edges[|edges| - 1];
      PeersAre(source, id, init, b);
      assert edges == init + [last];
      assert last in source[id].edges;
    }
  }

  ghost predicate IsPath(source: Source, path: seq<Id>) {
    path != [] && forall i {:trigger path[i]} :: 0 <= i < |path| - 1 ==> NextTo(source, path[i], path[i + 1])
  }

  /** A path leads from one of the seeds to the node. */
  ghost predicate Reachable(source: Source, seeds: seq<Id>, id: Id) {
    exists path :: IsPath(source, path) && path[0] in seeds && path[|path| - 1] == id
  }

  lemma {:induction false} PeersIn(source: Source, id: Id, edges: seq<Edge>)
    requires Closed(source) && id in source && forall e :: e in edges ==> e in source[id].edges
    ensures forall p :: p in Peers(id, edges) ==> p in source
    decreases |edges|
  {
    if edges != [] {
      PeersIn(source, id, edges[..|edges| - 1]);
    }
  }

  lemma {:induction false} ReachNext(source: Source, seeds: seq<Id>, a: Id, b: Id)
    requires Reachable(source, seeds, a) && NextTo(source, a, b)
    ensures Reachable(source, seeds, b)
  {
    var path :| IsPath(source, path) && path[0] in seeds && path[|path| - 1] == a;
    var more := path + [b];
    assert IsPath(source, more) && more[0] in seeds && more[|more| - 1] == b;
  }

  lemma {:induction false} ReachSeed(source: Source, seeds: seq<Id>, a: Id)
    requires a in seeds
    ensures Reachable(source, seeds, a)
  {
    assert IsPath(source, [a]) && [a][0] in seeds;
  }

  /** What holds the seeds and what is next to any of its own holds all that is reachable. */
  lemma {:induction false} ClosedHasReachable(source: Source, seeds: seq<Id>, nodes: set<Id>, path: seq<Id>)
    requires forall id :: id in seeds ==> id in nodes
    requires forall a, b :: a in nodes && NextTo(source, a, b) ==> b in nodes
    requires IsPath(source, path) && path[0] in seeds
    ensures path[|path| - 1] in nodes
    decreases |path|
  {
    if |path| > 1 {
      var init := path[..|path| - 1];
      assert forall i {:trigger init[i]} :: 0 <= i < |init| - 1 ==> init[i] == path[i] && init[i + 1] == path[i + 1];
      ClosedHasReachable(source, seeds, nodes, init);
      var k := |path| - 2;
      assert NextTo(source, path[k], path[k + 1]);
    }
  }

  // -------------------------------------------------------------------- one chunk

  predicate Older(source: Source, a: Id, b: Id)
    requires a in source && b in source
  {
    source[a].created < source[b].created || (source[a].created == source[b].created && a <= b)
  }

  ghost predicate OldestFirst(source: Source, chunk: seq<Id>) {
    && (forall id :: id in chunk ==> id in source)
    && forall i, j :: 0 <= i < j < |chunk| ==>
         source[chunk[i]].created < source[chunk[j]].created
         || (source[chunk[i]].created == source[chunk[j]].created && chunk[i] <= chunk[j])
  }

  function Elements(ids: seq<Id>): set<Id> {
    set id | id in ids
  }

  ghost predicate Distinct(ids: seq<Id>) {
    forall i, j :: 0 <= i < j < |ids| ==> ids[i] != ids[j]
  }

  function PutAt(chunk: seq<Id>, id: Id, at: nat): (more: seq<Id>)
    requires at <= |chunk|
    ensures |more| == |chunk| + 1 && more[at] == id
    ensures forall i :: 0 <= i < |more| && i != at ==> more[i] == chunk[if i < at then i else i - 1]
  {
    chunk[..at] + [id] + chunk[at..]
  }

  method Insert(source: Source, chunk: seq<Id>, id: Id) returns (more: seq<Id>)
    requires OldestFirst(source, chunk) && id in source && id !in chunk && Distinct(chunk)
    ensures OldestFirst(source, more) && Distinct(more) && Elements(more) == Elements(chunk) + {id}
    ensures |more| == |chunk| + 1
  {
    hide PutAt, Distinct, Elements;
    var at := 0;
    while at < |chunk| && Older(source, chunk[at], id)
      invariant 0 <= at <= |chunk| && forall k :: 0 <= k < at ==> Older(source, chunk[k], id)
    {
      at := at + 1;
    }
    more := PutAt(chunk, id, at);
    PutOldest(source, chunk, id, at);
    PutDistinct(chunk, id, at);
  }

  lemma {:induction false} PutOldest(source: Source, chunk: seq<Id>, id: Id, at: nat)
    requires OldestFirst(source, chunk) && id in source && at <= |chunk|
    requires forall k :: 0 <= k < at ==> Older(source, chunk[k], id)
    requires at < |chunk| ==> !Older(source, chunk[at], id)
    ensures OldestFirst(source, PutAt(chunk, id, at))
  {
    hide PutAt;
    var more := PutAt(chunk, id, at);
    forall i | 0 <= i < |more|
      ensures more[i] in source
    {
      assert i != at ==> more[i] == chunk[if i < at then i else i - 1];
    }
    forall i, j | 0 <= i < j < |more|
      ensures Older(source, more[i], more[j])
    {
      if i == at {
        assert more[j] == chunk[j - 1] && chunk[at] in source;
        assert Older(source, chunk[at], chunk[j - 1]);
      } else if j == at {
        assert more[i] == chunk[i];
      }
    }
  }

  lemma {:induction false} PutDistinct(chunk: seq<Id>, id: Id, at: nat)
    requires Distinct(chunk) && id !in chunk && at <= |chunk|
    ensures Distinct(PutAt(chunk, id, at)) && Elements(PutAt(chunk, id, at)) == Elements(chunk) + {id}
  {
    assert chunk == chunk[..at] + chunk[at..];
  }

  /** `pending.sort(key=_detail_order_key)` */
  method Sort(source: Source, pending: seq<Id>) returns (chunk: seq<Id>)
    requires Distinct(pending) && forall id :: id in pending ==> id in source
    ensures OldestFirst(source, chunk) && Distinct(chunk) && Elements(chunk) == Elements(pending) && |chunk| == |pending|
  {
    chunk := [];
    for i := 0 to |pending|
      invariant OldestFirst(source, chunk) && Distinct(chunk) && Elements(chunk) == Elements(pending[..i]) && |chunk| == i
    {
      assert pending[i] !in Elements(pending[..i]);
      assert pending[..i + 1] == pending[..i] + [pending[i]];
      chunk := Insert(source, chunk, pending[i]);
    }
    assert pending[..|pending|] == pending;
  }

  ghost predicate Shown(source: Source, e: Edge) {
    exists id :: id in source && e in source[id].edges
  }

  /** The edge should have been tried: it is of a valid kind, between nodes that both landed. */
  ghost predicate Due(source: Source, valid: set<string>, landed: set<Id>, e: Edge) {
    e.kind in valid && e.from in landed && e.to in landed && Shown(source, e)
  }

  /** Both ends of the edge were offered in one chunk. */
  ghost predicate Together(chunks: seq<seq<Id>>, e: Edge) {
    exists c :: c in chunks && e.from in c && e.to in c
  }

  /** How often each edge was tried: one whose ends went in together from both of them, one
      whose ends did not from the later one, and one that was not due never. */
  ghost predicate Tried(source: Source, valid: set<string>, chunks: seq<seq<Id>>, landed: set<Id>, tried: seq<Edge>) {
    forall e :: multiset(tried)[e] == if !Due(source, valid, landed, e) then 0 else if Together(chunks, e) then 2 else 1
  }

  /** Whether the edge of a node can be tried once these are in. */
  predicate Ready(valid: set<string>, landed: set<Id>, e: Edge) {
    e.kind in valid && e.from in landed && e.to in landed
  }

  /** The edges of one node tried once its chunk is in: those whose other end is too. */
  method WriteEdges(edges: seq<Edge>, valid: set<string>, landed: set<Id>, before: seq<Edge>) returns (tried: seq<Edge>)
    ensures forall e :: multiset(tried)[e] ==
              multiset(before)[e] + if Ready(valid, landed, e) then multiset(edges)[e] else 0
  {
    tried := before;
    for i := 0 to |edges|
      invariant forall e :: multiset(tried)[e] ==
                  multiset(before)[e] + if Ready(valid, landed, e) then multiset(edges[..i])[e] else 0
    {
      if Ready(valid, landed, edges[i]) {
        tried := tried + [edges[i]];
      }
      assert edges[..i + 1] == edges[..i] + [edges[i]];
    }
    assert edges[..|edges|] == edges;
  }

  /** How often these nodes try the edge between them, once they have landed. */
  ghost function Written(source: Source, valid: set<string>, landed: set<Id>, nodes: set<Id>, e: Edge): nat {
    if !Due(source, valid, landed, e) then 0
    else (if e.from in nodes then 1 else 0) + (if e.to in nodes then 1 else 0)
  }

  /** `_insert_chunk`: whichever rows the target rejects, the others land; then the edges of
      those that did are tried. */
  method InsertChunk(source: Source, valid: set<string>, accepts: set<Id>, chunk: seq<Id>, ghost chunks: seq<seq<Id>>,
                     before: set<Id>, tried: seq<Edge>)
    returns (landed: set<Id>, more: seq<Edge>)
    requires Closed(source) && Consistent(source) && Distinct(chunk) && forall id :: id in chunk ==> id in source
    requires Elements(chunk) !! Flat(chunks) && before <= Flat(chunks) && before <= source.Keys
    requires Tried(source, valid, chunks, before, tried)
    ensures landed == before + (Elements(chunk) * accepts) && Tried(source, valid, chunks + [chunk], landed, more)
  {
    hide Tried, Closed, Consistent, Written, Flat, Due;
    landed := before;
    for i := 0 to |chunk|
      invariant landed == before + (Elements(chunk[..i]) * accepts)
    {
      if chunk[i] in accepts {
        landed := landed + {chunk[i]};
      }
      assert chunk[..i + 1] == chunk[..i] + [chunk[i]];
    }
    assert chunk[..|chunk|] == chunk;
    more := tried;
    NoneWritten(source, valid, landed);
    for i := 0 to |chunk|
      invariant forall e :: multiset(more)[e] ==
                  multiset(tried)[e] + Written(source, valid, landed, Elements(chunk[..i]), e)
    {
      assert chunk[..i + 1] == chunk[..i] + [chunk[i]];
      assert Elements(chunk[..i + 1]) == Elements(chunk[..i]) + {chunk[i]} && chunk[i] !in Elements(chunk[..i]);
      WrittenByOne(source, valid, landed, Elements(chunk[..i]), chunk[i]);
      if chunk[i] in landed {
        more := WriteEdges(source[chunk[i]].edges, valid, landed, more);
      }
    }
    ChunkTried(source, valid, chunk, chunks, before, landed, tried, more);
  }

  lemma {:induction false} NoneWritten(source: Source, valid: set<string>, landed: set<Id>)
    ensures forall e :: Written(source, valid, landed, Elements([]), e) == 0
  {
  }

  /** A node that landed tries each of its edges that is ready, once. */
  lemma {:induction false} WrittenByOne(source: Source, valid: set<string>, landed: set<Id>, nodes: set<Id>, id: Id)
    requires Closed(source) && Consistent(source) && id in source && id !in nodes
    ensures forall e :: Written(source, valid, landed, nodes + {id}, e) ==
              Written(source, valid, landed, nodes, e) +
              if id in landed && Ready(valid, landed, e) then multiset(source[id].edges)[e] else 0
  {
    forall e
      ensures Written(source, valid, landed, nodes + {id}, e) ==
              Written(source, valid, landed, nodes, e) +
              if id in landed && Ready(valid, landed, e) then multiset(source[id].edges)[e] else 0
    {
      if e in source[id].edges {
        assert (e.from == id || e.to == id) && e.from in source && e.to in source;
        assert multiset(source[id].edges)[e] == 1;
      } else if Shown(source, e) {
        var at :| at in source && e in source[at].edges;
        assert e.from != id && e.to != id;
      }
    }
  }

  lemma {:induction false} ChunkTried(source: Source, valid: set<string>, chunk: seq<Id>, chunks: seq<seq<Id>>, before: set<Id>,
                                      landed: set<Id>, tried: seq<Edge>, more: seq<Edge>)
    requires Tried(source, valid, chunks, before, tried) && before <= landed && landed <= before + Elements(chunk)
    requires Elements(chunk) !! Flat(chunks) && before <= Flat(chunks)
    requires forall e :: multiset(more)[e] == multiset(tried)[e] + Written(source, valid, landed, Elements(chunk), e)
    ensures Tried(source, valid, chunks + [chunk], landed, more)
  {
    hide Shown;
    forall e
      ensures multiset(more)[e] ==
              if !Due(source, valid, landed, e) then 0 else if Together(chunks + [chunk], e) then 2 else 1
    {
      TogetherSnoc(chunks, chunk, e);
      if Together(chunks, e) {
        var c :| c in chunks && e.from in c && e.to in c;
        assert e.from in Flat(chunks) && e.to in Flat(chunks);
      }
    }
  }

  lemma {:induction false} TogetherSnoc(chunks: seq<seq<Id>>, chunk: seq<Id>, e: Edge)
    ensures Together(chunks + [chunk], e) <==> Together(chunks, e) || (e.from in chunk && e.to in chunk)
  {
    assert forall c :: c in chunks + [chunk] <==> c in chunks || c == chunk;
  }

  // -------------------------------------------------------------------- the crawl

  function Flat(chunks: seq<seq<Id>>): set<Id> {
    set c, id | c in chunks && id in c :: id
  }

  /** The chunks share no node, and each is full but perhaps the last. */
  ghost predicate ChunksOk(source: Source, chunks: seq<seq<Id>>, size: nat) {
    && (forall i :: 0 <= i < |chunks| ==> OldestFirst(source, chunks[i]) && Distinct(chunks[i]))
    && (forall i, j :: 0 <= i < j < |chunks| ==> Elements(chunks[i]) !! Elements(chunks[j]))
    && (forall i :: 0 <= i < |chunks| - 1 ==> |chunks[i]| == size)
  }

  datatype Crawl = Crawl(chunks: seq<seq<Id>>, landed: set<Id>, tried: seq<Edge>)

  /** What the crawl has found: the nodes seen are those still to be visited, those waiting
      for a chunk and those in one; all are reachable, and all next to a visited one seen. */
  ghost predicate CrawlOk(source: Source, seeds: seq<Id>, seen: set<Id>, frontier: seq<Id>, pending: seq<Id>, flushed: set<Id>) {
    && Distinct(frontier) && Distinct(pending)
    && Elements(frontier) !! Elements(pending) && Elements(frontier) !! flushed && Elements(pending) !! flushed
    && seen == Elements(frontier) + Elements(pending) + flushed
    && seen <= source.Keys
    && (forall id :: id in seeds ==> id in seen)
    && (forall id :: id in seen ==> Reachable(source, seeds, id))
    && (forall a, b :: a in Elements(pending) + flushed && NextTo(source, a, b) ==> b in seen)
  }

  method Seed(source: Source, seeds: seq<Id>) returns (frontier: seq<Id>, seen: set<Id>)
    requires forall id :: id in seeds ==> id in source
    ensures CrawlOk(source, seeds, seen, frontier, [], {})
  {
    frontier, seen := [], {};
    for i := 0 to |seeds|
      invariant seen == Elements(frontier) && Distinct(frontier) && seen <= source.Keys
      invariant forall id :: id in seeds[..i] ==> id in seen
      invariant forall id :: id in seen ==> id in seeds
    {
      if seeds[i] !in seen {
        DistinctSnoc(frontier, seeds[i]);
        frontier, seen := frontier + [seeds[i]], seen + {seeds[i]};
      }
      assert seeds[..i + 1] == seeds[..i] + [seeds[i]];
    }
    assert seeds[..|seeds|] == seeds;
    forall id | id in seen
      ensures Reachable(source, seeds, id)
    {
      ReachSeed(source, seeds, id);
    }
  }

  lemma {:induction false} DistinctSnoc(ids: seq<Id>, id: Id)
    requires Distinct(ids) && id !in Elements(ids)
    ensures Distinct(ids + [id]) && Elements(ids + [id]) == Elements(ids) + {id}
  {
    assert forall i :: 0 <= i < |ids| ==> ids[i] in Elements(ids);
  }

  /** Takes the first node of the frontier, and adds what is next to it and new. */
  method Discover(source: Source, before: set<Id>, queue: seq<Id>) returns (frontier: seq<Id>, seen: set<Id>)
    requires queue != [] && queue[0] in source && Distinct(queue) && Elements(queue) <= before
    ensures Distinct(frontier) && seen == before + Elements(Peers(queue[0], source[queue[0]].edges))
    ensures Elements(frontier) == (Elements(queue) - {queue[0]}) + (seen - before)
    ensures seen == before ==> |frontier| < |queue|
  {
    var peers := Peers(queue[0], source[queue[0]].edges);
    assert queue == [queue[0]] + queue[1..];
    frontier, seen := queue[1..], before;
    assert Elements(frontier) == Elements(queue) - {queue[0]};
    for i := 0 to |peers|
      invariant Distinct(frontier) && seen == before + Elements(peers[..i])
      invariant Elements(frontier) == (Elements(queue) - {queue[0]}) + (seen - before)
      invariant seen == before ==> frontier == queue[1..]
    {
      assert peers[..i + 1] == peers[..i] + [peers[i]];
      if peers[i] !in seen {
        DistinctSnoc(frontier, peers[i]);
        frontier, seen := frontier + [peers[i]], seen + {peers[i]};
      }
    }
    assert peers[..|peers|] == peers;
  }

  lemma {:induction false} DiscoverKeeps(source: Source, seeds: seq<Id>, before: set<Id>, queue: seq<Id>, pending: seq<Id>,
                                         flushed: set<Id>, frontier: seq<Id>, seen: set<Id>)
    requires Closed(source) && CrawlOk(source, seeds, before, queue, pending, flushed) && queue != []
    requires Distinct(frontier) && queue[0] in source && seen == before + Elements(Peers(queue[0], source[queue[0]].edges))
    requires Elements(frontier) == (Elements(queue) - {queue[0]}) + (seen - before)
    ensures CrawlOk(source, seeds, seen, frontier, pending + [queue[0]], flushed)
  {
    hide Reachable, Peers;
    var current := queue[0];
    assert current in Elements(queue);
    DistinctSnoc(pending, current);
    PeersIn(source, current, source[current].edges);
    forall id | id in seen
      ensures Reachable(source, seeds, id)
    {
      if id !in before {
        PeersAre(source, current, source[current].edges, id);
        assert NextTo(source, current, id);
        ReachNext(source, seeds, current, id);
      }
    }
    forall a, b | a in Elements(pending + [current]) + flushed && NextTo(source, a, b)
      ensures b in seen
    {
      if a == current {
        PeersAre(source, current, source[current].edges, b);
        assert b in Elements(Peers(current, source[current].edges));
      }
    }
  }

  lemma {:induction false} FlushKeeps(source: Source, seeds: seq<Id>, seen: set<Id>, frontier: seq<Id>, pending: seq<Id>,
                                      flushed: set<Id>)
    requires CrawlOk(source, seeds, seen, frontier, pending, flushed)
    ensures CrawlOk(source, seeds, seen, frontier, [], flushed + Elements(pending))
  {
    hide Reachable, NextTo;
    assert Elements([]) == {};
    assert Elements([]) + (flushed + Elements(pending)) == Elements(pending) + flushed;
  }

  lemma {:induction false} FlatSnoc(chunks: seq<seq<Id>>, chunk: seq<Id>)
    ensures Flat(chunks + [chunk]) == Flat(chunks) + Elements(chunk)
  {
    var all := chunks + [chunk];
    assert forall c :: c in all <==> c in chunks || c == chunk;
  }

  lemma {:induction false} ChunksSnoc(source: Source, chunks: seq<seq<Id>>, chunk: seq<Id>, size: nat)
    requires ChunksOk(source, chunks, size) && forall i :: 0 <= i < |chunks| ==> |chunks[i]| == size
    requires OldestFirst(source, chunk) && Distinct(chunk) && Elements(chunk) !! Flat(chunks)
    ensures ChunksOk(source, chunks + [chunk], size)
  {
    hide OldestFirst, Distinct;
    forall i | 0 <= i < |chunks|
      ensures Elements(chunks[i]) !! Elements(chunk)
    {
      assert chunks[i] in chunks;
      assert Elements(chunks[i]) <= Flat(chunks);
    }
  }

  /** `_flush`: the waiting nodes go in as one chunk, the oldest first. */
  method Flush(source: Source, valid: set<string>, accepts: set<Id>, size: nat, crawl: Crawl, pending: seq<Id>) returns (next: Crawl)
    requires Closed(source) && Consistent(source)
    requires Distinct(pending) && (forall id :: id in pending ==> id in source) && Elements(pending) !! Flat(crawl.chunks)
    requires ChunksOk(source, crawl.chunks, size) && forall i :: 0 <= i < |crawl.chunks| ==> |crawl.chunks[i]| == size
    requires crawl.landed == Flat(crawl.chunks) * accepts && crawl.landed <= source.Keys
    requires Tried(source, valid, crawl.chunks, crawl.landed, crawl.tried)
    ensures ChunksOk(source, next.chunks, size) && Flat(next.chunks) == Flat(crawl.chunks) + Elements(pending)
    ensures |pending| == size ==> forall i :: 0 <= i < |next.chunks| ==> |next.chunks[i]| == size
    ensures next.landed == Flat(next.chunks) * accepts && Tried(source, valid, next.chunks, next.landed, next.tried)
  {
    hide ChunksOk, Tried, OldestFirst, Closed, Consistent, Flat;
    var chunk := Sort(source, pending);
    assert forall id :: id in chunk ==> id in Elements(chunk);
    FlatSnoc(crawl.chunks, chunk);
    ChunksSnoc(source, crawl.chunks, chunk, size);
    var landed, tried := InsertChunk(source, valid, accepts, chunk, crawl.chunks, crawl.landed, crawl.tried);
    next := Crawl(crawl.chunks + [chunk], landed, tried);
  }

  lemma {:induction false} AllReached(source: Source, seeds: seq<Id>, seen: set<Id>, flushed: set<Id>)
    requires CrawlOk(source, seeds, seen, [], [], flushed)
    ensures forall id :: id in flushed <==> Reachable(source, seeds, id)
  {
    assert Elements([]) == {} && seen == flushed;
    forall id | Reachable(source, seeds, id)
      ensures id in flushed
    {
      var path :| IsPath(source, path) && path[0] in seeds && path[|path| - 1] == id;
      ClosedHasReachable(source, seeds, flushed, path);
    }
  }

  /** `_crawl_and_insert`: terminates on any finite source, offers each node reachable from
      the seeds once and no other, and tries every valid edge whose two ends landed, twice
      when they were offered in one chunk and else once. */
  method CrawlAndInsert(source: Source, seeds: seq<Id>, valid: set<string>, accepts: set<Id>, size: nat) returns (crawl: Crawl)
    requires Closed(source) && Consistent(source) && size > 0
    requires forall id :: id in seeds ==> id in source
    ensures ChunksOk(source, crawl.chunks, size)
    ensures forall id :: id in Flat(crawl.chunks) <==> Reachable(source, seeds, id)
    ensures crawl.landed == Flat(crawl.chunks) * accepts
    ensures Tried(source, valid, crawl.chunks, crawl.landed, crawl.tried)
  {
    hide Closed, Consistent, CrawlOk, ChunksOk, Tried, Reachable;
    var frontier, seen := Seed(source, seeds);
    crawl := Crawl([], {}, []);
    var pending: seq<Id> := [];
    NothingTried(source, valid, size);
    while frontier != []
      invariant CrawlOk(source, seeds, seen, frontier, pending, Flat(crawl.chunks)) && |pending| < size
      invariant ChunksOk(source, crawl.chunks, size) && forall i :: 0 <= i < |crawl.chunks| ==> |crawl.chunks[i]| == size
      invariant crawl.landed == Flat(crawl.chunks) * accepts && Tried(source, valid, crawl.chunks, crawl.landed, crawl.tried)
      decreases source.Keys - seen, |frontier|
    {
      CrawlFacts(source, seeds, seen, frontier, pending, Flat(crawl.chunks));
      ghost var before, queue := seen, frontier;
      var current := frontier[0];
      frontier, seen := Discover(source, seen, frontier);
      DiscoverKeeps(source, seeds, before, queue, pending, Flat(crawl.chunks), frontier, seen);
      pending := pending + [current];
      CrawlFacts(source, seeds, seen, frontier, pending, Flat(crawl.chunks));
      if |pending| >= size {
        FlushKeeps(source, seeds, seen, frontier, pending, Flat(crawl.chunks));
        crawl := Flush(source, valid, accepts, size, crawl, pending);
        pending := [];
      }
    }
    CrawlFacts(source, seeds, seen, frontier, pending, Flat(crawl.chunks));
    FlushKeeps(source, seeds, seen, frontier, pending, Flat(crawl.chunks));
    if pending != [] {
      crawl := Flush(source, valid, accepts, size, crawl, pending);
    } else {
      assert Flat(crawl.chunks) + Elements(pending) == Flat(crawl.chunks);
    }
    AllReached(source, seeds, seen, Flat(crawl.chunks));
  }

  lemma {:induction false} CrawlFacts(source: Source, seeds: seq<Id>, seen: set<Id>, frontier: seq<Id>, pending: seq<Id>, flushed: set<Id>)
    requires CrawlOk(source, seeds, seen, frontier, pending, flushed)
    ensures Distinct(frontier) && Elements(frontier) <= seen <= source.Keys && flushed <= source.Keys
    ensures Distinct(pending) && Elements(pending) !! flushed
    ensures forall id :: id in pending ==> id in source
    ensures frontier != [] ==> frontier[0] in source
  {
    assert forall id :: id in pending ==> id in Elements(pending);
    assert frontier != [] ==> frontier[0] in Elements(frontier);
  }

  lemma {:induction false} NothingTried(source: Source, valid: set<string>, size: nat)
    ensures Tried(source, valid, [], {}, []) && Flat([]) == {} && ChunksOk(source, [], size)
  {
  }

  // ------------------------------------------------------------ in creation order

  /** How often one edge is listed under a node: once for each end it has there. */
  function Ends(e: Edge, id: Id): nat {
    (if e.from == id then 1 else 0) + (if e.to == id then 1 else 0)
  }

  type Index = map<Id, seq<Edge>>

  ghost predicate Indexed(index: Index, nodes: set<Id>, edges: seq<Edge>) {
    && index.Keys == nodes
    && forall id, e :: id in nodes ==> multiset(index[id])[e] == multiset(edges)[e] * Ends(e, id)
  }

  /** Lists each edge under both its ends, and so a loop twice under one node. */
  method MakeIndex(nodes: set<Id>, edges: seq<Edge>) returns (index: Index)
    requires forall e :: e in edges ==> e.from in nodes && e.to in nodes
    ensures Indexed(index, nodes, edges)
  {
    index := map id | id in nodes :: [];
    for i := 0 to |edges|
      invariant Indexed(index, nodes, edges[..i])
    {
      var edge := edges[i];
      ghost var was := index;
      index := index[edge.from := index[edge.from] + [edge]];
      index := index[edge.to := index[edge.to] + [edge]];
      assert edges[..i + 1] == edges[..i] + [edge];
      IndexStep(was, index, nodes, edges[..i], edge);
    }
    assert edges[..|edges|] == edges;
  }

  lemma {:induction false} IndexStep(was: Index, index: Index, nodes: set<Id>, edges: seq<Edge>, edge: Edge)
    requires Indexed(was, nodes, edges) && edge.from in nodes && edge.to in nodes
    requires var mid := was[edge.from := was[edge.from] + [edge]]; index == mid[edge.to := mid[edge.to] + [edge]]
    ensures Indexed(index, nodes, edges + [edge])
  {
    forall id, e | id in nodes
      ensures multiset(index[id])[e] == multiset(edges + [edge])[e] * Ends(e, id)
    {
      var more := if e == edge then Ends(e, id) else 0;
      assert multiset(index[id])[e] == multiset(was[id])[e] + more;
      assert multiset(was[id])[e] == multiset(edges)[e] * Ends(e, id);
      OneMore(multiset(edges)[e], multiset(edges + [edge])[e], Ends(e, id), e == edge);
    }
  }

  lemma {:induction false} OneMore(n: nat, m: nat, ends: nat, more: bool)
    requires m == n + if more then 1 else 0
    ensures m * ends == n * ends + if more then ends else 0
  {
  }

  /** How often an edge is tried in all. */
  function Times(e: Edge): nat {
    if e.from == e.to then 2 else 1
  }

  /** What has been tried of an edge once these nodes are in. */
  ghost predicate Fired(edges: seq<Edge>, present: set<Id>, tried: seq<Edge>) {
    forall e :: multiset(tried)[e] == if e.from in present && e.to in present then multiset(edges)[e] * Times(e) else 0
  }

  method TryPresent(listed: seq<Edge>, present: set<Id>, before: seq<Edge>) returns (tried: seq<Edge>)
    ensures forall e :: multiset(tried)[e] ==
              multiset(before)[e] + if e.from in present && e.to in present then multiset(listed)[e] else 0
  {
    tried := before;
    for i := 0 to |listed|
      invariant forall e :: multiset(tried)[e] ==
                  multiset(before)[e] + if e.from in present && e.to in present then multiset(listed[..i])[e] else 0
    {
      assert listed[..i + 1] == listed[..i] + [listed[i]];
      if listed[i].from in present && listed[i].to in present {
        tried := tried + [listed[i]];
      }
    }
    assert listed[..|listed|] == listed;
  }

  /** `_replay_traversal`: each edge is tried as the later of its ends goes in; with no edge
      from a node to itself the edges tried are just those listed, each as often. */
  method ReplayTraversal(order: seq<Id>, edges: seq<Edge>) returns (tried: seq<Edge>)
    requires Distinct(order) && forall e :: e in edges ==> e.from in order && e.to in order
    ensures forall e :: multiset(tried)[e] == multiset(edges)[e] * Times(e)
    ensures (forall e :: e in edges ==> e.from != e.to) ==> multiset(tried) == multiset(edges)
  {
    var index := MakeIndex(Elements(order), edges);
    tried := [];
    for i := 0 to |order|
      invariant Fired(edges, Elements(order[..i]), tried)
    {
      assert order[i] in Elements(order);
      ghost var before := tried;
      tried := TryPresent(index[order[i]], Elements(order[..i + 1]), tried);
      assert order[..i + 1] == order[..i] + [order[i]];
      assert order[i] !in Elements(order[..i]);
      FireStep(index, edges, Elements(order), Elements(order[..i]), order[i], before, tried);
      assert Elements(order[..i + 1]) == Elements(order[..i]) + {order[i]};
    }
    assert order[..|order|] == order;
    assert forall e :: e !in edges ==> multiset(edges)[e] == 0;
  }

  lemma {:induction false} FireStep(index: Index, edges: seq<Edge>, nodes: set<Id>, present: set<Id>, id: Id,
                                    before: seq<Edge>, tried: seq<Edge>)
    requires Indexed(index, nodes, edges) && Fired(edges, present, before) && id in nodes && id !in present
    requires forall e :: multiset(tried)[e] ==
               multiset(before)[e] + if e.from in present + {id} && e.to in present + {id} then multiset(index[id])[e] else 0
    ensures Fired(edges, present + {id}, tried)
  {
    forall e
      ensures multiset(tried)[e] ==
              if e.from in present + {id} && e.to in present + {id} then multiset(edges)[e] * Times(e) else 0
    {
      assert multiset(index[id])[e] == multiset(edges)[e] * Ends(e, id);
      FireOne(multiset(edges)[e], multiset(before)[e], present, id, e);
    }
  }

  lemma {:induction false} FireOne(n: nat, before: nat, present: set<Id>, id: Id, e: Edge)
    requires id !in present && before == if e.from in present && e.to in present then n * Times(e) else 0
    ensures before + (if e.from in present + {id} && e.to in present + {id} then n * Ends(e, id) else 0)
            == if e.from in present + {id} && e.to in present + {id} then n * Times(e) else 0
  {
    if e.from in present && e.to in present {
      assert Ends(e, id) == 0 && n * 0 == 0;
    } else if e.from in present + {id} && e.to in present + {id} {
      assert Ends(e, id) == Times(e);
    }
  }

  // ----------------------------------------------------------------- a fair sample

  /** One node and the kind it came from. */
  datatype Node = Node(kind: nat, id: Id)

  /** The nodes of one kind, in the order they were taken. */
  function OfKind(out: seq<Node>, kind: nat): seq<Id> {
    if out == [] then []
    else OfKind(out[..|out| - 1], kind) + if out[|out| - 1].kind == kind then [out[|out| - 1].id] else []
  }

  /** Each kind gave its first nodes, in order. */
  ghost predicate Taken(kinds: seq<seq<Id>>, cursors: seq<nat>, out: seq<Node>) {
    && |cursors| == |kinds|
    && (forall k :: 0 <= k < |kinds| ==> cursors[k] <= |kinds[k]| && OfKind(out, k) == kinds[k][..cursors[k]])
  }

  /** No kind is more than one ahead of another that has nodes left. */
  ghost predicate Fair(kinds: seq<seq<Id>>, cursors: seq<nat>)
    requires |cursors| == |kinds|
  {
    forall j, k :: 0 <= j < |kinds| && 0 <= k < |kinds| && cursors[j] < |kinds[j]| ==> cursors[k] <= cursors[j] + 1
  }

  /** Within a round: the kinds before `at` have had their turn. */
  ghost predicate Round(kinds: seq<seq<Id>>, cursors: seq<nat>, at: nat, round: nat)
    requires |cursors| == |kinds|
  {
    forall k :: 0 <= k < |kinds| ==>
      if k < at then cursors[k] <= round + 1 && (cursors[k] < |kinds[k]| ==> cursors[k] == round + 1)
      else cursors[k] <= round && (cursors[k] < |kinds[k]| ==> cursors[k] == round)
  }

  /** All the nodes of the first `n` kinds, kind by kind. */
  function KindByKind(kinds: seq<seq<Id>>, n: nat): seq<Node>
    requires n <= |kinds|
  {
    if n == 0 then [] else KindByKind(kinds, n - 1) + NodesOf(kinds, n - 1, |kinds[n - 1]|)
  }

  function NodesOf(kinds: seq<seq<Id>>, k: nat, n: nat): seq<Node>
    requires k < |kinds| && n <= |kinds[k]|
  {
    seq(n, i requires 0 <= i < n => Node(k, kinds[k][i]))
  }

  /** `_pull_nodes`: no limit is every node, kind by kind; under one the kinds take turns. */
  method PullNodes(kinds: seq<seq<Id>>, limit: int) returns (out: seq<Node>, cursors: seq<nat>)
    ensures Taken(kinds, cursors, out)
    ensures limit == 0 ==> out == KindByKind(kinds, |kinds|)
    ensures limit < 0 ==> out == []
    ensures limit > 0 ==> |out| <= limit && Fair(kinds, cursors)
    ensures limit >= 0 && |out| != limit ==> forall k :: 0 <= k < |kinds| ==> cursors[k] == |kinds[k]|
  {
    if limit == 0 {
      out, cursors := TakeAll(kinds);
    } else {
      out, cursors := TakeTurns(kinds, if limit < 0 then 0 else limit);
    }
  }

  method TakeAll(kinds: seq<seq<Id>>) returns (out: seq<Node>, cursors: seq<nat>)
    ensures Taken(kinds, cursors, out) && out == KindByKind(kinds, |kinds|)
    ensures forall k :: 0 <= k < |kinds| ==> cursors[k] == |kinds[k]|
  {
    hide Taken;
    out, cursors := [], seq(|kinds|, _ => 0);
    NoneTaken(kinds, cursors);
    for k := 0 to |kinds|
      invariant |cursors| == |kinds| && Taken(kinds, cursors, out) && out == KindByKind(kinds, k)
      invariant forall j :: 0 <= j < |kinds| ==> cursors[j] == if j < k then |kinds[j]| else 0
    {
      for i := 0 to |kinds[k]|
        invariant |cursors| == |kinds| && Taken(kinds, cursors, out) && out == KindByKind(kinds, k) + NodesOf(kinds, k, i)
        invariant forall j :: 0 <= j < |kinds| ==> cursors[j] == if j < k then |kinds[j]| else if j == k then i else 0
      {
        TakeOne(kinds, cursors, out, k);
        assert NodesOf(kinds, k, i + 1) == NodesOf(kinds, k, i) + [Node(k, kinds[k][i])];
        out := out + [Node(k, kinds[k][i])];
        cursors := cursors[k := i + 1];
      }
    }
  }

  /** Each round takes one node from every kind that has some left. */
  method TakeTurns(kinds: seq<seq<Id>>, limit: nat) returns (out: seq<Node>, cursors: seq<nat>)
    ensures |out| <= limit && Taken(kinds, cursors, out) && Fair(kinds, cursors)
    ensures |out| == limit || forall k :: 0 <= k < |kinds| ==> cursors[k] == |kinds[k]|
  {
    hide Taken;
    out, cursors := [], seq(|kinds|, _ => 0);
    NoneTaken(kinds, cursors);
    ghost var round, mid := 0, 0;
    var more := Unfinished(kinds, cursors);
    while |out| < limit && more
      invariant |out| <= limit && |cursors| == |kinds| && Taken(kinds, cursors, out)
      invariant mid <= |kinds| && Round(kinds, cursors, mid, round) && (|out| < limit ==> mid == 0)
      invariant more <==> exists k :: 0 <= k < |kinds| && cursors[k] < |kinds[k]|
      decreases limit - |out|
    {
      ghost var had := |out|;
      var k := 0;
      while k < |kinds| && |out| < limit
        invariant 0 <= k <= |kinds| && had <= |out| <= limit && |cursors| == |kinds| && Taken(kinds, cursors, out)
        invariant Round(kinds, cursors, k, round)
        invariant |out| == had ==> exists j :: k <= j < |kinds| && cursors[j] < |kinds[j]|
      {
        if cursors[k] < |kinds[k]| {
          TakeOne(kinds, cursors, out, k);
          out := out + [Node(k, kinds[k][cursors[k]])];
          cursors := cursors[k := cursors[k] + 1];
        }
        k := k + 1;
      }
      if |out| < limit {
        round, mid := round + 1, 0;
      } else {
        mid := k;
      }
      more := Unfinished(kinds, cursors);
    }
    TakenBound(kinds, cursors, out);
  }

  lemma {:induction false} NoneTaken(kinds: seq<seq<Id>>, cursors: seq<nat>)
    requires |cursors| == |kinds| && forall k :: 0 <= k < |kinds| ==> cursors[k] == 0
    ensures Taken(kinds, cursors, [])
  {
  }

  lemma {:induction false} TakenBound(kinds: seq<seq<Id>>, cursors: seq<nat>, out: seq<Node>)
    requires Taken(kinds, cursors, out)
    ensures forall k :: 0 <= k < |kinds| ==> cursors[k] <= |kinds[k]|
  {
  }

  method Unfinished(kinds: seq<seq<Id>>, cursors: seq<nat>) returns (more: bool)
    requires |cursors| == |kinds|
    ensures more <==> exists k :: 0 <= k < |kinds| && cursors[k] < |kinds[k]|
  {
    more := false;
    for k := 0 to |kinds|
      invariant more <==> exists j :: 0 <= j < k && cursors[j] < |kinds[j]|
    {
      if cursors[k] < |kinds[k]| {
        more := true;
      }
    }
  }

  lemma {:induction false} TakeOne(kinds: seq<seq<Id>>, cursors: seq<nat>, out: seq<Node>, k: nat)
    requires Taken(kinds, cursors, out) && k < |kinds| && cursors[k] < |kinds[k]|
    ensures Taken(kinds, cursors[k := cursors[k] + 1], out + [Node(k, kinds[k][cursors[k]])])
  {
    var node := Node(k, kinds[k][cursors[k]]);
    assert (out + [node])[..|out|] == out;
    assert kinds[k][..cursors[k] + 1] == kinds[k][..cursors[k]] + [node.id];
  }
}
