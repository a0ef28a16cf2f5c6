/** Merging the found spans into blocks: the second half of `Redactor.redact` in
    `runs/redact.py`. The spans come sorted by start, the longer first. */
module RedactMerge {
  import opened RedactSearch

  /** A stretch of the output: the text from `lo` to `hi` as it is, or the placeholders of
      the block that covers it. */
  datatype Piece = Plain(lo: nat, hi: nat) | Block(lo: nat, hi: nat, names: seq<string>)

  type Names = map<Span, seq<string>>

  predicate Before(a: Span, b: Span) {
    a.start < b.start || (a.start == b.start && a.end > b.end)
  }

  ghost predicate SortedSpans(order: seq<Span>) {
    forall i, j :: 0 <= i < j < |order| ==> Before(order[i], order[j])
  }

  function Added(names: seq<string>, more: seq<string>): seq<string>
    decreases |more|
  {
    if more == [] then names
    else Added(if more[0] in names then names else names + [more[0]], more[1..])
  }

  /** The loop's variables, with the start of the block being built. */
  datatype Acc = Acc(pieces: seq<Piece>, lo: nat, reach: nat, names: seq<string>) {

    /** The pieces once the block being built is closed. */
    function Closed(): seq<Piece> {
      if names == [] then pieces else pieces + [Block(lo, reach, names)]
    }

    function Take(s: Span, more: seq<string>): Acc {
      if s.end <= reach then this
      else if s.start >= reach then Acc(Closed() + [Plain(reach, s.start)], s.start, s.end, Added([], more))
      else Acc(pieces, lo, s.end, Added(names, more))
    }
  }

  const EMPTY := Acc([], 0, 0, [])

  function Fold(order: seq<Span>, found: Names): Acc
    requires forall s :: s in order ==> s in found
  {
    if order == [] then EMPTY
    else Fold(order[..|order| - 1], found).Take(order[|order| - 1], found[order[|order| - 1]])
  }

  function Merge(order: seq<Span>, found: Names, n: nat): seq<Piece>
    requires forall s :: s in order ==> s in found
  {
    var acc := Fold(order, found);
    acc.Closed() + [Plain(acc.reach, n)]
  }

  // ------------------------------------------------------- overlap chains

  predicate Overlaps(a: Span, b: Span) {
    a.start < b.end && b.start < a.end
  }

  ghost predicate IsChain(spans: set<Span>, path: seq<Span>) {
    && path != []
    && (forall i :: 0 <= i < |path| ==> path[i] in spans)
    && (forall i {:trigger path[i]} :: 0 <= i < |path| - 1 ==> Overlaps(path[i], path[i + 1]))
  }

  ghost predicate Chain(spans: set<Span>, path: seq<Span>, a: Span, b: Span) {
    IsChain(spans, path) && path[0] == a && path[|path| - 1] == b
  }

  /** The spans `a` and `b` are in one connected component of the overlapping spans. */
  ghost predicate Linked(spans: set<Span>, a: Span, b: Span) {
    exists path :: Chain(spans, path, a, b)
  }

  lemma {:induction false} LinkedSelf(spans: set<Span>, a: Span)
    requires a in spans
    ensures Linked(spans, a, a)
  {
    assert Chain(spans, [a], a, a);
  }

  lemma {:induction false} LinkedStep(spans: set<Span>, a: Span, b: Span, c: Span)
    requires Linked(spans, a, b) && c in spans && Overlaps(b, c)
    ensures Linked(spans, a, c)
  {
    var path :| Chain(spans, path, a, b);
    assert Chain(spans, path + [c], a, c);
  }

  lemma {:induction false} LinkedMore(spans: set<Span>, more: set<Span>, a: Span, b: Span)
    requires Linked(spans, a, b) && spans <= more
    ensures Linked(more, a, b)
  {
    var path :| Chain(spans, path, a, b);
    assert Chain(more, path, a, b);
  }

  lemma {:induction false} LinkedBack(spans: set<Span>, path: seq<Span>, a: Span, b: Span, c: Span)
    requires Chain(spans, path, c, b) && Linked(spans, a, b)
    ensures Linked(spans, a, c)
    decreases |path|
  {
    if |path| > 1 {
      var last := path[|path| - 2];
      assert Overlaps(last, path[|path| - 2 + 1]);
      LinkedStep(spans, a, b, last);
      assert Chain(spans, path[..|path| - 1], c, last);
      LinkedBack(spans, path[..|path| - 1], a, last, c);
    }
  }

  lemma {:induction false} LinkedBoth(spans: set<Span>, a: Span, b: Span, top: Span)
    requires Linked(spans, a, top) && Linked(spans, b, top)
    ensures Linked(spans, a, b)
  {
    var path :| Chain(spans, path, b, top);
    LinkedBack(spans, path, a, top, b);
  }

  // ------------------------------------------------------------- the blocks

  predicate Covers(s: Span, p: nat) {
    s.start <= p < s.end
  }

  ghost predicate Covered(spans: set<Span>, p: nat) {
    exists s :: s in spans && Covers(s, p)
  }

  predicate Inside(s: Span, lo: nat, hi: nat) {
    lo <= s.start && s.end <= hi
  }

  predicate Apart(s: Span, lo: nat, hi: nat) {
    s.end <= lo || hi <= s.start
  }

  /** The spans whose names a block gives: those in no longer span. */
  ghost predicate Maximal(spans: set<Span>, s: Span) {
    s in spans && forall t :: t in spans && t != s ==> !(t.start <= s.start && s.end <= t.end)
  }

  ghost predicate Named(spans: set<Span>, found: Names, lo: nat, hi: nat, name: string) {
    exists s :: Maximal(spans, s) && Inside(s, lo, hi) && s in found && name in found[s]
  }

  /** A block's extent: it is wholly covered and every span is inside it or apart from it. */
  ghost predicate ExtentOk(spans: set<Span>, lo: nat, hi: nat) {
    && lo < hi
    && (forall s :: s in spans ==> Inside(s, lo, hi) || Apart(s, lo, hi))
    && (forall p: nat :: lo <= p < hi ==> Covered(spans, p))
  }

  /** A block is one connected component and names just the secrets of its maximal spans. */
  ghost predicate BlockOk(spans: set<Span>, found: Names, lo: nat, hi: nat, names: seq<string>) {
    && ExtentOk(spans, lo, hi)
    && (forall a, b :: a in spans && b in spans && Inside(a, lo, hi) && Inside(b, lo, hi) ==> Linked(spans, a, b))
    && names != []
    && (forall name :: name in names <==> Named(spans, found, lo, hi, name))
  }

  ghost predicate PieceOk(spans: set<Span>, found: Names, piece: Piece) {
    match piece
    case Plain(lo, hi) => lo <= hi && forall s :: s in spans ==> Apart(s, lo, hi)
    case Block(lo, hi, names) => BlockOk(spans, found, lo, hi, names)
  }

  ghost predicate PiecesOk(spans: set<Span>, found: Names, pieces: seq<Piece>) {
    forall i :: 0 <= i < |pieces| ==> PieceOk(spans, found, pieces[i])
  }

  /** The pieces follow one another from `from` to `to` without gap or overlap. */
  ghost predicate Tiles(pieces: seq<Piece>, from: nat, to: nat) {
    if pieces == [] then from == to
    else pieces[|pieces| - 1].hi == to && Tiles(pieces[..|pieces| - 1], from, pieces[|pieces| - 1].lo)
  }

  lemma {:induction false} TilesSnoc(pieces: seq<Piece>, from: nat, piece: Piece)
    requires Tiles(pieces, from, piece.lo)
    ensures Tiles(pieces + [piece], from, piece.hi)
  {
    assert (pieces + [piece])[..|pieces|] == pieces;
  }

  lemma {:induction false} PiecesSnoc(spans: set<Span>, found: Names, pieces: seq<Piece>, from: nat, piece: Piece)
    requires Tiles(pieces, from, piece.lo) && PiecesOk(spans, found, pieces) && PieceOk(spans, found, piece)
    ensures Tiles(pieces + [piece], from, piece.hi) && PiecesOk(spans, found, pieces + [piece])
  {
    hide PieceOk;
    TilesSnoc(pieces, from, piece);
  }

  /** Closing the block being built and adding the text up to `hi` keeps the pieces right. */
  lemma {:induction false} ClosedTiles(spans: set<Span>, found: Names, acc: Acc, hi: nat)
    requires Tiles(acc.pieces, 0, acc.lo) && PiecesOk(spans, found, acc.pieces)
    requires acc == EMPTY || (acc.names != [] && BlockOk(spans, found, acc.lo, acc.reach, acc.names))
    requires acc.reach <= hi && forall s :: s in spans ==> Apart(s, acc.reach, hi)
    ensures Tiles(acc.Closed() + [Plain(acc.reach, hi)], 0, hi)
    ensures PiecesOk(spans, found, acc.Closed() + [Plain(acc.reach, hi)])
  {
    hide BlockOk, PiecesOk, Tiles;
    if acc.names != [] {
      PiecesSnoc(spans, found, acc.pieces, 0, Block(acc.lo, acc.reach, acc.names));
    }
    PiecesSnoc(spans, found, acc.Closed(), 0, Plain(acc.reach, hi));
  }

  function Elements(order: seq<Span>): set<Span> {
    set s | s in order
  }

  lemma {:induction false} AddedIn(names: seq<string>, more: seq<string>, name: string)
    ensures name in Added(names, more) <==> name in names || name in more
    decreases |more|
  {
    if more != [] {
      AddedIn(if more[0] in names then names else names + [more[0]], more[1..], name);
      assert more == [more[0]] + more[1..];
    }
  }

  /** The block being built ends with `top`, which every span inside it is linked to. */
  ghost predicate TopOk(spans: set<Span>, lo: nat, reach: nat, top: Span) {
    && top in spans && Inside(top, lo, reach) && top.end == reach
    && forall s :: s in spans && Inside(s, lo, reach) ==> Linked(spans, s, top)
  }

  ghost predicate FoldOk(spans: set<Span>, found: Names, acc: Acc) {
    && Tiles(acc.pieces, 0, acc.lo)
    && PiecesOk(spans, found, acc.pieces)
    && (forall s :: s in spans ==> s.end <= acc.reach)
    && if spans == {} then acc == EMPTY
       else BlockOk(spans, found, acc.lo, acc.reach, acc.names) && exists top :: TopOk(spans, acc.lo, acc.reach, top)
  }

  ghost predicate FoundOk(found: Names) {
    forall s :: s in found ==> s.start < s.end && found[s] != []
  }

  /** A later span that is wholly after a piece, or inside the block being built, changes
      neither which of the earlier spans are maximal nor the pieces before it. */
  lemma {:induction false} MaximalKept(spans: set<Span>, s: Span, x: Span)
    requires forall t :: t in spans ==> Before(t, s)
    requires x in spans
    ensures Maximal(spans + {s}, x) <==> Maximal(spans, x)
  {
  }

  lemma {:induction false} NamedKept(spans: set<Span>, found: Names, s: Span, lo: nat, hi: nat, name: string)
    requires forall t :: t in spans ==> Before(t, s)
    requires !Inside(s, lo, hi) || !Maximal(spans + {s}, s)
    ensures Named(spans + {s}, found, lo, hi, name) <==> Named(spans, found, lo, hi, name)
  {
    if x :| Maximal(spans, x) && Inside(x, lo, hi) && x in found && name in found[x] {
      MaximalKept(spans, s, x);
    }
    if x :| Maximal(spans + {s}, x) && Inside(x, lo, hi) && x in found && name in found[x] {
      MaximalKept(spans, s, x);
    }
  }

  lemma {:induction false} ExtentKept(spans: set<Span>, s: Span, lo: nat, hi: nat)
    requires ExtentOk(spans, lo, hi) && (Inside(s, lo, hi) || Apart(s, lo, hi))
    ensures ExtentOk(spans + {s}, lo, hi)
  {
    forall p: nat | lo <= p < hi
      ensures Covered(spans + {s}, p)
    {
      assert Covered(spans, p);
      var t :| t in spans && Covers(t, p);
      assert t in spans + {s};
    }
  }

  lemma {:induction false} PiecesKept(spans: set<Span>, found: Names, pieces: seq<Piece>, s: Span)
    requires PiecesOk(spans, found, pieces) && s.start < s.end
    requires forall t :: t in spans ==> Before(t, s)
    requires forall i :: 0 <= i < |pieces| ==> pieces[i].hi <= s.start
    ensures PiecesOk(spans + {s}, found, pieces)
  {
    forall i | 0 <= i < |pieces|
      ensures PieceOk(spans + {s}, found, pieces[i])
    {
      assert PieceOk(spans, found, pieces[i]);
      if pieces[i].Block? {
        BlockKept(spans, found, s, pieces[i].lo, pieces[i].hi, pieces[i].names);
      }
    }
  }

  lemma {:induction false} BlockKept(spans: set<Span>, found: Names, s: Span, lo: nat, hi: nat, names: seq<string>)
    requires BlockOk(spans, found, lo, hi, names) && s.start < s.end && hi <= s.start
    requires forall t :: t in spans ==> Before(t, s)
    ensures BlockOk(spans + {s}, found, lo, hi, names)
  {
    ExtentKept(spans, s, lo, hi);
    forall a, b | a in spans + {s} && b in spans + {s} && Inside(a, lo, hi) && Inside(b, lo, hi)
      ensures Linked(spans + {s}, a, b)
    {
      LinkedMore(spans, spans + {s}, a, b);
    }
    forall name
      ensures name in names <==> Named(spans + {s}, found, lo, hi, name)
    {
      NamedKept(spans, found, s, lo, hi, name);
    }
  }

  lemma {:induction false} TilesBound(pieces: seq<Piece>, from: nat, to: nat, spans: set<Span>, found: Names)
    requires Tiles(pieces, from, to) && PiecesOk(spans, found, pieces)
    ensures from <= to && forall i :: 0 <= i < |pieces| ==> from <= pieces[i].lo <= pieces[i].hi <= to
  {
    if pieces != [] {
      var last := pieces[|pieces| - 1];
      assert PieceOk(spans, found, last);
      TilesBound(pieces[..|pieces| - 1], from, last.lo, spans, found);
    }
  }

  lemma {:induction false} TiledPiecesKept(spans: set<Span>, found: Names, pieces: seq<Piece>, to: nat, s: Span)
    requires Tiles(pieces, 0, to) && PiecesOk(spans, found, pieces) && to <= s.start < s.end
    requires forall t :: t in spans ==> Before(t, s)
    ensures PiecesOk(spans + {s}, found, pieces)
  {
    TilesBound(pieces, 0, to, spans, found);
    PiecesKept(spans, found, pieces, s);
  }

  /** A span inside the block being built: skipped, as a longer one already names it. */
  lemma {:induction false} SkipKeeps(spans: set<Span>, found: Names, acc: Acc, s: Span)
    requires FoldOk(spans, found, acc) && spans != {} && s.start < s.end && s.end <= acc.reach
    requires forall t :: t in spans ==> Before(t, s)
    requires acc.lo <= s.start
    ensures FoldOk(spans + {s}, found, acc)
  {
    var top :| TopOk(spans, acc.lo, acc.reach, top);
    var more := spans + {s};
    TiledPiecesKept(spans, found, acc.pieces, acc.lo, s);
    ExtentKept(spans, s, acc.lo, acc.reach);
    LinkedSelf(more, s);
    LinkedStep(more, s, s, top);
    forall a | a in more && Inside(a, acc.lo, acc.reach)
      ensures Linked(more, a, top)
    {
      if a != s {
        LinkedMore(spans, more, a, top);
      }
    }
    assert TopOk(more, acc.lo, acc.reach, top);
    PairsLinked(more, acc.lo, acc.reach, top);
    assert !Maximal(more, s);
    forall name
      ensures name in acc.names <==> Named(more, found, acc.lo, acc.reach, name)
    {
      NamedKept(spans, found, s, acc.lo, acc.reach, name);
    }
  }

  lemma {:induction false} PairsLinked(spans: set<Span>, lo: nat, reach: nat, top: Span)
    requires TopOk(spans, lo, reach, top)
    ensures forall a, b :: a in spans && b in spans && Inside(a, lo, reach) && Inside(b, lo, reach) ==> Linked(spans, a, b)
  {
    forall a, b | a in spans && b in spans && Inside(a, lo, reach) && Inside(b, lo, reach)
      ensures Linked(spans, a, b)
    {
      LinkedBoth(spans, a, b, top);
    }
  }

  /** A span after all the others is a block of its own. */
  lemma {:induction false} AloneOk(spans: set<Span>, found: Names, s: Span, names: seq<string>)
    requires FoundOk(found) && s in found && names == Added([], found[s])
    requires forall t :: t in spans ==> Before(t, s) && t.end <= s.start
    ensures BlockOk(spans + {s}, found, s.start, s.end, names) && TopOk(spans + {s}, s.start, s.end, s)
  {
    var more := spans + {s};
    LinkedSelf(more, s);
    assert TopOk(more, s.start, s.end, s);
    PairsLinked(more, s.start, s.end, s);
    assert forall p: nat :: s.start <= p < s.end ==> Covers(s, p);
    assert Maximal(more, s);
    forall name
      ensures name in names <==> Named(more, found, s.start, s.end, name)
    {
      AddedIn([], found[s], name);
    }
    AddedIn([], found[s], found[s][0]);
  }

  /** A span that reaches past the block being built without touching its end: a new block. */
  lemma {:induction false} OpenKeeps(spans: set<Span>, found: Names, acc: Acc, s: Span)
    requires FoldOk(spans, found, acc) && FoundOk(found) && s in found && acc.reach <= s.start
    requires forall t :: t in spans ==> Before(t, s)
    ensures FoldOk(spans + {s}, found, acc.Take(s, found[s]))
  {
    hide BlockOk, TopOk, Added, Maximal, PiecesOk, Tiles;
    var more := spans + {s};
    if spans != {} {
      BlockHasNames(spans, found, acc.lo, acc.reach, acc.names);
    }
    TiledPiecesKept(spans, found, acc.pieces, acc.lo, s);
    if spans != {} {
      BlockKept(spans, found, s, acc.lo, acc.reach, acc.names);
    }
    ClosedTiles(more, found, acc, s.start);
    AloneOk(spans, found, s, Added([], found[s]));
  }

  lemma {:induction false} BlockHasNames(spans: set<Span>, found: Names, lo: nat, hi: nat, names: seq<string>)
    requires BlockOk(spans, found, lo, hi, names)
    ensures names != [] && lo < hi
  {
  }

  /** A span that overlaps the end of the block being built extends it. */
  lemma {:induction false} ExtendKeeps(spans: set<Span>, found: Names, acc: Acc, s: Span)
    requires FoldOk(spans, found, acc) && FoundOk(found) && s in found && spans != {}
    requires acc.lo <= s.start < acc.reach < s.end
    requires forall t :: t in spans ==> Before(t, s)
    ensures FoldOk(spans + {s}, found, acc.Take(s, found[s]))
  {
    hide BlockOk, TopOk, Added, Maximal, PiecesOk, Tiles;
    TiledPiecesKept(spans, found, acc.pieces, acc.lo, s);
    ExtendedOk(spans, found, acc, s);
    var top :| TopOk(spans, acc.lo, acc.reach, top);
    ExtendedTop(spans, acc, s, top);
  }

  lemma {:induction false} ExtendedTop(spans: set<Span>, acc: Acc, s: Span, top: Span)
    requires TopOk(spans, acc.lo, acc.reach, top) && acc.lo <= s.start < acc.reach < s.end
    requires forall t :: t in spans ==> Before(t, s) && t.end <= acc.reach
    ensures TopOk(spans + {s}, acc.lo, s.end, s)
  {
    var more := spans + {s};
    LinkedSelf(more, s);
    forall a | a in more && Inside(a, acc.lo, s.end)
      ensures Linked(more, a, s)
    {
      if a != s {
        LinkedMore(spans, more, a, top);
        LinkedStep(more, a, top, s);
      }
    }
  }

  lemma {:induction false} ExtendedOk(spans: set<Span>, found: Names, acc: Acc, s: Span)
    requires BlockOk(spans, found, acc.lo, acc.reach, acc.names) && FoundOk(found) && s in found
    requires exists top :: TopOk(spans, acc.lo, acc.reach, top)
    requires acc.lo <= s.start < acc.reach < s.end
    requires forall t :: t in spans ==> Before(t, s) && t.end <= acc.reach
    ensures BlockOk(spans + {s}, found, acc.lo, s.end, Added(acc.names, found[s]))
  {
    var more := spans + {s};
    var names := Added(acc.names, found[s]);
    ExtendedExtent(spans, acc, s);
    var top :| TopOk(spans, acc.lo, acc.reach, top);
    ExtendedTop(spans, acc, s, top);
    PairsLinked(more, acc.lo, s.end, s);
    assert Maximal(more, s);
    forall name
      ensures name in names <==> Named(more, found, acc.lo, s.end, name)
    {
      AddedIn(acc.names, found[s], name);
      ExtendNamed(spans, found, acc, s, name);
    }
    AddedIn(acc.names, found[s], found[s][0]);
  }

  lemma {:induction false} ExtendedExtent(spans: set<Span>, acc: Acc, s: Span)
    requires ExtentOk(spans, acc.lo, acc.reach) && acc.lo <= s.start < acc.reach < s.end
    requires forall t :: t in spans ==> t.end <= acc.reach
    ensures ExtentOk(spans + {s}, acc.lo, s.end)
  {
    forall p: nat | acc.lo <= p < s.end
      ensures Covered(spans + {s}, p)
    {
      if p < acc.reach {
        assert Covered(spans, p);
        var t :| t in spans && Covers(t, p);
        assert t in spans + {s};
      } else {
        assert Covers(s, p);
      }
    }
  }

  lemma {:induction false} ExtendNamed(spans: set<Span>, found: Names, acc: Acc, s: Span, name: string)
    requires BlockOk(spans, found, acc.lo, acc.reach, acc.names) && s in found
    requires acc.lo <= s.start < acc.reach < s.end && Maximal(spans + {s}, s)
    requires forall t :: t in spans ==> Before(t, s) && t.end <= acc.reach
    ensures Named(spans + {s}, found, acc.lo, s.end, name) <==> name in acc.names || name in found[s]
  {
    if x :| Maximal(spans, x) && Inside(x, acc.lo, acc.reach) && x in found && name in found[x] {
      MaximalKept(spans, s, x);
    }
    if x :| Maximal(spans + {s}, x) && Inside(x, acc.lo, s.end) && x in found && name in found[x] {
      if x != s {
        MaximalKept(spans, s, x);
      }
    }
  }

  /** The sorted spans are merged correctly, however many there are. */
  lemma {:induction false} FoldIsOk(order: seq<Span>, found: Names)
    requires SortedSpans(order) && FoundOk(found) && forall s :: s in order ==> s in found
    ensures FoldOk(Elements(order), found, Fold(order, found))
    ensures order != [] ==> Fold(order, found).lo <= order[|order| - 1].start
    decreases |order|
  {
    hide FoldOk, Added;
    if order == [] {
      StartOk(found);
      assert Elements(order) == {};
    } else {
      var before := order[..|order| - 1];
      var s := order[|order| - 1];
      assert forall t :: t in before ==> t in order;
      FoldIsOk(before, found);
      var spans := Elements(before);
      var acc := Fold(before, found);
      assert Elements(order) == spans + {s};
      assert forall t :: t in spans ==> Before(t, s);
      if before == [] {
        assert acc == EMPTY;
      } else {
        assert before[0] in spans && before[|before| - 1] in spans;
      }
      if s.start >= acc.reach {
        OpenKeeps(spans, found, acc, s);
      } else if s.end <= acc.reach {
        SkipKeeps(spans, found, acc, s);
      } else {
        ExtendKeeps(spans, found, acc, s);
      }
    }
  }

  lemma {:induction false} StartOk(found: Names)
    ensures FoldOk({}, found, EMPTY)
  {
  }

  /** The output's pieces tile the text; a plain piece touches no span, and a block is
      exactly one connected component of overlapping spans, named after its secrets. */
  lemma {:induction false} MergeIsOk(order: seq<Span>, found: Names, n: nat)
    requires SortedSpans(order) && FoundOk(found)
    requires forall s :: s in order ==> s in found && s.end <= n
    ensures Tiles(Merge(order, found, n), 0, n)
    ensures PiecesOk(Elements(order), found, Merge(order, found, n))
  {
    FoldIsOk(order, found);
    ClosedIsOk(Elements(order), found, Fold(order, found), n);
    assert order != [] ==> order[0] in Elements(order);
  }

  lemma {:induction false} ClosedIsOk(spans: set<Span>, found: Names, acc: Acc, n: nat)
    requires FoldOk(spans, found, acc) && forall s :: s in spans ==> s.end <= n
    ensures Tiles(acc.Closed() + [Plain(acc.reach, n)], 0, n)
    ensures PiecesOk(spans, found, acc.Closed() + [Plain(acc.reach, n)])
  {
    hide BlockOk, PiecesOk, Tiles;
    if spans != {} {
      var top :| TopOk(spans, acc.lo, acc.reach, top);
      BlockHasNames(spans, found, acc.lo, acc.reach, acc.names);
    }
    ClosedTiles(spans, found, acc, n);
  }

  // -------------------------------------------------- what the pieces mean

  /** The positions of the text that the pieces give as they are, in output order. */
  function Verbatim(pieces: seq<Piece>): seq<nat> {
    if pieces == [] then []
    else
      Verbatim(pieces[..|pieces| - 1]) +
      (match pieces[|pieces| - 1] case Plain(lo, hi) => Range(lo, hi) case Block(_, _, _) => [])
  }

  function Range(lo: nat, hi: nat): seq<nat> {
    if lo >= hi then [] else Range(lo, hi - 1) + [hi - 1]
  }

  /** The positions below `n` that no span covers, in order. */
  ghost function Uncovered(spans: set<Span>, n: nat): seq<nat> {
    if n == 0 then [] else Uncovered(spans, n - 1) + if Covered(spans, n - 1) then [] else [n - 1]
  }

  lemma {:induction false} UncoveredPlain(spans: set<Span>, lo: nat, hi: nat)
    requires lo <= hi && forall s :: s in spans ==> Apart(s, lo, hi)
    ensures Uncovered(spans, hi) == Uncovered(spans, lo) + Range(lo, hi)
  {
    if lo < hi {
      UncoveredPlain(spans, lo, hi - 1);
      assert !Covered(spans, hi - 1);
    }
  }

  lemma {:induction false} UncoveredBlock(spans: set<Span>, lo: nat, hi: nat)
    requires lo <= hi && forall p: nat :: lo <= p < hi ==> Covered(spans, p)
    ensures Uncovered(spans, hi) == Uncovered(spans, lo)
  {
    if lo < hi {
      UncoveredBlock(spans, lo, hi - 1);
    }
  }

  /** A character is emitted verbatim, in order, exactly when no found span covers it. */
  lemma {:induction false} VerbatimIsUncovered(pieces: seq<Piece>, n: nat, spans: set<Span>, found: Names)
    requires Tiles(pieces, 0, n) && PiecesOk(spans, found, pieces)
    ensures Verbatim(pieces) == Uncovered(spans, n)
  {
    if pieces != [] {
      var last := pieces[|pieces| - 1];
      assert PieceOk(spans, found, last);
      VerbatimIsUncovered(pieces[..|pieces| - 1], last.lo, spans, found);
      match last {
        case Plain(lo, hi) => UncoveredPlain(spans, lo, hi);
        case Block(lo, hi, _) => UncoveredBlock(spans, lo, hi);
      }
    }
  }

  lemma {:induction false} UncoveredIn(spans: set<Span>, n: nat, p: nat)
    ensures p in Uncovered(spans, n) <==> p < n && !Covered(spans, p)
  {
    if n > 0 {
      UncoveredIn(spans, n - 1, p);
    }
  }

  lemma {:induction false} ChainStays(spans: set<Span>, path: seq<Span>, lo: nat, hi: nat, k: nat)
    requires IsChain(spans, path) && ExtentOk(spans, lo, hi) && Inside(path[0], lo, hi) && k < |path|
    requires forall s :: s in spans ==> s.start < s.end
    ensures Inside(path[k], lo, hi)
  {
    if k > 0 {
      ChainStays(spans, path, lo, hi, k - 1);
      assert Overlaps(path[k - 1], path[k - 1 + 1]);
    }
  }

  /** Two found spans are in the same block exactly when a chain of overlapping spans links
      them; spans that only touch are not linked by that. */
  lemma {:induction false} SameBlockIffLinked(spans: set<Span>, found: Names, block: Piece, a: Span, b: Span)
    requires block.Block? && PieceOk(spans, found, block)
    requires forall s :: s in spans ==> s.start < s.end
    requires a in spans && b in spans && Inside(a, block.lo, block.hi)
    ensures Inside(b, block.lo, block.hi) <==> Linked(spans, a, b)
  {
    if path :| Chain(spans, path, a, b) {
      ChainStays(spans, path, block.lo, block.hi, |path| - 1);
    }
  }

  /** Every found span lies in some block. */
  lemma {:induction false} SpanHasBlock(pieces: seq<Piece>, n: nat, spans: set<Span>, found: Names, s: Span)
    requires Tiles(pieces, 0, n) && PiecesOk(spans, found, pieces) && s in spans && s.start < s.end <= n
    ensures exists i :: 0 <= i < |pieces| && pieces[i].Block? && Inside(s, pieces[i].lo, pieces[i].hi)
    decreases |pieces|
  {
    var last := pieces[|pieces| - 1];
    assert PieceOk(spans, found, last);
    if s.end <= last.lo {
      SpanHasBlock(pieces[..|pieces| - 1], last.lo, spans, found, s);
    }
  }
}
