/** `Redactor.redact` of `runs/redact.py`: find what the table names, merge the spans and
    write the text with placeholders. */
module Redactors {
  import opened JsonEscape
  import opened RedactSearch
  import opened RedactMerge
  import N = RedactNeedles

  // ------------------------------------------------------------ what is found

  /** The needle occurs at the span, or the span is a cut-off beginning of it. */
  ghost predicate Hits(text: string, needle: string, span: Span) {
    || (span.end == span.start + |needle| && OccursAt(text, needle, span.start))
    || exists c: Cut :: IsCut(text, c.start, c.end) && EndsCut(text, needle, c, span)
  }

  /** The names of the needles that hit the span, in table order. */
  ghost function NamesFor(table: seq<N.Needle>, text: string, span: Span): seq<string> {
    if table == [] then []
    else
      var last := table[|table| - 1];
      NamesFor(table[..|table| - 1], text, span) + if Hits(text, last.text, span) then last.names else []
  }

  /** `found` holds just the spans some needle hits, each with the names it stands for. */
  ghost predicate IsFound(table: seq<N.Needle>, text: string, found: Names) {
    && (forall s :: s in found <==> NamesFor(table, text, s) != [])
    && (forall s :: s in found ==> found[s] == NamesFor(table, text, s))
  }

  predicate Usable(table: seq<N.Needle>) {
    forall i :: 0 <= i < |table| ==> table[i].text != "" && table[i].names != []
  }

  function NamesAt(found: Names, s: Span): seq<string> {
    if s in found then found[s] else []
  }

  /** `more` is `found` with the names added to each of the spans. */
  ghost predicate Extends(more: Names, found: Names, spans: set<Span>, names: seq<string>) {
    && more.Keys == found.Keys + spans
    && forall s :: s in more ==> more[s] == NamesAt(found, s) + if s in spans then names else []
  }

  method AddSpans(found: Names, spans: seq<Span>, names: seq<string>) returns (more: Names)
    requires Distinct(spans)
    ensures Extends(more, found, Elements(spans), names)
  {
    hide Extends;
    more := found;
    ExtendsNone(found, names);
    for i := 0 to |spans|
      invariant Extends(more, found, Elements(spans[..i]), names)
    {
      var s := spans[i];
      assert s !in spans[..i];
      assert spans[..i + 1] == spans[..i] + [s];
      more := ExtendOne(more, found, Elements(spans[..i]), s, names);
      assert Elements(spans[..i + 1]) == Elements(spans[..i]) + {s};
    }
    assert spans[..|spans|] == spans;
  }

  lemma {:induction false} ExtendsNone(found: Names, names: seq<string>)
    ensures Extends(found, found, Elements([]), names)
  {
    assert found.Keys == found.Keys + Elements([]);
  }

  /** `found.setdefault(span, []).extend(names)`. */
  method ExtendOne(now: Names, ghost found: Names, ghost before: set<Span>, s: Span, names: seq<string>)
    returns (more: Names)
    requires Extends(now, found, before, names) && s !in before
    ensures Extends(more, found, before + {s}, names)
  {
    more := now[s := NamesAt(now, s) + names];
  }

  /** The spans of one needle, whole occurrences and cut-off beginnings, each once. */
  method SpansOf(text: string, needle: string, cuts: seq<Cut>) returns (spans: seq<Span>)
    requires needle != "" && forall c :: c in cuts <==> IsCut(text, c.start, c.end)
    requires forall i, j :: 0 <= i < j < |cuts| ==> cuts[i].end != cuts[j].end
    ensures Distinct(spans) && forall s :: s in spans <==> Hits(text, needle, s)
  {
    hide EndsCut;
    var starts := Starts(text, needle);
    var whole := [];
    for i := 0 to |starts|
      invariant |whole| == i && forall k :: 0 <= k < i ==> whole[k] == Span(starts[k], starts[k] + |needle|)
    {
      whole := whole + [Span(starts[i], starts[i] + |needle|)];
    }
    var parts := CutPrefixes(text, needle, cuts);
    spans := whole + parts;
    WholeHits(text, needle, starts, whole);
    forall s: Span | s in parts
      ensures s !in whole
    {
      var c :| c in cuts && EndsCut(text, needle, c, s);
      ShorterThanNeedle(text, needle, c, s);
    }
    forall i, j | 0 <= i < j < |spans|
      ensures spans[i] != spans[j]
    {
      if i < |whole| && |whole| <= j {
        assert spans[i] in whole && spans[j] in parts;
      }
    }
  }

  lemma {:induction false} WholeHits(text: string, needle: string, starts: seq<nat>, whole: seq<Span>)
    requires |whole| == |starts| && forall k :: 0 <= k < |starts| ==> whole[k] == Span(starts[k], starts[k] + |needle|)
    requires Rising(starts) && forall i: nat :: i in starts <==> OccursAt(text, needle, i)
    ensures Distinct(whole)
    ensures forall s :: s in whole <==> s.end == s.start + |needle| && OccursAt(text, needle, s.start)
  {
    forall s: Span | s.end == s.start + |needle| && OccursAt(text, needle, s.start)
      ensures s in whole
    {
      var k :| 0 <= k < |starts| && starts[k] == s.start;
      assert whole[k] == s;
    }
  }

  lemma {:induction false} ShorterThanNeedle(text: string, needle: string, c: Cut, s: Span)
    requires EndsCut(text, needle, c, s)
    ensures s.start < s.end < s.start + |needle| && s.end <= |text|
  {
  }

  method FindAll(table: seq<N.Needle>, text: string) returns (found: Names)
    requires Usable(table)
    ensures IsFound(table, text, found)
  {
    hide Hits, IsCut, Distinct;
    var cuts := Cuts(text);
    found := map[];
    for i := 0 to |table|
      invariant IsFound(table[..i], text, found)
    {
      var spans := SpansOf(text, table[i].text, cuts);
      ghost var before := found;
      found := AddSpans(found, spans, table[i].names);
      assert table[..i + 1][..i] == table[..i];
    }
    assert table[..|table|] == table;
  }

  // ------------------------------------------------------------------ sorting

  method Insert(order: seq<Span>, s: Span) returns (more: seq<Span>)
    requires SortedSpans(order) && s !in order
    ensures SortedSpans(more) && Elements(more) == Elements(order) + {s}
  {
    var i := 0;
    while i < |order| && Before(order[i], s)
      invariant 0 <= i <= |order| && forall k :: 0 <= k < i ==> Before(order[k], s)
    {
      i := i + 1;
    }
    more := order[..i] + [s] + order[i..];
    assert order == order[..i] + order[i..];
    assert forall k :: i <= k < |order| ==> Before(s, order[k]) by {
      if i < |order| {
        assert order[i] != s;
      }
    }
  }

  /** The found spans by start, the longer of two that start together first. */
  method Sort(spans: set<Span>) returns (order: seq<Span>)
    ensures SortedSpans(order) && Elements(order) == spans
  {
    order := [];
    var todo := spans;
    while todo != {}
      invariant SortedSpans(order) && todo <= spans && Elements(order) == spans - todo
      decreases todo
    {
      var s :| s in todo;
      assert s !in Elements(order);
      order := Insert(order, s);
      todo := todo - {s};
    }
  }

  lemma {:induction false} SortIsUnique(a: seq<Span>, b: seq<Span>)
    requires SortedSpans(a) && SortedSpans(b) && Elements(a) == Elements(b)
    ensures a == b
    decreases |a|
  {
    assert a != [] ==> a[0] in Elements(a);
    assert b != [] ==> b[0] in Elements(b);
    if a != [] {
      assert b != [] && a[0] in b && b[0] in a;
      assert a[0] == b[0];
      RestElements(a);
      RestElements(b);
      SortIsUnique(a[1..], b[1..]);
      assert a == [a[0]] + a[1..] && b == [b[0]] + b[1..];
    }
  }

  lemma {:induction false} RestElements(a: seq<Span>)
    requires a != [] && SortedSpans(a)
    ensures SortedSpans(a[1..]) && Elements(a[1..]) == Elements(a) - {a[0]}
  {
    assert a == [a[0]] + a[1..];
  }

  // ------------------------------------------------------------------ writing

  function Placeholders(names: seq<string>): string {
    if names == [] then ""
    else Placeholders(names[..|names| - 1]) + "[redacted:" + names[|names| - 1] + "]"
  }

  /** A block is written as one placeholder for each of its names, in order. */
  lemma {:induction false} PlaceholdersJoin(a: seq<string>, name: string, b: seq<string>)
    ensures Placeholders(a + [name] + b) == Placeholders(a) + "[redacted:" + name + "]" + Placeholders(b)
    decreases |b|
  {
    if b == [] {
      assert a + [name] + b == a + [name] && (a + [name])[..|a|] == a;
    } else {
      var init, all := b[..|b| - 1], a + [name] + b;
      PlaceholdersJoin(a, name, init);
      assert all[..|all| - 1] == a + [name] + init && all[|all| - 1] == b[|b| - 1];
      var before := Placeholders(a) + "[redacted:" + name + "]";
      assert before + Placeholders(init) + "[redacted:" + b[|b| - 1] + "]"
          == before + (Placeholders(init) + "[redacted:" + b[|b| - 1] + "]");
    }
  }

  predicate Fits(pieces: seq<Piece>, n: nat) {
    forall i :: 0 <= i < |pieces| && pieces[i].Plain? ==> pieces[i].lo <= pieces[i].hi <= n
  }

  function Written(text: string, piece: Piece): string
    requires piece.Plain? ==> piece.lo <= piece.hi <= |text|
  {
    match piece
    case Plain(lo, hi) => text[lo..hi]
    case Block(_, _, names) => Placeholders(names)
  }

  function Render(text: string, pieces: seq<Piece>): string
    requires Fits(pieces, |text|)
  {
    if pieces == [] then ""
    else Render(text, pieces[..|pieces| - 1]) + Written(text, pieces[|pieces| - 1])
  }

  lemma {:induction false} RenderSnoc(text: string, pieces: seq<Piece>, piece: Piece)
    requires Fits(pieces, |text|) && (piece.Plain? ==> piece.lo <= piece.hi <= |text|)
    ensures Fits(pieces + [piece], |text|)
    ensures Render(text, pieces + [piece]) == Render(text, pieces) + Written(text, piece)
  {
    assert (pieces + [piece])[..|pieces|] == pieces;
  }

  /** `pieces` are the blocks and the plain text between them, for these secrets. */
  ghost predicate IsRedaction(table: seq<N.Needle>, text: string, pieces: seq<Piece>) {
    exists found, order ::
      && IsFound(table, text, found)
      && SortedSpans(order) && Elements(order) == found.Keys
      && InOrder(order, found) && pieces == Merge(order, found, |text|)
  }

  ghost predicate InOrder(order: seq<Span>, found: Names) {
    forall s :: s in order ==> s in found
  }

  lemma {:induction false} FoundFits(table: seq<N.Needle>, text: string, found: Names)
    requires Usable(table) && IsFound(table, text, found)
    ensures FoundOk(found) && forall s :: s in found ==> s.end <= |text|
  {
    hide Hits;
    forall s | s in found
      ensures s.start < s.end <= |text|
    {
      var i := NameHit(table, text, s, found[s][0]);
      HitFits(text, table[i].text, s);
    }
  }

  lemma {:induction false} HitFits(text: string, needle: string, s: Span)
    requires needle != "" && Hits(text, needle, s)
    ensures s.start < s.end <= |text|
  {
  }

  /** A span's names are those of the needles that hit it. */
  lemma {:induction false} NameHit(table: seq<N.Needle>, text: string, s: Span, name: string) returns (i: nat)
    requires name in NamesFor(table, text, s)
    ensures i < |table| && Hits(text, table[i].text, s) && name in table[i].names
    decreases |table|
  {
    hide Hits;
    i := |table| - 1;
    if !(Hits(text, table[i].text, s) && name in table[i].names) {
      i := NameHit(table[..i], text, s, name);
    }
  }

  lemma {:induction false} HitNamed(table: seq<N.Needle>, text: string, s: Span, i: nat)
    requires i < |table| && Hits(text, table[i].text, s)
    ensures forall name :: name in table[i].names ==> name in NamesFor(table, text, s)
    decreases |table|
  {
    hide Hits;
    if i < |table| - 1 {
      HitNamed(table[..|table| - 1], text, s, i);
    }
  }

  method AddNames(block: seq<string>, names: seq<string>) returns (more: seq<string>)
    ensures more == Added(block, names)
  {
    more := block;
    var i := 0;
    while i < |names|
      invariant 0 <= i <= |names| && Added(more, names[i..]) == Added(block, names)
    {
      if names[i] !in more {
        more := more + [names[i]];
      }
      i := i + 1;
    }
  }

  /** The placeholders of a block, joined in the order of their names. */
  method Marks(block: seq<string>) returns (marks: string)
    ensures marks == Placeholders(block)
  {
    marks := "";
    for i := 0 to |block|
      invariant marks == Placeholders(block[..i])
    {
      marks := marks + "[redacted:" + block[i] + "]";
      assert block[..i + 1][..i] == block[..i];
    }
    assert block[..|block|] == block;
  }

  method Redact(table: seq<N.Needle>, text: string) returns (out: string)
    requires Usable(table)
    ensures exists pieces :: IsRedaction(table, text, pieces) && Fits(pieces, |text|) && out == Render(text, pieces)
  {
    hide IsFound, FoundOk, SortedSpans, Render, Fits;
    var found := FindAll(table, text);
    FoundFits(table, text, found);
    var order := Sort(found.Keys);
    assert InOrder(order, found) by {
      assert forall s :: s in order ==> s in Elements(order);
    }
    assert order == [] || order[0] in Elements(order);
    if found == map[] {
      NothingFound(order, found, text);
      out := text;
    } else {
      out := Replace(order, found, text);
    }
    assert IsRedaction(table, text, Merge(order, found, |text|));
  }

  lemma {:induction false} NothingFound(order: seq<Span>, found: Names, text: string)
    requires found == map[] && order == []
    ensures InOrder(order, found) && Fits(Merge(order, found, |text|), |text|) && Render(text, Merge(order, found, |text|)) == text
  {
    RenderSnoc(text, [], Plain(0, |text|));
    assert [] + [Plain(0, |text|)] == Merge(order, found, |text|);
  }

  /** The loop over the sorted spans. */
  method Replace(order: seq<Span>, found: Names, text: string) returns (out: string)
    requires InOrder(order, found) && FoundOk(found) && forall s :: s in found ==> s.end <= |text|
    ensures Fits(Merge(order, found, |text|), |text|) && out == Render(text, Merge(order, found, |text|))
  {
    hide Render, Fits, FoundOk;
    out := "";
    var reach, block: seq<string> := 0, [];
    NothingWritten(text);
    for i := 0 to |order|
      invariant InOrder(order[..i], found)
      invariant reach == Fold(order[..i], found).reach <= |text| && block == Fold(order[..i], found).names
      invariant Fits(Fold(order[..i], found).pieces, |text|) && out == Render(text, Fold(order[..i], found).pieces)
    {
      var s := order[i];
      OrderStep(order, found, i);
      ghost var was := Fold(order[..i], found);
      TakeRender(text, was, s, found[s]);
      if s.end > reach {
        if s.start >= reach {
          var marks := Marks(block);
          out := out + marks + text[reach..s.start];
          block := [];
        }
        block := AddNames(block, found[s]);
        reach := s.end;
      }
    }
    assert order[..|order|] == order;
    CloseRender(text, Fold(order, found), |text|);
    var marks := Marks(block);
    out := out + marks + text[reach..];
  }

  lemma {:induction false} NothingWritten(text: string)
    ensures Fits([], |text|) && Render(text, []) == ""
  {
  }

  lemma {:induction false} OrderStep(order: seq<Span>, found: Names, i: nat)
    requires InOrder(order, found) && FoundOk(found) && i < |order|
    ensures order[i] in found && order[i].start < order[i].end
    ensures InOrder(order[..i], found) && InOrder(order[..i + 1], found)
    ensures Fold(order[..i + 1], found) == Fold(order[..i], found).Take(order[i], found[order[i]])
  {
    assert order[..i + 1][..i] == order[..i];
    assert forall s :: s in order[..i + 1] ==> s in order;
  }

  lemma {:induction false} TakeRender(text: string, acc: Acc, s: Span, names: seq<string>)
    requires Fits(acc.pieces, |text|) && acc.reach <= |text| && s.start <= s.end <= |text|
    ensures Fits(acc.Take(s, names).pieces, |text|)
    ensures Render(text, acc.Take(s, names).pieces) == Render(text, acc.pieces) +
            if s.end > acc.reach && s.start >= acc.reach then Placeholders(acc.names) + text[acc.reach..s.start] else ""
  {
    hide Render, Fits;
    if s.end > acc.reach && s.start >= acc.reach {
      CloseRender(text, acc, s.start);
    }
  }

  lemma {:induction false} CloseRender(text: string, acc: Acc, hi: nat)
    requires Fits(acc.pieces, |text|) && acc.reach <= hi <= |text|
    ensures Fits(acc.Closed() + [Plain(acc.reach, hi)], |text|)
    ensures Render(text, acc.Closed() + [Plain(acc.reach, hi)])
            == Render(text, acc.pieces) + (Placeholders(acc.names) + text[acc.reach..hi])
  {
    hide Fits, Render;
    if acc.names != [] {
      RenderSnoc(text, acc.pieces, Block(acc.lo, acc.reach, acc.names));
    }
    RenderSnoc(text, acc.Closed(), Plain(acc.reach, hi));
  }

  // ------------------------------------------------------------ what it means

  /** The pieces, and so the output, are determined by the table and the text. */
  lemma {:induction false} RedactionIsUnique(table: seq<N.Needle>, text: string, a: seq<Piece>, b: seq<Piece>)
    requires IsRedaction(table, text, a) && IsRedaction(table, text, b)
    ensures a == b
  {
    hide NamesFor, SortedSpans, Merge;
    var f, o :| IsFound(table, text, f) && SortedSpans(o) && Elements(o) == f.Keys
      && InOrder(o, f) && a == Merge(o, f, |text|);
    var g, p :| IsFound(table, text, g) && SortedSpans(p) && Elements(p) == g.Keys
      && InOrder(p, g) && b == Merge(p, g, |text|);
    assert f.Keys == g.Keys;
    assert f == g;
    SortIsUnique(o, p);
  }

  ghost predicate HitAt(table: seq<N.Needle>, text: string, p: nat) {
    exists i, s :: 0 <= i < |table| && Hits(text, table[i].text, s) && Covers(s, p)
  }

  /** The spans that the redaction merged, with what is known of its pieces. */
  lemma {:induction false} RedactionSpans(table: seq<N.Needle>, text: string, pieces: seq<Piece>) returns (found: Names)
    requires Usable(table) && IsRedaction(table, text, pieces)
    ensures IsFound(table, text, found) && FoundOk(found)
    ensures forall s :: s in found ==> s.end <= |text|
    ensures Tiles(pieces, 0, |text|) && PiecesOk(found.Keys, found, pieces)
  {
    hide NamesFor, SortedSpans, Merge, Tiles, PiecesOk;
    var f, order :| IsFound(table, text, f) && SortedSpans(order) && Elements(order) == f.Keys
      && InOrder(order, f) && pieces == Merge(order, f, |text|);
    found := f;
    FoundFits(table, text, found);
    assert forall s :: s in order ==> s in Elements(order);
    MergeIsOk(order, found, |text|);
  }

  lemma {:induction false} CoveredIsHit(table: seq<N.Needle>, text: string, found: Names, p: nat)
    requires Usable(table) && IsFound(table, text, found)
    ensures Covered(found.Keys, p) <==> HitAt(table, text, p)
  {
    hide Hits, NamesFor;
    if Covered(found.Keys, p) {
      var s :| s in found.Keys && Covers(s, p);
      var i := NameHit(table, text, s, found[s][0]);
      assert Hits(text, table[i].text, s) && Covers(s, p);
    }
    if HitAt(table, text, p) {
      var i, s :| 0 <= i < |table| && Hits(text, table[i].text, s) && Covers(s, p);
      HitNamed(table, text, s, i);
      assert table[i].names[0] in NamesFor(table, text, s);
      assert s in found.Keys;
    }
  }

  /** A character comes out verbatim, and those that do in order, exactly when neither an
      occurrence nor a cut-off beginning of a needle covers it. */
  lemma {:induction false} VerbatimIffUnhit(table: seq<N.Needle>, text: string, pieces: seq<Piece>, p: nat)
    requires Usable(table) && IsRedaction(table, text, pieces)
    ensures p in Verbatim(pieces) <==> p < |text| && !HitAt(table, text, p)
  {
    hide Tiles, PiecesOk, IsFound, HitAt;
    var found := RedactionSpans(table, text, pieces);
    VerbatimIsUncovered(pieces, |text|, found.Keys, found);
    UncoveredIn(found.Keys, |text|, p);
    CoveredIsHit(table, text, found, p);
  }

  lemma {:induction false} UncoveredRises(spans: set<Span>, n: nat)
    ensures forall i, j :: 0 <= i < j < |Uncovered(spans, n)| ==> Uncovered(spans, n)[i] < Uncovered(spans, n)[j]
    ensures forall p :: p in Uncovered(spans, n) ==> p < n
  {
    hide Covered;
    if n > 0 {
      UncoveredRises(spans, n - 1);
      var u := Uncovered(spans, n - 1);
      assert forall i :: 0 <= i < |u| ==> u[i] in u;
    }
  }

  /** Verbatim characters keep their order and none is written twice. */
  lemma {:induction false} VerbatimRises(table: seq<N.Needle>, text: string, pieces: seq<Piece>)
    requires Usable(table) && IsRedaction(table, text, pieces)
    ensures Rising(Verbatim(pieces))
  {
    hide Tiles, PiecesOk, IsFound;
    var found := RedactionSpans(table, text, pieces);
    VerbatimIsUncovered(pieces, |text|, found.Keys, found);
    UncoveredRises(found.Keys, |text|);
  }

  /** Every block has a placeholder, and each names a secret found inside the block. */
  lemma {:induction false} BlockNamesSecret(table: seq<N.Needle>, text: string, pieces: seq<Piece>, k: nat)
    requires Usable(table) && IsRedaction(table, text, pieces) && k < |pieces| && pieces[k].Block?
    ensures pieces[k].names != []
    ensures forall name :: name in pieces[k].names ==>
                             exists i, s :: 0 <= i < |table| && name in table[i].names && Hits(text, table[i].text, s)
                                            && Inside(s, pieces[k].lo, pieces[k].hi)
  {
    hide Hits, Tiles, NamesFor;
    var found := RedactionSpans(table, text, pieces);
    var b := pieces[k];
    assert PieceOk(found.Keys, found, b);
    forall name | name in b.names
      ensures exists i, s :: 0 <= i < |table| && name in table[i].names && Hits(text, table[i].text, s) && Inside(s, b.lo, b.hi)
    {
      assert Named(found.Keys, found, b.lo, b.hi, name);
      var s :| Maximal(found.Keys, s) && Inside(s, b.lo, b.hi) && s in found && name in found[s];
      var i := NameHit(table, text, s, name);
    }
  }

  /** Text in which nothing is found comes back as it is. */
  lemma {:induction false} CleanTextKept(table: seq<N.Needle>, text: string, pieces: seq<Piece>)
    requires Usable(table) && IsRedaction(table, text, pieces)
    requires forall p: nat :: !HitAt(table, text, p)
    ensures Fits(pieces, |text|) && Render(text, pieces) == text
  {
    hide NamesFor, SortedSpans, HitAt;
    var f, order :| IsFound(table, text, f) && SortedSpans(order) && Elements(order) == f.Keys
      && InOrder(order, f) && pieces == Merge(order, f, |text|);
    if order != [] {
      var s := order[0];
      assert s in Elements(order);
      FoundFits(table, text, f);
      assert Covers(s, s.start) && Covered(f.Keys, s.start);
      CoveredIsHit(table, text, f, s.start);
    }
    assert pieces == [] + [Plain(0, |text|)];
    RenderSnoc(text, [], Plain(0, |text|));
  }

  // ---------------------------------------------------- what must not survive

  /** No character of a needle's occurrence comes out. */
  lemma {:induction false} OccurrenceIsMasked(table: seq<N.Needle>, text: string, pieces: seq<Piece>, i: nat, at: nat, p: nat)
    requires Usable(table) && IsRedaction(table, text, pieces)
    requires i < |table| && OccursAt(text, table[i].text, at) && at <= p < at + |table[i].text|
    ensures p !in Verbatim(pieces)
  {
    var s := Span(at, at + |table[i].text|);
    assert Hits(text, table[i].text, s) && Covers(s, p);
    VerbatimIffUnhit(table, text, pieces, p);
  }

  ghost predicate Accepted(secrets: seq<N.Secret>) {
    forall i :: 0 <= i < |secrets| ==> secrets[i].value != ""
  }

  lemma {:induction false} TableIsUsable(secrets: seq<N.Secret>)
    requires Accepted(secrets)
    ensures Usable(N.TableOf(secrets))
  {
    forall i | 0 <= i < |N.TableOf(secrets)|
      ensures N.TableOf(secrets)[i].text != "" && N.TableOf(secrets)[i].names != []
    {
      N.NeedleNotEmpty(secrets, i);
    }
  }

  /** `needle` is the value, a long line of it when it has several, or a JSON form of these. */
  ghost predicate IsSecretForm(secrets: seq<N.Secret>, needle: string) {
    exists s :: s in secrets && N.IsFormOf(s.value, needle)
  }

  /** No character of any occurrence of a value, of a long enough line of it, or of a JSON
      form of either survives. */
  lemma {:induction false} SecretIsMasked(secrets: seq<N.Secret>, text: string, pieces: seq<Piece>,
                                          needle: string, at: nat, p: nat)
    requires Accepted(secrets) && IsRedaction(N.TableOf(secrets), text, pieces)
    requires IsSecretForm(secrets, needle) && OccursAt(text, needle, at) && at <= p < at + |needle|
    ensures p !in Verbatim(pieces)
  {
    hide IsRedaction, N.IsFormOf;
    TableIsUsable(secrets);
    var table := N.TableOf(secrets);
    var s :| s in secrets && N.IsFormOf(s.value, needle);
    N.TableIsForms(secrets, needle, s.name);
    assert N.HasName(table, needle, s.name);
    var i :| 0 <= i < |table| && table[i].text == needle && s.name in table[i].names;
    OccurrenceIsMasked(table, text, pieces, i, at, p);
  }

  /** One of a value's several lines, stripped, is such a form when it is long enough. */
  lemma {:induction false} LongLineIsForm(secrets: seq<N.Secret>, s: N.Secret, a: N.Line, b: N.Line)
    requires s in secrets && a != b && N.IsLine(s.value, a) && N.IsLine(s.value, b)
    requires |N.Strip(s.value[a.start..a.end])| >= N.MIN_LINE_LENGTH
    ensures IsSecretForm(secrets, N.Strip(s.value[a.start..a.end]))
  {
    var line := N.Strip(s.value[a.start..a.end]);
    assert N.IsPart(s.value, line);
    assert N.IsFormOf(s.value, line);
  }

  /** A part of a value is masked in the JSON form of any longer string, either form, and
      whatever stands around that. */
  lemma {:induction false} PrintedInJsonIsMasked(secrets: seq<N.Secret>, s: N.Secret, part: string, ascii: bool,
                                                 pre: string, a: string, b: string, post: string,
                                                 pieces: seq<Piece>, p: nat)
    requires Accepted(secrets) && s in secrets && N.IsPart(s.value, part)
    requires IsRedaction(N.TableOf(secrets), pre + Escape(a + part + b, ascii) + post, pieces)
    requires |pre + Escape(a, ascii)| <= p < |pre + Escape(a, ascii)| + |Escape(part, ascii)|
    ensures p !in Verbatim(pieces)
  {
    hide IsRedaction, N.IsPart, Escape;
    var text := pre + Escape(a + part + b, ascii) + post;
    var needle := Escape(part, ascii);
    var at := |pre + Escape(a, ascii)|;
    EscapeJoins(a + part, b, ascii);
    EscapeJoins(a, part, ascii);
    assert text == (pre + Escape(a, ascii)) + needle + (Escape(b, ascii) + post);
    assert OccursAt(text, needle, at);
    assert N.IsFormOf(s.value, needle);
    SecretIsMasked(secrets, text, pieces, needle, at, p);
  }

  /** What a cut left of a needle is masked too: its first characters at the end of a line,
      at least four of them and more than any PEM armour it opens with. */
  lemma {:induction false} CutIsMasked(table: seq<N.Needle>, text: string, pieces: seq<Piece>, i: nat, c: Cut, s: Span, p: nat)
    requires Usable(table) && IsRedaction(table, text, pieces) && i < |table|
    requires IsCut(text, c.start, c.end) && EndsCut(text, table[i].text, c, s) && Covers(s, p)
    ensures p !in Verbatim(pieces)
  {
    hide IsRedaction, IsCut, EndsCut;
    assert Hits(text, table[i].text, s);
    VerbatimIffUnhit(table, text, pieces, p);
  }
}
