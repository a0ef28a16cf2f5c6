/** The window a switch loads, of `client/context_window.py`: where it opens, and what of it
    fits a budget. */
module ContextWindows {
  import opened Common
  import opened Conversations

  const TERMINAL_USER := "the terminal user"

  // ------------------------------------------------------------------- opening

  /** The clear a window opens after, with the line that led to it, and whether it empties
      the window. */
  datatype Opening = Opening(provider: string, at: Placed, clear: Record, leader: Option<Record>, discard: bool)

  /** Records before `start` are skipped and those from `resume` on are the window's own;
      what lies between belongs to the opening. */
  datatype Found = Found(opening: Option<Opening>, start: nat, resume: nat)

  const CLEAR_COMMAND := "<command-name>/clear</command-name>"

  predicate Contains(s: string, part: string) {
    part <= s || (s != "" && Contains(s[1..], part))
  }

  lemma {:induction false} ContainsIff(s: string, part: string)
    ensures Contains(s, part) <==> exists i :: 0 <= i <= |s| && part <= s[i..]
    decreases |s|
  {
    if part <= s {
      assert s[0..] == s;
    } else if s != "" {
      ContainsIff(s[1..], part);
      assert forall i :: 0 < i <= |s| ==> s[i..] == s[1..][i - 1..];
      if i :| 0 <= i <= |s[1..]| && part <= s[1..][i..] {
        assert part <= s[i + 1..];
      }
      if i :| 0 <= i <= |s| && part <= s[i..] {
        assert i > 0 && part <= s[1..][i - 1..];
      }
    }
  }

  predicate ClearsAt(records: seq<Record>, i: nat)
    requires i < |records|
  {
    records[i].User? && Contains(Text(records[i].content), CLEAR_COMMAND)
  }

  /** The clear command stands somewhere in the text of a user line. */
  ghost predicate HasClear(r: Record) {
    r.User? && r.content.Some? && exists i :: 0 <= i <= |r.content.value| && CLEAR_COMMAND <= r.content.value[i..]
  }

  lemma {:induction false} ClearsIff(records: seq<Record>, i: nat)
    requires i < |records|
    ensures ClearsAt(records, i) <==> HasClear(records[i])
  {
    if records[i].User? {
      ContainsIff(Text(records[i].content), CLEAR_COMMAND);
    }
  }

  /** Whether the command stands in a user line before the part's first answer. */
  method OpensWithClear(records: seq<Record>) returns (opens: bool)
    ensures opens <==> exists i :: 0 <= i < |records| && HasClear(records[i])
                                   && forall k :: 0 <= k < i ==> !records[k].Assistant? && !records[k].Call?
  {
    hide ClearsAt, Contains;
    for i := 0 to |records|
      invariant forall k :: 0 <= k < i ==> !records[k].Assistant? && !records[k].Call? && !HasClear(records[k])
    {
      ClearsIff(records, i);
      if Answers(records[i]) {
        return false;
      }
      if ClearsAt(records, i) {
        return true;
      }
    }
    return false;
  }

  predicate Summarizes(r: Record) {
    r.Clear? && r.summary.Some? && r.summary.value != ""
  }

  predicate FirstOfPart(order: seq<Placed>, at: nat)
    requires at < |order|
  {
    forall k :: 0 <= k < at ==> order[k].part != order[at].part
  }

  /** A window opens here: a clear that carries a summary, or the first record of a part
      begun by `/clear`. */
  predicate OpensAt(order: seq<Placed>, cleared: set<nat>, at: nat)
    requires at < |order|
  {
    Summarizes(order[at].record) || (FirstOfPart(order, at) && order[at].part in cleared)
  }

  function OpeningAt(order: seq<Placed>, at: nat): Found
    requires at < |order|
  {
    var each := order[at];
    if Summarizes(each.record) then
      var leads := at > 0 && order[at - 1].part == each.part && order[at - 1].record.Compaction?;
      Found(Some(Opening(each.provider, each, each.record, if leads then Some(order[at - 1].record) else None, false)),
            if leads then at - 1 else at, at + 1)
    else
      Found(Some(Opening(each.provider, each, Clear(None, None, []), None, true)), at, at)
  }

  ghost predicate LastOpening(order: seq<Placed>, cleared: set<nat>, at: nat) {
    && at < |order| && OpensAt(order, cleared, at)
    && forall k :: at < k < |order| ==> !OpensAt(order, cleared, k)
  }

  /** `_window_opening`: the window opens at the last record that can open one. */
  method WindowOpening(order: seq<Placed>, cleared: set<nat>) returns (found: Found)
    ensures (forall k :: 0 <= k < |order| ==> !OpensAt(order, cleared, k)) ==> found == Found(None, 0, 0)
    ensures forall at :: LastOpening(order, cleared, at) ==> found == OpeningAt(order, at)
  {
    found := Found(None, 0, 0);
    var seen: set<nat> := {};
    ghost var last := -1;
    for at := 0 to |order|
      invariant forall p :: p in seen <==> exists k :: 0 <= k < at && order[k].part == p
      invariant -1 <= last < at
      invariant last == -1 ==> found == Found(None, 0, 0)
      invariant last >= 0 ==> OpensAt(order, cleared, last) && found == OpeningAt(order, last)
      invariant forall k :: last < k < at ==> !OpensAt(order, cleared, k)
    {
      var each := order[at];
      var first := each.part !in seen;
      seen := seen + {each.part};
      if Summarizes(each.record) {
        var leads := at > 0 && order[at - 1].part == each.part && order[at - 1].record.Compaction?;
        var opening := Opening(each.provider, each, each.record, if leads then Some(order[at - 1].record) else None, false);
        found := Found(Some(opening), if leads then at - 1 else at, at + 1);
        last := at;
      } else if first && each.part in cleared {
        found := Found(Some(Opening(each.provider, each, Clear(None, None, []), None, true)), at, at);
        last := at;
      }
    }
  }

  /** What the cut makes of the order: what is skipped, the opening's own records, and what
      follows, which holds no summary the last model had already been given. A clear with a
      summary is kept with the compaction just before it in its part; a part begun by
      `/clear` is kept from its first record on. */
  lemma {:induction false} CutIsRight(order: seq<Placed>, cleared: set<nat>, at: nat)
    requires LastOpening(order, cleared, at)
    ensures var f := OpeningAt(order, at);
            && f.start <= f.resume <= |order|
            && order == order[..f.start] + order[f.start..f.resume] + order[f.resume..]
            && (forall k :: f.resume <= k < |order| && order[k].record.Clear? ==> Text(order[k].record.summary) == "")
            && (forall k :: f.resume < k < |order| && order[k].part in cleared ==>
                              exists j :: 0 <= j < k && order[j].part == order[k].part)
            && (f.start == f.resume <==> f.opening.value.discard)
            && f.opening.value.at == order[at] && f.opening.value.provider == order[at].provider
            && (f.opening.value.discard ==>
                  && f.resume == at && order[at].part in cleared && (forall k :: 0 <= k < at ==> order[k].part != order[at].part)
                  && f.opening.value.clear == Clear(None, None, []) && f.opening.value.leader.None?)
            && (!f.opening.value.discard ==>
                  && f.resume == at + 1 && f.opening.value.clear == order[at].record
                  && order[at].record.Clear? && Text(order[at].record.summary) != ""
                  && (f.opening.value.leader.Some? <==>
                      at > 0 && order[at - 1].part == order[at].part && order[at - 1].record.Compaction?)
                  && f.start == (if f.opening.value.leader.Some? then at - 1 else at)
                  && (f.opening.value.leader.Some? ==> order[f.start].record == f.opening.value.leader.value))
  {
    hide Contains;
    var f := OpeningAt(order, at);
    forall k | f.resume <= k < |order|
      ensures !Summarizes(order[k].record)
      ensures k > f.resume && order[k].part in cleared ==> !FirstOfPart(order, k)
    {
      assert k > at ==> !OpensAt(order, cleared, k);
    }
  }

  /** No window opens exactly when no clear carries a summary and no part of the order was
      begun by `/clear`. */
  lemma {:induction false} NoOpeningIff(order: seq<Placed>, cleared: set<nat>)
    ensures (forall k :: 0 <= k < |order| ==> !OpensAt(order, cleared, k)) <==>
            forall k :: 0 <= k < |order| ==>
                          order[k].part !in cleared && (order[k].record.Clear? ==> Text(order[k].record.summary) == "")
  {
    forall k | 0 <= k < |order| && order[k].part in cleared
      ensures exists i :: 0 <= i < |order| && OpensAt(order, cleared, i)
    {
      var i := FirstIn(order, k);
      assert OpensAt(order, cleared, i);
    }
    forall k | 0 <= k < |order| && order[k].record.Clear? && Text(order[k].record.summary) != ""
      ensures OpensAt(order, cleared, k)
    {
    }
  }

  /** The first record of the part that a record is in. */
  lemma {:induction false} FirstIn(order: seq<Placed>, k: nat) returns (i: nat)
    requires k < |order|
    ensures i <= k && order[i].part == order[k].part && FirstOfPart(order, i)
  {
    i := k;
    if j :| 0 <= j < k && order[j].part == order[k].part {
      i := FirstIn(order, j);
    }
  }

  // -------------------------------------------------------------------- window

  function Carried(o: Opening): seq<Placed> {
    CarriedUpTo(o, |Held(o)|)
  }

  /** The kept turns of an opening's clear. */
  function Held(o: Opening): seq<Record> {
    if o.clear.Clear? then o.clear.history else []
  }

  function CarriedUpTo(o: Opening, n: nat): seq<Placed>
    requires n <= |Held(o)|
  {
    if n == 0 then [] else CarriedUpTo(o, n - 1) + [o.at.(record := Held(o)[n - 1])]
  }

  /** A clear's kept turns are carried in order, each placed where the clear is. */
  lemma {:induction false} CarriedIs(o: Opening)
    requires o.clear.Clear?
    ensures |Carried(o)| == |o.clear.history|
    ensures forall i :: 0 <= i < |o.clear.history| ==> Carried(o)[i] == o.at.(record := o.clear.history[i])
  {
    CarriedAre(o, |Held(o)|);
  }

  lemma {:induction false} CarriedAre(o: Opening, n: nat)
    requires n <= |Held(o)|
    ensures |CarriedUpTo(o, n)| == n
    ensures forall i :: 0 <= i < n ==> CarriedUpTo(o, n)[i] == o.at.(record := Held(o)[i])
    decreases n
  {
    if n > 0 {
      CarriedAre(o, n - 1);
    }
  }

  datatype Window = Window(opening: Option<Opening>, history: seq<Placed>, records: seq<Placed>,
                           skipped: nat, lastSkipped: Option<(nat, nat)>)

  /** `window`, from the placed order: the history and the records are converted apart. */
  method MakeWindow(order: seq<Placed>, cleared: set<nat>) returns (w: Window)
    ensures (forall k :: 0 <= k < |order| ==> !OpensAt(order, cleared, k)) ==>
              w == Window(None, [], Neutral(order, TERMINAL_USER, ""), 0, None)
    ensures forall at :: LastOpening(order, cleared, at) ==>
              var f := OpeningAt(order, at);
              && w.opening == f.opening && w.skipped == f.start
              && w.history + w.records == Neutral(Carried(f.opening.value) + order[f.resume..], TERMINAL_USER, "")
              && w.history == Neutral(Carried(f.opening.value), TERMINAL_USER, "")
              && w.lastSkipped == if f.start > 0 then Some((order[f.start - 1].part, order[f.start - 1].idx)) else None
  {
    hide Neutral, LastAnswer, Carried;
    var found := WindowOpening(order, cleared);
    OpeningFound(order, cleared, found);
    var history := [];
    if found.opening.Some? {
      history := Neutralize(Carried(found.opening.value), TERMINAL_USER, "");
      OnePass(Carried(found.opening.value), order[found.resume..]);
    } else {
      assert order[0..] == order;
      NoAnswer();
    }
    var records := Neutralize(order[found.resume..], TERMINAL_USER, LastAnswer(history, ""));
    w := Window(found.opening, history, records, found.start,
                if found.start > 0 then Some((order[found.start - 1].part, order[found.start - 1].idx)) else None);
  }

  lemma {:induction false} NoAnswer()
    ensures LastAnswer([], "") == ""
  {
  }

  lemma {:induction false} OpeningFound(order: seq<Placed>, cleared: set<nat>, found: Found)
    requires (forall k :: 0 <= k < |order| ==> !OpensAt(order, cleared, k)) ==> found == Found(None, 0, 0)
    requires forall at :: LastOpening(order, cleared, at) ==> found == OpeningAt(order, at)
    ensures found.start <= found.resume <= |order|
    ensures found.opening.None? ==> found == Found(None, 0, 0)
  {
    if k :| 0 <= k < |order| && OpensAt(order, cleared, k) {
      var at := SomeLast(order, cleared, k);
      assert found == OpeningAt(order, at);
    }
  }

  lemma {:induction false} SomeLast(order: seq<Placed>, cleared: set<nat>, k: nat) returns (at: nat)
    requires k < |order| && OpensAt(order, cleared, k)
    ensures LastOpening(order, cleared, at)
    decreases |order| - k
  {
    at := k;
    if j :| k < j < |order| && OpensAt(order, cleared, j) {
      at := SomeLast(order, cleared, j);
    }
  }

  /** Converting the kept turns and the records apart gives the same conversation, switch
      markers included, as converting them in one pass. */
  lemma {:induction false} OnePass(carried: seq<Placed>, rest: seq<Placed>)
    ensures var history := Neutral(carried, TERMINAL_USER, "");
            history + Neutral(rest, TERMINAL_USER, LastAnswer(history, "")) == Neutral(carried + rest, TERMINAL_USER, "")
  {
    NeutralJoins(carried, rest, TERMINAL_USER, "");
    AnswererIsLast(carried, TERMINAL_USER, "");
  }

  // -------------------------------------------------------------------- weight

  /** How many bytes UTF-8 takes for one character, and for a text. */
  function Utf8(c: char): nat {
    if c as int < 0x80 then 1 else if c as int < 0x800 then 2 else if c as int < 0x10000 then 3 else 4
  }

  function Bytes(s: string): nat {
    if s == "" then 0 else Bytes(s[..|s| - 1]) + Utf8(s[|s| - 1])
  }

  function BytesAll(texts: seq<string>): nat {
    if texts == [] then 0 else BytesAll(texts[..|texts| - 1]) + Bytes(texts[|texts| - 1])
  }

  /** How many bytes of a record a target reads. */
  function Weight(r: Record): nat {
    match r
    case Call(_, _, name, arguments, _) => BytesAll([name, arguments])
    case Result(_, _, texts, _) => BytesAll(texts)
    case Clear(_, summary, _) => Bytes(Text(summary))
    case Person(_, content, _, _) => Bytes(Text(content))
    case User(_, content, _) => Bytes(Text(content))
    case Assistant(_, content, _) => Bytes(Text(content))
    case _ => 0
  }

  /** UTF-8, as section 3 of RFC 3629 defines it. */
  function Encoded(c: char): seq<int> {
    var n := c as int;
    if n < 0x80 then [n]
    else if n < 0x800 then [0xc0 + n / 64, 0x80 + n % 64]
    else if n < 0x10000 then [0xe0 + n / 4096, 0x80 + n / 64 % 64, 0x80 + n % 64]
    else [0xf0 + n / 262144, 0x80 + n / 4096 % 64, 0x80 + n / 64 % 64, 0x80 + n % 64]
  }

  function EncodedText(s: string): seq<int> {
    if s == "" then [] else EncodedText(s[..|s| - 1]) + Encoded(s[|s| - 1])
  }

  /** All the text of a record that a target reads. */
  function WholeText(r: Record): string {
    match r
    case Call(_, _, name, arguments, _) => name + arguments
    case Result(_, _, texts, _) => Flat(texts)
    case Clear(_, summary, _) => Text(summary)
    case Compaction(_, _) => ""
    case State(_, _, _, _) => ""
    case Switch(_, _, _) => ""
    case Other(_) => ""
    case Incomplete => ""
    case _ => Text(r.content)
  }

  function Flat(texts: seq<string>): string {
    if texts == [] then "" else Flat(texts[..|texts| - 1]) + texts[|texts| - 1]
  }

  lemma {:induction false} BytesAreEncoded(s: string)
    ensures Bytes(s) == |EncodedText(s)|
    decreases |s|
  {
    if s != "" {
      BytesAreEncoded(s[..|s| - 1]);
    }
  }

  lemma {:induction false} FlatBytes(texts: seq<string>)
    ensures BytesAll(texts) == Bytes(Flat(texts))
    decreases |texts|
  {
    if texts != [] {
      FlatBytes(texts[..|texts| - 1]);
      BytesJoin(Flat(texts[..|texts| - 1]), texts[|texts| - 1]);
    }
  }

  /** A record weighs as many bytes as the UTF-8 of all its text. */
  lemma {:induction false} WeightIsUtf8(r: Record)
    ensures Weight(r) == |EncodedText(WholeText(r))|
  {
    hide Bytes, EncodedText;
    BytesAreEncoded(WholeText(r));
    NothingWeighs();
    match r {
      case Call(_, _, name, arguments, _) =>
        BytesJoin(name, arguments);
        assert [name, arguments][..1] == [name] && [name][..0] == [];
        assert BytesAll([name]) == Bytes(name);
      case Result(_, _, texts, _) => FlatBytes(texts);
      case _ =>
    }
  }

  lemma {:induction false} NothingWeighs()
    ensures Bytes("") == 0
  {
  }

  function Total(records: seq<Record>): nat {
    if records == [] then 0 else Total(records[..|records| - 1]) + Weight(records[|records| - 1])
  }

  function Records(body: seq<Placed>): seq<Record> {
    seq(|body|, i requires 0 <= i < |body| => body[i].record)
  }

  function Weigh(body: seq<Placed>): nat {
    Total(Records(body))
  }

  lemma {:induction false} TotalJoins(a: seq<Record>, b: seq<Record>)
    ensures Total(a + b) == Total(a) + Total(b)
    decreases |b|
  {
    if b == [] {
      assert a + b == a;
    } else {
      assert (a + b)[..|a + b| - 1] == a + b[..|b| - 1];
      TotalJoins(a, b[..|b| - 1]);
    }
  }

  lemma {:induction false} WeighJoins(a: seq<Placed>, b: seq<Placed>)
    ensures Weigh(a + b) == Weigh(a) + Weigh(b)
  {
    assert Records(a + b) == Records(a) + Records(b);
    TotalJoins(Records(a), Records(b));
  }

  lemma {:induction false} TotalOne(r: Record)
    ensures Total([r]) == Weight(r)
  {
    assert [r][..0] == [];
  }

  // -------------------------------------------------------------- what is kept

  /** `start` is the longest suffix that fits: none that is longer does. */
  ghost predicate LongestFit(records: seq<Record>, start: nat, room: int) {
    && start <= |records|
    && (start < |records| ==> Total(records[start..]) <= room)
    && forall k :: 0 <= k < start ==> Total(records[k..]) > room
  }

  /** `_newest` */
  method Newest(records: seq<Record>, room: int) returns (start: nat)
    ensures LongestFit(records, start, room)
  {
    var used := 0;
    start := |records|;
    while start > 0 && used + Weight(records[start - 1]) <= room
      invariant start <= |records| && used == Total(records[start..]) && (start < |records| ==> used <= room)
    {
      SuffixCons(records, start - 1);
      used := used + Weight(records[start - 1]);
      start := start - 1;
    }
    if start > 0 {
      SuffixCons(records, start - 1);
      LongerWeighsMore(records, start - 1);
    }
  }

  lemma {:induction false} SuffixCons(records: seq<Record>, k: nat)
    requires k < |records|
    ensures Total(records[k..]) == Weight(records[k]) + Total(records[k + 1..])
  {
    assert records[k..] == [records[k]] + records[k + 1..];
    TotalJoins([records[k]], records[k + 1..]);
    TotalOne(records[k]);
  }

  lemma {:induction false} LongerWeighsMore(records: seq<Record>, start: nat)
    requires start <= |records|
    ensures forall k :: 0 <= k <= start ==> Total(records[k..]) >= Total(records[start..])
  {
    forall k | 0 <= k <= start
      ensures Total(records[k..]) >= Total(records[start..])
    {
      assert records[k..] == records[k..start] + records[start..];
      TotalJoins(records[k..start], records[start..]);
    }
  }

  // --------------------------------------------------------------------- turns

  /** Where a turn starts: at a person's line, or at the beginning. */
  predicate StartsTurn(body: seq<Placed>, i: nat)
    requires i < |body|
  {
    i == 0 || body[i].record.Person?
  }

  /** Where the turn before `end` starts. */
  function TurnStart(body: seq<Placed>, end: nat): (start: nat)
    requires 0 < end <= |body|
    ensures start < end && StartsTurn(body, start)
    ensures forall k :: start < k < end ==> !StartsTurn(body, k)
  {
    if StartsTurn(body, end - 1) then end - 1 else TurnStart(body, end - 1)
  }

  /** The newest whole turns that fit: where they start. */
  ghost predicate WholeTurns(body: seq<Placed>, start: nat, room: int) {
    && start <= |body|
    && (start < |body| ==> (start == 0 || body[start].record.Person?) && Weigh(body[start..]) <= room)
    && forall k :: 0 <= k < start && (k == 0 || body[k].record.Person?) ==> Weigh(body[k..]) > room
  }

  method NewestTurns(body: seq<Placed>, room: int) returns (start: nat)
    ensures WholeTurns(body, start, room)
  {
    var used := 0;
    start := |body|;
    while start > 0
      invariant start <= |body| && used == Weigh(body[start..])
      invariant start < |body| ==> StartsTurn(body, start) && used <= room
    {
      var from := TurnStart(body, start);
      var turn := body[from..start];
      JoinTurn(body, from, start);
      if used + Weigh(turn) > room {
        LongerBodyWeighsMore(body, from);
        forall k | 0 <= k < start && StartsTurn(body, k)
          ensures Weigh(body[k..]) > room
        {
          assert k <= from;
        }
        return;
      }
      used := used + Weigh(turn);
      start := from;
    }
  }

  lemma {:induction false} JoinTurn(body: seq<Placed>, from: nat, start: nat)
    requires from <= start <= |body|
    ensures Weigh(body[from..]) == Weigh(body[from..start]) + Weigh(body[start..])
  {
    assert body[from..] == body[from..start] + body[start..];
    WeighJoins(body[from..start], body[start..]);
  }

  lemma {:induction false} LongerBodyWeighsMore(body: seq<Placed>, start: nat)
    requires start <= |body|
    ensures forall k :: 0 <= k <= start ==> Weigh(body[k..]) >= Weigh(body[start..])
  {
    forall k | 0 <= k <= start
      ensures Weigh(body[k..]) >= Weigh(body[start..])
    {
      JoinTurn(body, k, start);
    }
  }

  // ------------------------------------------------- a newest turn that is too big

  /** The records at the kept positions, in order, and their weight. */
  function Select(turn: seq<Placed>, keep: set<nat>): seq<Placed> {
    if turn == [] then []
    else Select(turn[..|turn| - 1], keep) + if |turn| - 1 in keep then [turn[|turn| - 1]] else []
  }

  function Heft(turn: seq<Placed>, keep: set<nat>): nat {
    if turn == [] then 0
    else Heft(turn[..|turn| - 1], keep) + if |turn| - 1 in keep then Weight(turn[|turn| - 1].record) else 0
  }

  lemma {:induction false} SelectWeighs(turn: seq<Placed>, keep: set<nat>)
    ensures Weigh(Select(turn, keep)) == Heft(turn, keep)
    decreases |turn|
  {
    if turn != [] {
      var init, last := turn[..|turn| - 1], turn[|turn| - 1];
      SelectWeighs(init, keep);
      WeighJoins(Select(init, keep), [last]);
      assert Records([last]) == [last.record];
      TotalOne(last.record);
      assert Select(init, keep) + [] == Select(init, keep);
    }
  }

  lemma {:induction false} HeftGrows(turn: seq<Placed>, keep: set<nat>, i: nat)
    requires i < |turn|
    ensures Heft(turn, keep + {i}) <= Heft(turn, keep) + Weight(turn[i].record)
    decreases |turn|
  {
    if i < |turn| - 1 {
      HeftGrows(turn[..|turn| - 1], keep, i);
    } else {
      HeftSame(turn[..|turn| - 1], keep, keep + {i});
    }
  }

  lemma {:induction false} HeftSame(turn: seq<Placed>, a: set<nat>, b: set<nat>)
    requires forall i: nat :: i < |turn| ==> (i in a <==> i in b)
    ensures Heft(turn, a) == Heft(turn, b)
    decreases |turn|
  {
    if turn != [] {
      HeftSame(turn[..|turn| - 1], a, b);
    }
  }

  /** The last answer in the turn, and the last result of a call. */
  function AnswerAt(turn: seq<Placed>): (at: Option<nat>)
    ensures at.Some? ==> at.value < |turn| && turn[at.value].record.Assistant?
                         && forall k :: at.value < k < |turn| ==> !turn[k].record.Assistant?
    ensures at.None? ==> forall k :: 0 <= k < |turn| ==> !turn[k].record.Assistant?
  {
    if turn == [] then None
    else if turn[|turn| - 1].record.Assistant? then Some(|turn| - 1)
    else AnswerAt(turn[..|turn| - 1])
  }

  function ResultAt(turn: seq<Placed>, callId: string): (at: Option<nat>)
    ensures at.Some? ==>
              && at.value < |turn| && turn[at.value].record.Result? && turn[at.value].record.callId == callId
              && forall k :: at.value < k < |turn| && turn[k].record.Result? ==> turn[k].record.callId != callId
    ensures at.None? ==> forall k :: 0 <= k < |turn| ==> !(turn[k].record.Result? && turn[k].record.callId == callId)
  {
    if turn == [] then None
    else if turn[|turn| - 1].record.Result? && turn[|turn| - 1].record.callId == callId then Some(|turn| - 1)
    else ResultAt(turn[..|turn| - 1], callId)
  }

  /** What is kept whatever it weighs: the person's line and the last answer. */
  function Sure(turn: seq<Placed>): set<nat> {
    (if turn != [] && turn[0].record.Person? then {0} else {})
    + (if AnswerAt(turn).Some? then {AnswerAt(turn).value} else {})
  }

  /** A call and its result, if the turn has one. */
  function Pair(turn: seq<Placed>, i: nat): set<nat>
    requires i < |turn| && turn[i].record.Call?
  {
    {i} + if ResultAt(turn, turn[i].record.callId).Some? then {ResultAt(turn, turn[i].record.callId).value} else {}
  }

  function PairWeight(turn: seq<Placed>, i: nat): nat
    requires i < |turn| && turn[i].record.Call?
  {
    var result := ResultAt(turn, turn[i].record.callId);
    Weight(turn[i].record) + if result.Some? then Weight(turn[result.value].record) else 0
  }

  /** The weight of the calls from `i` on, each with its result. */
  function PairsWeight(turn: seq<Placed>, i: nat): nat
    requires i <= |turn|
    decreases |turn| - i
  {
    if i == |turn| then 0
    else PairsWeight(turn, i + 1) + if turn[i].record.Call? then PairWeight(turn, i) else 0
  }

  /** Kept are the sure records and, from `cut` on, every call with its result. */
  ghost predicate TrimmedAt(turn: seq<Placed>, keep: set<nat>, cut: nat) {
    && cut <= |turn|
    && Sure(turn) <= keep
    && (forall i :: cut <= i < |turn| && turn[i].record.Call? ==> Pair(turn, i) <= keep)
    && (forall k :: k in keep ==> k in Sure(turn) || exists i :: cut <= i < |turn| && turn[i].record.Call? && k in Pair(turn, i))
  }

  lemma {:induction false} TrimStep(turn: seq<Placed>, keep: set<nat>, i: nat)
    requires i < |turn| && TrimmedAt(turn, keep, i + 1)
    ensures TrimmedAt(turn, if turn[i].record.Call? then keep + Pair(turn, i) else keep, i)
  {
    hide Pair, Sure;
    var more := if turn[i].record.Call? then keep + Pair(turn, i) else keep;
    forall k | k in more
      ensures k in Sure(turn) || exists j :: i <= j < |turn| && turn[j].record.Call? && k in Pair(turn, j)
    {
      if k in keep && k !in Sure(turn) {
        var j :| i + 1 <= j < |turn| && turn[j].record.Call? && k in Pair(turn, j);
      }
    }
  }

  /** There is a call from `i` on. */
  ghost predicate CallsFrom(turn: seq<Placed>, i: nat) {
    exists k :: i <= k < |turn| && turn[k].record.Call?
  }

  /** The kept records with the line, the answer and the newest calls that fit: an older
      call does not. */
  ghost predicate TrimOk(turn: seq<Placed>, room: int, keep: set<nat>, cut: nat) {
    && cut <= |turn| && TrimmedAt(turn, keep, cut)
    && Heft(turn, keep) <= Heft(turn, Sure(turn)) + PairsWeight(turn, cut)
    && (CallsFrom(turn, cut) ==> Heft(turn, Sure(turn)) + PairsWeight(turn, cut) <= room)
    && (!CallsFrom(turn, cut) ==> PairsWeight(turn, cut) == 0)
    && (forall i :: 0 <= i < cut && turn[i].record.Call? ==> Heft(turn, Sure(turn)) + PairsWeight(turn, i) > room)
  }

  /** `_trimmed`: as many of the newest calls as fit beside the line and the answer. */
  method Trimmed(turn: seq<Placed>, room: int) returns (keep: set<nat>)
    ensures exists cut :: TrimOk(turn, room, keep, cut)
  {
    hide TrimmedAt, Sure, Heft, Pair, PairWeight;
    keep := Sure(turn);
    NothingTrimmed(turn);
    var used := Heft(turn, keep);
    var i := |turn|;
    while i > 0
      invariant 0 <= i <= |turn| && TrimmedAt(turn, keep, i)
      invariant used == Heft(turn, Sure(turn)) + PairsWeight(turn, i) && Heft(turn, keep) <= used
      invariant CallsFrom(turn, i) ==> used <= room
      invariant !CallsFrom(turn, i) ==> PairsWeight(turn, i) == 0
    {
      TrimStep(turn, keep, i - 1);
      if turn[i - 1].record.Call? {
        if used + PairWeight(turn, i - 1) > room {
          OlderPairsWeighMore(turn, i - 1);
          assert TrimOk(turn, room, keep, i);
          return;
        }
        AddPair(turn, keep, i - 1);
        used := used + PairWeight(turn, i - 1);
        keep := keep + Pair(turn, i - 1);
      }
      i := i - 1;
    }
    assert TrimOk(turn, room, keep, 0);
  }

  lemma {:induction false} NothingTrimmed(turn: seq<Placed>)
    ensures TrimmedAt(turn, Sure(turn), |turn|)
  {
  }

  lemma {:induction false} AddPair(turn: seq<Placed>, keep: set<nat>, i: nat)
    requires i < |turn| && turn[i].record.Call?
    ensures Heft(turn, keep + Pair(turn, i)) <= Heft(turn, keep) + PairWeight(turn, i)
  {
    HeftGrows(turn, keep, i);
    var result := ResultAt(turn, turn[i].record.callId);
    if result.Some? {
      HeftGrows(turn, keep + {i}, result.value);
      assert keep + {i} + {result.value} == keep + Pair(turn, i);
    } else {
      assert keep + {i} == keep + Pair(turn, i);
    }
  }

  lemma {:induction false} OlderPairsWeighMore(turn: seq<Placed>, i: nat)
    requires i <= |turn|
    ensures forall k :: 0 <= k <= i ==> PairsWeight(turn, k) >= PairsWeight(turn, i)
    decreases i
  {
    if i > 0 {
      OlderPairsWeighMore(turn, i - 1);
    }
  }

  /** A trimmed turn keeps no result without its call. */
  lemma {:induction false} NoResultAlone(turn: seq<Placed>, keep: set<nat>, cut: nat, k: nat)
    requires TrimmedAt(turn, keep, cut) && k in keep && turn[k].record.Result?
    ensures exists i :: i in keep && i < |turn| && turn[i].record.Call? && turn[i].record.callId == turn[k].record.callId
  {
    assert k !in Sure(turn);
    var i :| cut <= i < |turn| && turn[i].record.Call? && k in Pair(turn, i);
    assert i in Pair(turn, i);
  }

  /** What a trimmed turn keeps: its person's line, its last answer, every call from the cut
      on, and the last result of each of those. */
  lemma {:induction false} TrimmedKeepsIff(turn: seq<Placed>, keep: set<nat>, cut: nat, k: nat)
    requires TrimmedAt(turn, keep, cut) && k < |turn|
    ensures var r := turn[k].record;
            k in keep <==>
            || (r.Person? && k == 0)
            || (r.Assistant? && forall j :: k < j < |turn| ==> !turn[j].record.Assistant?)
            || (r.Call? && cut <= k)
            || (r.Result? && (forall j :: k < j < |turn| && turn[j].record.Result? ==> turn[j].record.callId != r.callId)
                && exists i :: cut <= i < |turn| && turn[i].record.Call? && turn[i].record.callId == r.callId)
  {
    hide Sure, Pair;
    SureIs(turn, k);
    forall i | cut <= i < |turn| && turn[i].record.Call?
      ensures k in Pair(turn, i) <==> k == i || IsResultOf(turn, k, turn[i].record.callId)
    {
      PairIs(turn, i, k);
    }
    if k in keep && k !in Sure(turn) {
      var i :| cut <= i < |turn| && turn[i].record.Call? && k in Pair(turn, i);
      assert k == i || IsResultOf(turn, k, turn[i].record.callId);
    }
  }

  /** The last result of a call in the turn. */
  predicate IsResultOf(turn: seq<Placed>, k: nat, callId: string)
    requires k < |turn|
  {
    && turn[k].record.Result? && turn[k].record.callId == callId
    && forall j :: k < j < |turn| && turn[j].record.Result? ==> turn[j].record.callId != callId
  }

  lemma {:induction false} SureIs(turn: seq<Placed>, k: nat)
    requires k < |turn|
    ensures k in Sure(turn) <==>
            || (turn[k].record.Person? && k == 0)
            || (turn[k].record.Assistant? && forall j :: k < j < |turn| ==> !turn[j].record.Assistant?)
  {
    hide AnswerAt;
    var at := AnswerAt(turn);
    if at.Some? && at.value < k {
      assert !turn[k].record.Assistant?;
    }
  }

  lemma {:induction false} PairIs(turn: seq<Placed>, i: nat, k: nat)
    requires i < |turn| && k < |turn| && turn[i].record.Call?
    ensures k in Pair(turn, i) <==> k == i || IsResultOf(turn, k, turn[i].record.callId)
  {
    hide ResultAt;
    var at := ResultAt(turn, turn[i].record.callId);
    if at.Some? && at.value < k {
      assert !IsResultOf(turn, at.value, turn[i].record.callId) || !IsResultOf(turn, k, turn[i].record.callId);
    }
  }

  // ---------------------------------------------------------------- the budget

  datatype Budget = Budget(fitBytes: nat, maxBytes: nat)

  datatype Fit = Fit(carried: seq<Record>, body: seq<Placed>, dropped: nat, lastDropped: Option<(nat, nat)>,
                     weight: nat, compact: bool)

  /** The positions from `start` up to `n`. */
  function From(start: nat, n: nat): (r: set<nat>)
    ensures forall i: nat :: i in r <==> start <= i < n
  {
    if n <= start then {} else From(start, n - 1) + {n - 1}
  }

  lemma {:induction false} SelectFrom(body: seq<Placed>, start: nat)
    requires start <= |body|
    ensures Select(body, From(start, |body|)) == body[start..]
    decreases |body|
  {
    if start < |body| {
      var init, last := body[..|body| - 1], body[|body| - 1];
      SelectFrom(init, start);
      SelectSame(init, From(start, |init|), From(start, |body|));
      assert body[start..] == init[start..] + [last];
    } else {
      SelectNone(body, From(start, |body|));
      assert body[start..] == [];
    }
  }

  lemma {:induction false} SelectSame(turn: seq<Placed>, a: set<nat>, b: set<nat>)
    requires forall i: nat :: i < |turn| ==> (i in a <==> i in b)
    ensures Select(turn, a) == Select(turn, b)
    decreases |turn|
  {
    if turn != [] {
      SelectSame(turn[..|turn| - 1], a, b);
    }
  }

  lemma {:induction false} SelectNone(turn: seq<Placed>, keep: set<nat>)
    requires forall i: nat :: i < |turn| ==> i !in keep
    ensures Select(turn, keep) == []
    decreases |turn|
  {
    if turn != [] {
      SelectNone(turn[..|turn| - 1], keep);
    }
  }

  /** The positions of a turn that starts at `from`, as positions of the body. */
  function Shifted(keep: set<nat>, from: nat): set<nat> {
    set k | k in keep :: from + k
  }

  lemma {:induction false} SelectShifted(body: seq<Placed>, from: nat, keep: set<nat>)
    requires from <= |body|
    ensures Select(body, Shifted(keep, from)) == Select(body[from..], keep)
    decreases |body|
  {
    if from == |body| {
      SelectNone(body, Shifted(keep, from));
    } else {
      var init, last := body[..|body| - 1], body[|body| - 1];
      SelectShifted(init, from, keep);
      assert body[from..] == init[from..] + [last];
      assert body[from..][..|body| - from - 1] == init[from..];
      assert |body| - 1 in Shifted(keep, from) <==> |body| - 1 - from in keep;
    }
  }

  /** What is kept of the body: the newest whole turns that fit, or a trimmed newest turn. */
  ghost predicate BodyKept(body: seq<Placed>, room: int, keep: set<nat>) {
    exists start :: BodyKeptFrom(body, room, keep, start)
  }

  ghost predicate BodyKeptFrom(body: seq<Placed>, room: int, keep: set<nat>, start: nat) {
    && WholeTurns(body, start, room)
    && if start < |body| || body == [] then keep == From(start, |body|)
       else
         var from := TurnStart(body, |body|);
         exists k, cut :: keep == Shifted(k, from) && TrimOk(body[from..], room, k, cut)
  }

  /** The weight of the newest turn's person line and last answer. */
  function SureWeight(body: seq<Placed>): nat {
    if body == [] then 0 else Heft(body[TurnStart(body, |body|)..], Sure(body[TurnStart(body, |body|)..]))
  }

  /** `_turns`, by the positions it keeps. */
  method Turns(body: seq<Placed>, room: int) returns (keep: set<nat>)
    ensures BodyKept(body, room, keep)
  {
    hide TrimOk, WholeTurns;
    var start := NewestTurns(body, room);
    if start < |body| || body == [] {
      keep := From(start, |body|);
      assert BodyKeptFrom(body, room, keep, start);
    } else {
      WholeBound(body, start, room);
      var from := TurnStart(body, |body|);
      var k := Trimmed(body[from..], room);
      keep := Shifted(k, from);
      assert BodyKeptFrom(body, room, keep, start);
    }
  }

  lemma {:induction false} WholeBound(body: seq<Placed>, start: nat, room: int)
    requires WholeTurns(body, start, room)
    ensures start <= |body|
  {
  }

  lemma {:induction false} KeptWeighs(body: seq<Placed>, room: int, keep: set<nat>)
    requires BodyKept(body, room, keep)
    ensures Weigh(Select(body, keep)) <= room || Weigh(Select(body, keep)) <= SureWeight(body)
  {
    hide TrimmedAt, Sure, Pair, PairsWeight;
    var start: nat :| BodyKeptFrom(body, room, keep, start);
    if start < |body| || body == [] {
      SelectFrom(body, start);
    } else {
      var from := TurnStart(body, |body|);
      var k, cut: nat :| keep == Shifted(k, from) && TrimOk(body[from..], room, k, cut);
      SelectShifted(body, from, k);
      SelectWeighs(body[from..], k);
    }
  }

  lemma {:induction false} SelectCounts(body: seq<Placed>, keep: set<nat>)
    ensures |Select(body, keep)| <= |body|
    decreases |body|
  {
    if body != [] {
      SelectCounts(body[..|body| - 1], keep);
    }
  }

  /** The newest position that is not kept. */
  method NewestDropped(body: seq<Placed>, keep: set<nat>) returns (at: Option<nat>)
    ensures at.Some? ==> at.value < |body| && at.value !in keep && forall k: nat :: at.value < k < |body| ==> k in keep
    ensures at.None? ==> forall k: nat :: k < |body| ==> k in keep
  {
    var i := |body|;
    while i > 0
      invariant i <= |body| && forall k: nat :: i <= k < |body| ==> k in keep
    {
      if i - 1 !in keep {
        return Some(i - 1);
      }
      i := i - 1;
    }
    return None;
  }

  function Whole(summary: nat, carried: seq<Record>, body: seq<Placed>): nat {
    summary + Total(carried) + Weigh(body)
  }

  function Max(a: int, b: int): int {
    if a < b then b else a
  }

  /** `_fitted`: everything when it fits; else the longest fitting suffix of the opening's
      turns, and then of the body's whole turns. */
  method Fitted(summary: nat, carried: seq<Record>, body: seq<Placed>, limits: Budget)
    returns (fit: Fit, ghost start: nat, ghost keep: set<nat>)
    ensures Whole(summary, carried, body) <= limits.maxBytes ==>
              fit == Fit(carried, body, 0, None, Whole(summary, carried, body), Whole(summary, carried, body) > limits.fitBytes)
    ensures Whole(summary, carried, body) > limits.maxBytes ==>
              && LongestFit(carried, start, limits.maxBytes - summary)
              && BodyKept(body, limits.maxBytes - summary - Total(carried[start..]), keep)
              && fit.carried == carried[start..] && fit.body == Select(body, keep) && fit.compact
              && (fit.lastDropped == None ==> fit.body == body)
              && (fit.lastDropped.Some? ==>
                    exists at: nat :: at < |body| && at !in keep && fit.lastDropped.value == (body[at].part, body[at].idx)
                                      && forall k: nat :: at < k < |body| ==> k in keep)
    ensures fit.weight == Whole(summary, fit.carried, fit.body)
    ensures fit.weight <= Max(limits.maxBytes, summary + Total(fit.carried) + SureWeight(body))
    ensures |fit.carried| + |fit.body| + fit.dropped == |carried| + |body|
  {
    hide LongestFit, BodyKept, Select, SureWeight;
    var total := Whole(summary, carried, body);
    start, keep := 0, From(0, |body|);
    if total <= limits.maxBytes {
      fit := Fit(carried, body, 0, None, total, total > limits.fitBytes);
      return;
    }
    var room := limits.maxBytes - summary;
    var from := Newest(carried, room);
    start := from;
    FitBound(carried, start, room);
    room := room - Total(carried[from..]);
    var kept := Turns(body, room);
    keep := kept;
    var at := NewestDropped(body, kept);
    var selected := Select(body, kept);
    SelectCounts(body, kept);
    KeptWeighs(body, room, kept);
    if at.None? {
      SelectFrom(body, 0);
      SelectSame(body, kept, From(0, |body|));
      assert body[0..] == body;
    }
    fit := Fit(carried[from..], selected, from + |body| - |selected|,
               if at.None? then None else Some((body[at.value].part, body[at.value].idx)),
               Whole(summary, carried[from..], selected), true);
  }

  lemma {:induction false} FitBound(records: seq<Record>, start: nat, room: int)
    requires LongestFit(records, start, room)
    ensures start <= |records|
  {
  }

  // ------------------------------------------------------------------- a long text

  const CUT_ABOVE := 16_000

  const HEAD := 10_000

  const TAIL := 4_000

  function Decimal(n: nat): string {
    (if n < 10 then "" else Decimal(n / 10)) + [('0' as int + n % 10) as char]
  }

  /** How many characters the first `room` bytes hold whole. */
  function HeadLength(s: string, room: nat): (n: nat)
    ensures n <= |s|
  {
    if Bytes(s) <= room then |s| else HeadLength(s[..|s| - 1], room)
  }

  /** Where the characters start that the last `room` bytes hold whole. */
  function TailStart(s: string, room: nat): (n: nat)
    ensures n <= |s|
  {
    if Bytes(s) <= room then 0 else 1 + TailStart(s[1..], room)
  }

  /** The head is the longest that fits, and one character more would not. */
  lemma {:induction false} HeadFits(s: string, room: nat)
    ensures Bytes(s[..HeadLength(s, room)]) <= room
    ensures HeadLength(s, room) < |s| ==> Bytes(s[..HeadLength(s, room) + 1]) > room
    decreases |s|
  {
    var n := HeadLength(s, room);
    if Bytes(s) <= room {
      assert s[..|s|] == s;
    } else {
      var init := s[..|s| - 1];
      HeadFits(init, room);
      assert init[..n] == s[..n];
      if n < |init| {
        assert init[..n + 1] == s[..n + 1];
      } else {
        assert s[..n + 1] == s;
      }
    }
  }

  /** So is the tail. */
  lemma {:induction false} TailFits(s: string, room: nat)
    ensures Bytes(s[TailStart(s, room)..]) <= room
    ensures TailStart(s, room) > 0 ==> Bytes(s[TailStart(s, room) - 1..]) > room
    decreases |s|
  {
    var n := TailStart(s, room);
    if Bytes(s) <= room {
      assert s[0..] == s;
    } else {
      TailFits(s[1..], room);
      assert s[1..][n - 1..] == s[n..];
      if n > 1 {
        assert s[1..][n - 2..] == s[n - 1..];
      } else {
        assert s[0..] == s;
      }
    }
  }

  function Marker(n: nat): string {
    "[... " + Decimal(n) + " bytes cut ...]"
  }

  /** `cut_text`: a character that a cut would split is left out whole. */
  function CutText(s: string): string {
    if Bytes(s) <= CUT_ABOVE then s
    else s[..HeadLength(s, HEAD)] + Marker(Bytes(s) - HEAD - TAIL) + s[TailStart(s, TAIL)..]
  }

  lemma {:induction false} BytesJoin(a: string, b: string)
    ensures Bytes(a + b) == Bytes(a) + Bytes(b)
    decreases |b|
  {
    if b == "" {
      assert a + b == a;
    } else {
      assert (a + b)[..|a + b| - 1] == a + b[..|b| - 1];
      BytesJoin(a, b[..|b| - 1]);
    }
  }

  lemma {:induction false} DecimalBytes(n: nat)
    ensures Bytes(Decimal(n)) == |Decimal(n)|
  {
    var last := [('0' as int + n % 10) as char];
    assert Bytes(last) == 1 by {
      assert last[..0] == "";
    }
    if n >= 10 {
      DecimalBytes(n / 10);
      BytesJoin(Decimal(n / 10), last);
    } else {
      assert "" + last == last;
    }
  }

  lemma {:induction false} AsciiBytes(s: string)
    requires forall i :: 0 <= i < |s| ==> s[i] as int < 0x80
    ensures Bytes(s) == |s|
  {
    if s != "" {
      AsciiBytes(s[..|s| - 1]);
    }
  }

  lemma {:induction false} MarkerBytes(n: nat)
    ensures Bytes(Marker(n)) == 20 + |Decimal(n)|
  {
    AsciiBytes("[... ");
    AsciiBytes(" bytes cut ...]");
    DecimalBytes(n);
    BytesJoin("[... ", Decimal(n));
    BytesJoin("[... " + Decimal(n), " bytes cut ...]");
  }

  /** A cut text keeps the two ends it names, which do not meet, and is not much longer than
      they are. */
  lemma {:induction false} CutIsBounded(s: string)
    requires Bytes(s) > CUT_ABOVE
    ensures HeadLength(s, HEAD) <= TailStart(s, TAIL)
    ensures Bytes(CutText(s)) <= HEAD + TAIL + 20 + |Decimal(Bytes(s) - HEAD - TAIL)|
  {
    hide Bytes, HeadLength, TailStart, Marker, Decimal;
    HeadFits(s, HEAD);
    TailFits(s, TAIL);
    var h, t := HeadLength(s, HEAD), TailStart(s, TAIL);
    var marker := Marker(Bytes(s) - HEAD - TAIL);
    MarkerBytes(Bytes(s) - HEAD - TAIL);
    BytesJoin(s[..h], marker);
    BytesJoin(s[..h] + marker, s[t..]);
    if h > t {
      assert s == s[..t] + s[t..];
      BytesJoin(s[..t], s[t..]);
      assert s[..h] == s[..t] + s[t..h];
      BytesJoin(s[..t], s[t..h]);
    }
  }

  /** The text is cut to its two ends with a marker between them that names the number. */
  ghost predicate Names(s: string, named: nat) {
    CutText(s) == s[..HeadLength(s, HEAD)] + "[... " + Decimal(named) + " bytes cut ...]" + s[TailStart(s, TAIL)..]
  }

  lemma {:induction false} CutNames(s: string)
    requires Bytes(s) > CUT_ABOVE
    ensures Names(s, Bytes(s) - HEAD - TAIL)
  {
    hide Bytes, HeadLength, TailStart, Decimal;
    var h, t, number := s[..HeadLength(s, HEAD)], s[TailStart(s, TAIL)..], Decimal(Bytes(s) - HEAD - TAIL);
    assert h + ("[... " + number + " bytes cut ...]") + t == h + "[... " + number + " bytes cut ...]" + t;
  }

  /** The number that decimal digits name. */
  function Reads(digits: string): int {
    if digits == "" then 0 else 10 * Reads(digits[..|digits| - 1]) + (digits[|digits| - 1] as int - '0' as int)
  }

  function Digit(n: nat): (c: char)
    requires n < 10
    ensures '0' <= c <= '9' && c as int - '0' as int == n && (n > 0 ==> c != '0')
  {
    ('0' as int + n) as char
  }

  lemma {:induction false} DecimalSnoc(n: nat)
    ensures Decimal(n) == (if n < 10 then "" else Decimal(n / 10)) + [Digit(n % 10)]
  {
  }

  /** A number is written in decimal digits, with none too many. */
  lemma {:induction false} DecimalReads(n: nat)
    ensures Reads(Decimal(n)) == n
    ensures forall i :: 0 <= i < |Decimal(n)| ==> '0' <= Decimal(n)[i] <= '9'
    ensures Decimal(n) != "" && (n > 0 ==> Decimal(n)[0] != '0')
  {
    hide Decimal, Reads, Digit;
    DecimalSnoc(n);
    var before := if n < 10 then "" else Decimal(n / 10);
    if n >= 10 {
      DecimalReads(n / 10);
    }
    ReadsSnoc(before, Digit(n % 10));
    NoDigits();
  }

  lemma {:induction false} NoDigits()
    ensures Reads("") == 0
  {
  }

  lemma {:induction false} ReadsSnoc(digits: string, digit: char)
    ensures Reads(digits + [digit]) == 10 * Reads(digits) + (digit as int - '0' as int)
  {
    assert (digits + [digit])[..|digits|] == digits;
  }

  /** So a cut text names one number. */
  lemma {:induction false} NamesOne(s: string, a: nat, b: nat)
    requires Names(s, a) && Names(s, b)
    ensures a == b
  {
    hide CutText, HeadLength, TailStart, Decimal;
    DecimalReads(a);
    DecimalReads(b);
    var head, tail := s[..HeadLength(s, HEAD)] + "[... ", " bytes cut ...]" + s[TailStart(s, TAIL)..];
    SameMiddle(head, Decimal(a), Decimal(b), tail);
    assert head + Decimal(a) + tail == s[..HeadLength(s, HEAD)] + "[... " + Decimal(a) + " bytes cut ...]" + s[TailStart(s, TAIL)..];
    assert head + Decimal(b) + tail == s[..HeadLength(s, HEAD)] + "[... " + Decimal(b) + " bytes cut ...]" + s[TailStart(s, TAIL)..];
  }

  lemma {:induction false} SameMiddle(head: string, a: string, b: string, tail: string)
    ensures head + a + tail == head + b + tail ==> a == b
  {
    if head + a + tail == head + b + tail {
      assert |a| == |b|;
      assert a == (head + a + tail)[|head|..|head| + |a|];
    }
  }

  lemma {:induction false} MiddleBytes(s: string)
    requires Bytes(s) > CUT_ABOVE
    ensures HeadLength(s, HEAD) <= TailStart(s, TAIL)
    ensures Bytes(s[HeadLength(s, HEAD)..TailStart(s, TAIL)]) == Bytes(s) - HEAD - TAIL <==>
            Bytes(s[..HeadLength(s, HEAD)]) == HEAD && Bytes(s[TailStart(s, TAIL)..]) == TAIL
  {
    hide Bytes, HeadLength, TailStart, CutText, Decimal;
    HeadFits(s, HEAD);
    TailFits(s, TAIL);
    CutIsBounded(s);
    var h, t := HeadLength(s, HEAD), TailStart(s, TAIL);
    assert s == s[..h] + s[h..t] + s[t..];
    BytesJoin(s[..h] + s[h..t], s[t..]);
    BytesJoin(s[..h], s[h..t]);
  }

  /** The marker names just how many bytes were cut exactly when no character straddles
      either cut. */
  lemma {:induction false} MarkerIsExactIff(s: string)
    requires Bytes(s) > CUT_ABOVE
    ensures HeadLength(s, HEAD) <= TailStart(s, TAIL)
    ensures exists named: nat ::
              && Names(s, named)
              && (named == Bytes(s[HeadLength(s, HEAD)..TailStart(s, TAIL)]) <==>
                  Bytes(s[..HeadLength(s, HEAD)]) == HEAD && Bytes(s[TailStart(s, TAIL)..]) == TAIL)
  {
    hide Bytes, HeadLength, TailStart, Names;
    CutNames(s);
    MiddleBytes(s);
  }

  function Repeated(n: nat): string {
    seq(n, _ => 'a')
  }

  /** A two-byte character stands where the head ends. */
  function Straddling(): string {
    Repeated(9_999) + [0xe9 as char] + Repeated(7_000)
  }

  /** One is left out of the cut text, and the marker does not count it. */
  lemma {:induction false} MarkerIsOff()
    ensures var s := Straddling();
            && Bytes(s) > CUT_ABOVE && HeadLength(s, HEAD) <= TailStart(s, TAIL)
            && exists named: nat :: Names(s, named) && named != Bytes(s[HeadLength(s, HEAD)..TailStart(s, TAIL)])
  {
    hide Bytes, HeadLength, TailStart, Repeated, Names;
    var s := Straddling();
    var h := HeadLength(s, HEAD);
    RepeatedBytes(9_999);
    RepeatedBytes(7_000);
    OneChar(0xe9 as char);
    BytesJoin(Repeated(9_999), [0xe9 as char]);
    BytesJoin(Repeated(9_999) + [0xe9 as char], Repeated(7_000));
    MiddleBytes(s);
    CutNames(s);
    assert s[..10_000] == Repeated(9_999) + [0xe9 as char];
    if h <= 9_999 {
      RepeatedPrefix(9_999, h);
      assert s[..h] == Repeated(9_999)[..h];
      RepeatedBytes(h);
    } else {
      assert s[..h] == s[..10_000] + s[10_000..h];
      BytesJoin(s[..10_000], s[10_000..h]);
    }
  }

  lemma {:induction false} RepeatedBytes(n: nat)
    ensures |Repeated(n)| == n && Bytes(Repeated(n)) == n
  {
    AsciiBytes(Repeated(n));
  }

  lemma {:induction false} RepeatedPrefix(n: nat, h: nat)
    requires h <= n
    ensures Repeated(n)[..h] == Repeated(h)
  {
  }

  lemma {:induction false} OneChar(c: char)
    ensures Bytes([c]) == Utf8(c)
  {
    assert [c][..0] == "";
  }

  /** Cutting again changes nothing, for any text whose length has fewer than two thousand
      digits. */
  lemma {:induction false} CutTwice(s: string)
    requires |Decimal(Bytes(s))| <= 1_980
    ensures CutText(CutText(s)) == CutText(s)
  {
    hide Bytes, HeadLength, TailStart, Marker, Decimal;
    if Bytes(s) > CUT_ABOVE {
      CutIsBounded(s);
      DecimalGrows(Bytes(s) - HEAD - TAIL, Bytes(s));
    }
  }

  lemma {:induction false} DecimalGrows(m: nat, n: nat)
    requires m <= n
    ensures 0 < |Decimal(m)| <= |Decimal(n)|
  {
    if m >= 10 {
      assert m / 10 <= n / 10;
      DecimalGrows(m / 10, n / 10);
    }
  }
}
