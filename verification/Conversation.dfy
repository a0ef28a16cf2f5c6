/** Merging a chat's parts into one conversation: `placed`, `_moments`, `neutral`,
    `_own_lines`, `_folded` and `_stamped` of `client/conversation.py`. */
module Conversations {
  import opened Common

  /** Who sent a delivered line, and where to, on the bot's word. */
  datatype Delivery = Delivery(source: string, room: string)

  /** A record's timestamp: its text, and the moment it names when that can be read. */
  datatype Stamp = Stamp(text: string, moment: Option<int>)

  /** What the reader keeps of a record's residual. */
  datatype Extra = Extra(provider: string, inbound: Option<Delivery>, meta: bool, failed: bool, attached: Option<string>,
                         ownLine: bool, summarized: bool)

  const PLAIN := Extra("", None, false, false, None, false, false)

  datatype Record =
    | Person(stamp: Option<Stamp>, content: Option<string>, sender: string, extra: Extra)
    | User(stamp: Option<Stamp>, content: Option<string>, extra: Extra)
    | Assistant(stamp: Option<Stamp>, content: Option<string>, extra: Extra)
    | Call(stamp: Option<Stamp>, callId: string, name: string, arguments: string, extra: Extra)
    | Result(stamp: Option<Stamp>, callId: string, texts: seq<string>, extra: Extra)
    | Clear(stamp: Option<Stamp>, summary: Option<string>, history: seq<Record>)
    | Compaction(stamp: Option<Stamp>, open: bool)
    | State(stamp: Option<Stamp>, kind: string, content: Option<string>, extra: Extra)
    | Switch(stamp: Option<Stamp>, before: string, after: string)
    | Other(stamp: Option<Stamp>)
    | Incomplete

  datatype Segment = Segment(part: nat, format: string, records: seq<Record>)

  datatype Placed = Placed(part: nat, idx: nat, provider: string, moment: int, record: Record)

  const EARLIEST := -62_135_596_800

  // --------------------------------------------------------------- moments

  function Moment(r: Record): Option<int> {
    if r.Incomplete? || r.stamp.None? then None else r.stamp.value.moment
  }

  function FirstMoment(records: seq<Record>): int {
    if records == [] then EARLIEST
    else if Moment(records[0]).Some? then Moment(records[0]).value
    else FirstMoment(records[1..])
  }

  /** The moment of the newest stamped record among them, else `last`. */
  function LastMoment(records: seq<Record>, last: int): int {
    if records == [] then last
    else if Moment(records[|records| - 1]).Some? then Moment(records[|records| - 1]).value
    else LastMoment(records[..|records| - 1], last)
  }

  /** `_moments`: a record without a stamp takes that of the nearest one before it, and those
      before any take the part's first. */
  method Moments(records: seq<Record>) returns (out: seq<int>)
    ensures |out| == |records|
    ensures forall i :: 0 <= i < |records| ==> out[i] == LastMoment(records[..i + 1], FirstMoment(records))
  {
    var last := FirstMoment(records);
    out := [];
    for i := 0 to |records|
      invariant |out| == i && last == LastMoment(records[..i], FirstMoment(records))
      invariant forall k :: 0 <= k < i ==> out[k] == LastMoment(records[..k + 1], FirstMoment(records))
    {
      assert records[..i + 1][..i] == records[..i];
      if Moment(records[i]).Some? {
        last := Moment(records[i]).value;
      }
      out := out + [last];
    }
  }

  function MomentAt(records: seq<Record>, i: nat): int
    requires i < |records|
  {
    LastMoment(records[..i + 1], FirstMoment(records))
  }

  function ProviderOf(format: string): string {
    if format == "assistant" then "bot" else format
  }

  function PlacedAt(s: Segment, i: nat): Placed
    requires i < |s.records|
  {
    Placed(s.part, i, ProviderOf(s.format), MomentAt(s.records, i), s.records[i])
  }

  function PlacedUpTo(s: Segment, n: nat): seq<Placed>
    requires n <= |s.records|
  {
    if n == 0 then [] else PlacedUpTo(s, n - 1) + [PlacedAt(s, n - 1)]
  }

  /** Every record of every part, in part order. */
  function Listed(segments: seq<Segment>): seq<Placed> {
    if segments == [] then []
    else
      var last := segments[|segments| - 1];
      Listed(segments[..|segments| - 1]) + PlacedUpTo(last, |last.records|)
  }

  // ------------------------------------------------------------- a stable sort

  ghost predicate Sorted(s: seq<Placed>) {
    forall i, j :: 0 <= i < j < |s| ==> s[i].moment <= s[j].moment
  }

  /** One record is somewhere before another. */
  ghost predicate Before(s: seq<Placed>, x: Placed, y: Placed) {
    exists i, j :: 0 <= i < j < |s| && s[i] == x && s[j] == y
  }

  ghost predicate Distinct(s: seq<Placed>) {
    forall i, j :: 0 <= i < j < |s| ==> s[i] != s[j]
  }

  /** `out` is `s` in time order, records of one moment as they came. */
  ghost predicate StablySorted(s: seq<Placed>, out: seq<Placed>) {
    && Sorted(out) && Distinct(out) && |out| == |s|
    && (forall x :: x in out <==> x in s)
    && (forall x, y :: Before(s, x, y) && x.moment == y.moment ==> Before(out, x, y))
  }

  function PutAt(out: seq<Placed>, x: Placed, at: nat): (more: seq<Placed>)
    requires at <= |out|
    ensures |more| == |out| + 1 && more[at] == x
    ensures forall i :: 0 <= i < |out| ==> more[if i < at then i else i + 1] == out[i]
    ensures forall i :: 0 <= i < |more| && i != at ==> more[i] == out[if i < at then i else i - 1]
  {
    out[..at] + [x] + out[at..]
  }

  /** `at` is where `x` goes: after every record that is not later. */
  ghost predicate IsPlace(out: seq<Placed>, x: Placed, at: nat) {
    && at <= |out|
    && (forall k :: at <= k < |out| ==> out[k].moment > x.moment)
    && (forall k :: 0 <= k < at ==> out[k].moment <= x.moment)
  }

  /** Puts one more record after every one that is not later. */
  method Insert(s: seq<Placed>, out: seq<Placed>, x: Placed) returns (more: seq<Placed>)
    requires StablySorted(s, out) && x !in s && Distinct(s)
    ensures StablySorted(s + [x], more)
  {
    hide StablySorted, PutAt, Distinct;
    var at := |out|;
    while at > 0 && out[at - 1].moment > x.moment
      invariant 0 <= at <= |out| && forall k :: at <= k < |out| ==> out[k].moment > x.moment
    {
      at := at - 1;
    }
    more := PutAt(out, x, at);
    PlaceFound(s, out, x, at);
    InsertedIsSorted(s, out, x, at);
  }

  lemma {:induction false} PlaceFound(s: seq<Placed>, out: seq<Placed>, x: Placed, at: nat)
    requires StablySorted(s, out) && at <= |out|
    requires forall k :: at <= k < |out| ==> out[k].moment > x.moment
    requires at > 0 ==> out[at - 1].moment <= x.moment
    ensures IsPlace(out, x, at)
  {
    hide Before, Distinct;
    assert Sorted(out);
  }

  lemma {:induction false} InsertedIsSorted(s: seq<Placed>, out: seq<Placed>, x: Placed, at: nat)
    requires StablySorted(s, out) && x !in s && Distinct(s) && IsPlace(out, x, at)
    ensures StablySorted(s + [x], PutAt(out, x, at))
  {
    hide PutAt, Before;
    InsertedSorted(out, x, at);
    InsertedStable(s, out, x, at);
    PutIn(out, x, at);
  }

  lemma {:induction false} PutIn(out: seq<Placed>, x: Placed, at: nat)
    requires at <= |out|
    ensures forall y :: y in PutAt(out, x, at) <==> y in out || y == x
  {
    hide PutAt;
    var more := PutAt(out, x, at);
    forall y | y in out
      ensures y in more
    {
      var i :| 0 <= i < |out| && out[i] == y;
      assert more[if i < at then i else i + 1] == y;
    }
  }

  lemma {:induction false} InsertedSorted(out: seq<Placed>, x: Placed, at: nat)
    requires Sorted(out) && Distinct(out) && x !in out && IsPlace(out, x, at)
    ensures Sorted(PutAt(out, x, at)) && Distinct(PutAt(out, x, at))
  {
    hide PutAt;
    var more := PutAt(out, x, at);
    forall i, j | 0 <= i < j < |more|
      ensures more[i].moment <= more[j].moment && more[i] != more[j]
    {
      if i == at {
        assert more[j] == out[j - 1];
      } else if j == at {
        assert more[i] == out[i];
      }
    }
  }

  lemma {:induction false} InsertedStable(s: seq<Placed>, out: seq<Placed>, x: Placed, at: nat)
    requires StablySorted(s, out) && x !in s && Distinct(s) && IsPlace(out, x, at)
    ensures forall y, z :: Before(s + [x], y, z) && y.moment == z.moment ==> Before(PutAt(out, x, at), y, z)
  {
    hide PutAt, Sorted, Distinct;
    var more := PutAt(out, x, at);
    forall y, z | Before(s + [x], y, z) && y.moment == z.moment
      ensures Before(more, y, z)
    {
      var i, j :| 0 <= i < j < |s + [x]| && (s + [x])[i] == y && (s + [x])[j] == z;
      assert y in s;
      if j < |s| {
        assert Before(s, y, z);
        var a, b :| 0 <= a < b < |out| && out[a] == y && out[b] == z;
        assert more[if a < at then a else a + 1] == y && more[if b < at then b else b + 1] == z;
      } else {
        var a :| 0 <= a < |out| && out[a] == y;
        assert a < at && more[a] == y && more[at] == z;
      }
    }
  }

  /** `out.sort(key=moment)` */
  method Sort(s: seq<Placed>) returns (out: seq<Placed>)
    requires Distinct(s)
    ensures StablySorted(s, out)
  {
    out := [];
    for k := 0 to |s|
      invariant StablySorted(s[..k], out)
    {
      assert s[k] !in s[..k];
      out := Insert(s[..k], out, s[k]);
      assert s[..k + 1] == s[..k] + [s[k]];
    }
    assert s[..|s|] == s;
  }

  /** The order is settled: of two records, the one given first stays first exactly when it
      is not later than the other. */
  lemma {:induction false} OrderIff(s: seq<Placed>, out: seq<Placed>, x: Placed, y: Placed)
    requires StablySorted(s, out) && Distinct(s) && Before(s, x, y)
    ensures Before(out, x, y) <==> x.moment <= y.moment
  {
    var i, j :| 0 <= i < j < |s| && s[i] == x && s[j] == y;
    assert x in s && y in s;
    var a :| 0 <= a < |out| && out[a] == x;
    var b :| 0 <= b < |out| && out[b] == y;
    if x.moment <= y.moment && x.moment != y.moment {
      assert a < b;
    }
  }

  lemma {:induction false} ListedDistinct(segments: seq<Segment>)
    requires forall i, j :: 0 <= i < j < |segments| ==> segments[i].part != segments[j].part
    ensures Distinct(Listed(segments))
    ensures forall x :: x in Listed(segments) ==>
              exists k :: 0 <= k < |segments| && x.part == segments[k].part && x.idx < |segments[k].records|
    decreases |segments|
  {
    if segments != [] {
      var init, last := segments[..|segments| - 1], segments[|segments| - 1];
      ListedDistinct(init);
      PlacedUpToAt(last, |last.records|);
      var a, b := Listed(init), PlacedUpTo(last, |last.records|);
      forall i, j | 0 <= i < j < |a + b|
        ensures (a + b)[i] != (a + b)[j]
      {
        if i < |a| <= j {
          assert a[i] in a;
        }
      }
      forall x | x in a + b
        ensures exists k :: 0 <= k < |segments| && x.part == segments[k].part && x.idx < |segments[k].records|
      {
        if x in a {
          var k :| 0 <= k < |init| && x.part == init[k].part && x.idx < |init[k].records|;
          assert segments[k] == init[k];
        } else {
          assert segments[|segments| - 1] == last;
        }
      }
    }
  }

  lemma {:induction false} PlacedUpToAt(s: Segment, n: nat)
    requires n <= |s.records|
    ensures |PlacedUpTo(s, n)| == n
    ensures forall i :: 0 <= i < n ==> PlacedUpTo(s, n)[i] == PlacedAt(s, i)
  {
    if n > 0 {
      PlacedUpToAt(s, n - 1);
    }
  }

  lemma {:induction false} ListedHas(segments: seq<Segment>, k: nat, i: nat, j: nat)
    requires k < |segments| && i < j < |segments[k].records|
    ensures Before(Listed(segments), PlacedAt(segments[k], i), PlacedAt(segments[k], j))
    decreases |segments|
  {
    hide PlacedAt, PlacedUpTo, Before;
    var init, last := segments[..|segments| - 1], segments[|segments| - 1];
    var a, b := Listed(init), PlacedUpTo(last, |last.records|);
    var x, y := PlacedAt(segments[k], i), PlacedAt(segments[k], j);
    if k == |init| {
      PlacedUpToAt(last, |last.records|);
      BeforeRight(a, b, i, j);
    } else {
      ListedHas(init, k, i, j);
      BeforeLeft(a, b, x, y);
    }
  }

  lemma {:induction false} BeforeLeft(a: seq<Placed>, b: seq<Placed>, x: Placed, y: Placed)
    requires Before(a, x, y)
    ensures Before(a + b, x, y)
  {
    var p, q :| 0 <= p < q < |a| && a[p] == x && a[q] == y;
    assert (a + b)[p] == x && (a + b)[q] == y;
  }

  lemma {:induction false} BeforeRight(a: seq<Placed>, b: seq<Placed>, i: nat, j: nat)
    requires i < j < |b|
    ensures Before(a + b, b[i], b[j])
  {
    assert (a + b)[|a| + i] == b[i] && (a + b)[|a| + j] == b[j];
  }

  /** A part's own order holds between two of its records exactly when the moments filled in
      for them do not go back: nothing keeps it when a clock was set back. */
  lemma {:induction false} PartKeepsOrderIff(segments: seq<Segment>, out: seq<Placed>, k: nat, i: nat, j: nat)
    requires forall a, b :: 0 <= a < b < |segments| ==> segments[a].part != segments[b].part
    requires StablySorted(Listed(segments), out)
    requires k < |segments| && i < j < |segments[k].records|
    ensures Before(out, PlacedAt(segments[k], i), PlacedAt(segments[k], j)) <==>
            MomentAt(segments[k].records, i) <= MomentAt(segments[k].records, j)
  {
    hide MomentAt, StablySorted, Before, Listed;
    ListedDistinct(segments);
    ListedHas(segments, k, i, j);
    OrderIff(Listed(segments), out, PlacedAt(segments[k], i), PlacedAt(segments[k], j));
  }

  /** A part whose clock was set back between its two records: they come out the other way
      round. */
  const SET_BACK := Segment(0, "claude", [Other(Some(Stamp("late", Some(20)))), Other(Some(Stamp("early", Some(10))))])

  lemma {:induction false} SetBackIsReversed(out: seq<Placed>)
    requires StablySorted(Listed([SET_BACK]), out)
    ensures out == [PlacedAt(SET_BACK, 1), PlacedAt(SET_BACK, 0)]
  {
    hide StablySorted, MomentAt, Listed;
    SetBackListed();
    SetBackMoments();
    TwoSorted(PlacedAt(SET_BACK, 0), PlacedAt(SET_BACK, 1), out);
  }

  lemma {:induction false} SetBackListed()
    ensures Listed([SET_BACK]) == [PlacedAt(SET_BACK, 0), PlacedAt(SET_BACK, 1)]
  {
    hide PlacedAt;
    assert [SET_BACK][..0] == [];
    assert Listed([]) + PlacedUpTo(SET_BACK, 2) == PlacedUpTo(SET_BACK, 2);
    assert PlacedUpTo(SET_BACK, 1) == [PlacedAt(SET_BACK, 0)];
  }

  lemma {:induction false} SetBackMoments()
    ensures MomentAt(SET_BACK.records, 0) == 20 && MomentAt(SET_BACK.records, 1) == 10
  {
    assert SET_BACK.records[..1][0] == SET_BACK.records[0] && SET_BACK.records[..2][1] == SET_BACK.records[1];
  }

  lemma {:induction false} TwoSorted(x: Placed, y: Placed, out: seq<Placed>)
    requires StablySorted([x, y], out) && x.moment > y.moment
    ensures out == [y, x]
  {
    assert out[0] in [x, y] && out[1] in [x, y];
  }

  // ----------------------------------------------------------------- neutral

  const HARNESS := [
    "<environment_context>", "<user_instructions>", "# AGENTS.md instructions", "<command-name>", "<command-message>",
    "<local-command-stdout>", "<local-command-caveat>", "<local-command-stderr>",
    "Caveat: The messages below were generated", "<system-reminder>", "<permissions instructions>", "<turn_aborted>"]

  const TRAILER := "\nTrackinizer context (verify with trax): "

  predicate IsSpace(c: char) {
    var n := c as int;
    || 9 <= n <= 13 || 0x1c <= n <= 0x20 || n == 0x85 || n == 0xa0 || n == 0x1680 || 0x2000 <= n <= 0x200a
    || n == 0x2028 || n == 0x2029 || n == 0x202f || n == 0x205f || n == 0x3000
  }

  /** The text from its first character that is not white space: what `strip` leaves starts
      with the same characters, and is empty just when this is. */
  function LeftStrip(s: string): string {
    if s != "" && IsSpace(s[0]) then LeftStrip(s[1..]) else s
  }

  function Text(content: Option<string>): string {
    if content.Some? then content.value else ""
  }

  predicate IsHarness(content: string) {
    var stripped := LeftStrip(content);
    stripped == "" || exists i :: 0 <= i < |HARNESS| && HARNESS[i] <= stripped
  }

  function Unprefixed(s: string, prefix: string): string {
    if prefix <= s then s[|prefix|..] else s
  }

  function UpTo(s: string, marker: string): string
    requires marker != ""
  {
    if marker <= s || s == "" then "" else [s[0]] + UpTo(s[1..], marker)
  }

  function DeliveredText(content: string, d: Delivery): string {
    var room := if d.room != "" then "[" + d.room + "] " else "";
    var sender := if d.source != "" then d.source + ": " else "";
    UpTo(Unprefixed(Unprefixed(content, room), sender), TRAILER)
  }

  function Credited(sender: string): string {
    if sender != "" then sender else "unknown"
  }

  function Tag(provider: string): Extra {
    PLAIN.(provider := provider)
  }

  function Delivered(stamp: Option<Stamp>, content: Option<string>, d: Delivery, provider: string): Record {
    Person(stamp, Some(DeliveredText(Text(content), d)), Credited(d.source), Tag(provider))
  }

  /** What a record becomes for any provider, or nothing when it is left out. */
  function Kept(r: Record, provider: string, terminalUser: string): Option<Record> {
    match r
    case Person(stamp, content, sender, extra) =>
      Some(Person(stamp, content, Credited(sender), Tag(provider).(attached := extra.attached)))
    case User(stamp, content, extra) =>
      if extra.meta || IsHarness(Text(content)) then None
      else if extra.inbound.None? then Some(Person(stamp, Some(Text(content)), terminalUser, Tag(provider)))
      else Some(Delivered(stamp, content, extra.inbound.value, provider))
    case State(stamp, kind, content, extra) =>
      if kind == "queued_command" && extra.inbound.Some? then Some(Delivered(stamp, content, extra.inbound.value, provider))
      else None
    case Assistant(stamp, content, _) =>
      if LeftStrip(Text(content)) == "" then None else Some(Assistant(stamp, content, Tag(provider)))
    case Call(stamp, callId, name, arguments, _) => Some(Call(stamp, callId, name, arguments, Tag(provider)))
    case Result(stamp, callId, texts, extra) =>
      Some(Result(stamp, callId, texts, Tag(provider).(failed := extra.failed)))
    case _ => None
  }

  predicate Answers(r: Record) {
    r.Assistant? || r.Call?
  }

  function KeptOf(each: Placed, user: string): Option<Record> {
    Kept(each.record, each.provider, user)
  }

  predicate AnswersIn(each: Placed, user: string) {
    KeptOf(each, user).Some? && Answers(KeptOf(each, user).value)
  }

  /** Who answered last, once these records have been read. */
  function Answerer(records: seq<Placed>, user: string, answerer: string): string {
    if records == [] then answerer
    else if AnswersIn(records[|records| - 1], user) then records[|records| - 1].provider
    else Answerer(records[..|records| - 1], user, answerer)
  }

  function Marker(each: Placed, before: string): Placed {
    each.(record := Switch(None, before, each.provider))
  }

  /** What one record adds to the conversation. */
  function Added(each: Placed, user: string, answerer: string): seq<Placed> {
    var kept := KeptOf(each, user);
    if kept.None? then []
    else if Answers(kept.value) && answerer != "" && answerer != each.provider then
      [Marker(each, answerer), each.(record := kept.value)]
    else [each.(record := kept.value)]
  }

  function Neutral(records: seq<Placed>, user: string, answerer: string): seq<Placed> {
    if records == [] then []
    else
      var init, last := records[..|records| - 1], records[|records| - 1];
      Neutral(init, user, answerer) + Added(last, user, Answerer(init, user, answerer))
  }

  method Neutralize(records: seq<Placed>, user: string, first: string) returns (out: seq<Placed>)
    ensures out == Neutral(records, user, first)
  {
    out := [];
    var answerer := first;
    for i := 0 to |records|
      invariant out == Neutral(records[..i], user, first) && answerer == Answerer(records[..i], user, first)
    {
      var each := records[i];
      assert records[..i + 1][..i] == records[..i];
      var kept := KeptOf(each, user);
      if kept.None? {
        continue;
      }
      if Answers(kept.value) {
        if answerer != "" && answerer != each.provider {
          out := out + [Marker(each, answerer)];
        }
        answerer := each.provider;
      }
      out := out + [each.(record := kept.value)];
    }
    assert records[..|records|] == records;
  }

  lemma {:induction false} AnswererJoins(a: seq<Placed>, b: seq<Placed>, user: string, first: string)
    ensures Answerer(a + b, user, first) == Answerer(b, user, Answerer(a, user, first))
    decreases |b|
  {
    if b == [] {
      assert a + b == a;
    } else {
      assert (a + b)[..|a + b| - 1] == a + b[..|b| - 1];
      AnswererJoins(a, b[..|b| - 1], user, first);
    }
  }

  /** Reading two stretches one after the other, the second from whoever answered last in
      the first, is reading them as one. */
  lemma {:induction false} NeutralJoins(a: seq<Placed>, b: seq<Placed>, user: string, first: string)
    ensures Neutral(a + b, user, first) == Neutral(a, user, first) + Neutral(b, user, Answerer(a, user, first))
    decreases |b|
  {
    hide Added, AnswersIn;
    if b == [] {
      assert a + b == a;
    } else {
      var init := b[..|b| - 1];
      assert (a + b)[..|a + b| - 1] == a + init;
      NeutralJoins(a, init, user, first);
      AnswererJoins(a, init, user, first);
    }
  }

  /** The provider of the last answer in a neutral conversation. */
  function LastAnswer(out: seq<Placed>, first: string): string {
    if out == [] then first
    else if Answers(out[|out| - 1].record) then out[|out| - 1].provider
    else LastAnswer(out[..|out| - 1], first)
  }

  lemma {:induction false} LastAnswerJoins(a: seq<Placed>, b: seq<Placed>, first: string)
    ensures LastAnswer(a + b, first) == LastAnswer(b, LastAnswer(a, first))
    decreases |b|
  {
    if b == [] {
      assert a + b == a;
    } else {
      assert (a + b)[..|a + b| - 1] == a + b[..|b| - 1];
      LastAnswerJoins(a, b[..|b| - 1], first);
    }
  }

  lemma {:induction false} LastAnswerOfAdded(each: Placed, user: string, answerer: string)
    ensures LastAnswer(Added(each, user, answerer), answerer) == if AnswersIn(each, user) then each.provider else answerer
  {
    var added := Added(each, user, answerer);
    if |added| == 1 {
      assert added[..0] == [];
    }
  }

  /** Who answered last can be read off the conversation itself. */
  lemma {:induction false} AnswererIsLast(records: seq<Placed>, user: string, first: string)
    ensures LastAnswer(Neutral(records, user, first), first) == Answerer(records, user, first)
    decreases |records|
  {
    hide Added, AnswersIn;
    if records != [] {
      var init, last := records[..|records| - 1], records[|records| - 1];
      AnswererIsLast(init, user, first);
      LastAnswerJoins(Neutral(init, user, first), Added(last, user, Answerer(init, user, first)), first);
      LastAnswerOfAdded(last, user, Answerer(init, user, first));
    }
  }

  /** A marker stands just before an answer whose provider differs from that of the answer
      before it, and nowhere else. */
  ghost predicate MarkedAt(out: seq<Placed>, first: string, i: nat)
    requires i < |out|
  {
    var before := LastAnswer(out[..i], first);
    && (Answers(out[i].record) ==>
          ((i > 0 && out[i - 1].record.Switch?) <==> (before != "" && before != out[i].provider)))
    && (out[i].record.Switch? ==>
          && i + 1 < |out| && Answers(out[i + 1].record) && out[i + 1].provider == out[i].provider
          && out[i].record == Switch(None, before, out[i].provider))
  }

  ghost predicate Marked(out: seq<Placed>, first: string) {
    forall i :: 0 <= i < |out| ==> MarkedAt(out, first, i)
  }

  lemma {:induction false} AddedMarked(out: seq<Placed>, first: string, each: Placed, user: string)
    requires Marked(out, first)
    ensures Marked(out + Added(each, user, LastAnswer(out, first)), first)
  {
    var added := Added(each, user, LastAnswer(out, first));
    var all := out + added;
    forall i | 0 <= i < |all|
      ensures MarkedAt(all, first, i)
    {
      if i < |out| {
        assert MarkedAt(out, first, i);
        assert all[..i] == out[..i] && all[i] == out[i];
        assert i > 0 ==> all[i - 1] == out[i - 1];
        assert i + 1 < |out| ==> all[i + 1] == out[i + 1];
      } else if i == |out| {
        assert all[..i] == out;
        if i > 0 {
          assert MarkedAt(out, first, i - 1);
          assert all[i - 1] == out[i - 1];
        }
      } else {
        assert all[..i] == out + [added[0]];
        assert (out + [added[0]])[..|out|] == out;
        assert all[i - 1] == added[0] && all[i] == added[1];
      }
    }
  }

  lemma {:induction false} MarkersAreSwitches(records: seq<Placed>, user: string, first: string)
    ensures Marked(Neutral(records, user, first), first)
    decreases |records|
  {
    hide Added, Marked;
    if records == [] {
      NothingMarked(first);
    } else {
      var init, last := records[..|records| - 1], records[|records| - 1];
      MarkersAreSwitches(init, user, first);
      AnswererIsLast(init, user, first);
      AddedMarked(Neutral(init, user, first), first, last, user);
    }
  }

  lemma {:induction false} NothingMarked(first: string)
    ensures Marked([], first)
  {
  }

  /** The records that have a neutral form, in order. */
  function KeptAll(records: seq<Placed>, user: string): seq<Placed> {
    if records == [] then []
    else
      var last := records[|records| - 1];
      KeptAll(records[..|records| - 1], user) +
      if KeptOf(last, user).Some? then [last.(record := KeptOf(last, user).value)] else []
  }

  function Unmarked(out: seq<Placed>): seq<Placed> {
    if out == [] then []
    else Unmarked(out[..|out| - 1]) + if out[|out| - 1].record.Switch? then [] else [out[|out| - 1]]
  }

  lemma {:induction false} UnmarkedJoins(a: seq<Placed>, b: seq<Placed>)
    ensures Unmarked(a + b) == Unmarked(a) + Unmarked(b)
    decreases |b|
  {
    if b == [] {
      assert a + b == a;
    } else {
      assert (a + b)[..|a + b| - 1] == a + b[..|b| - 1];
      UnmarkedJoins(a, b[..|b| - 1]);
    }
  }

  /** Nothing but the markers is added, and nothing that has a neutral form is lost. */
  lemma {:induction false} UnmarkedIsKept(records: seq<Placed>, user: string, first: string)
    ensures Unmarked(Neutral(records, user, first)) == KeptAll(records, user)
    decreases |records|
  {
    if records != [] {
      var init, last := records[..|records| - 1], records[|records| - 1];
      var answerer := Answerer(init, user, first);
      UnmarkedIsKept(init, user, first);
      UnmarkedJoins(Neutral(init, user, first), Added(last, user, answerer));
      UnmarkedAdded(last, user, answerer);
    }
  }

  lemma {:induction false} NoSwitch(r: Record, provider: string, user: string)
    ensures Kept(r, provider, user).Some? ==> !Kept(r, provider, user).value.Switch?
  {
  }

  lemma {:induction false} UnmarkedAdded(each: Placed, user: string, answerer: string)
    ensures Unmarked(Added(each, user, answerer)) ==
            if KeptOf(each, user).Some? then [each.(record := KeptOf(each, user).value)] else []
  {
    var added := Added(each, user, answerer);
    NoSwitch(each.record, each.provider, user);
    hide Kept;
    if |added| == 1 {
      assert added[..0] == [];
    } else if |added| == 2 {
      assert added[..1] == [added[0]] && [added[0]][..0] == [];
      assert Unmarked([added[0]]) == [];
    }
  }

  // ------------------------------------------------------- what a writer needs

  function OwnLine(r: Record, previous: Option<Record>): Record {
    if r.User? && previous.Some? && previous.value.Result? then
      User(r.stamp, r.content, PLAIN.(ownLine := true))
    else r
  }

  function Last(out: seq<Record>): Option<Record> {
    if out == [] then None else Some(out[|out| - 1])
  }

  /** `_own_lines`: marks each user turn that stands right after a result. */
  function OwnLines(records: seq<Record>): seq<Record> {
    if records == [] then []
    else
      var out := OwnLines(records[..|records| - 1]);
      out + [OwnLine(records[|records| - 1], Last(out))]
  }

  predicate SameTurn(a: Record, b: Record) {
    (a.User? && b.User?) || (a.Assistant? && b.Assistant?)
  }

  function Joined(a: Record, b: Record): Record
    requires SameTurn(a, b)
  {
    var content := Some(Text(a.content) + "\n" + Text(b.content));
    if a.User? then User(a.stamp, content, a.extra) else Assistant(a.stamp, content, a.extra)
  }

  function FoldOne(out: seq<Record>, r: Record): seq<Record> {
    if out != [] && SameTurn(out[|out| - 1], r) then out[..|out| - 1] + [Joined(out[|out| - 1], r)] else out + [r]
  }

  /** `_folded`: a turn joins the one before it when both are the same role's. */
  function Folded(records: seq<Record>): seq<Record> {
    if records == [] then [] else FoldOne(Folded(records[..|records| - 1]), records[|records| - 1])
  }

  method Fold(records: seq<Record>) returns (out: seq<Record>)
    ensures out == Folded(records)
  {
    out := [];
    for i := 0 to |records|
      invariant out == Folded(records[..i])
    {
      assert records[..i + 1][..i] == records[..i];
      var r := records[i];
      if out != [] && SameTurn(out[|out| - 1], r) {
        out := out[..|out| - 1] + [Joined(out[|out| - 1], r)];
      } else {
        out := out + [r];
      }
    }
    assert records[..|records|] == records;
  }

  ghost predicate Apart(out: seq<Record>) {
    forall i {:trigger out[i]} :: 0 <= i < |out| - 1 ==>
      !(out[i].User? && out[i + 1].User?) && !(out[i].Assistant? && out[i + 1].Assistant?)
  }

  /** No two turns of one role are left side by side. */
  lemma {:induction false} FoldedIsApart(records: seq<Record>)
    ensures Apart(Folded(records))
    decreases |records|
  {
    if records != [] {
      var out, r := Folded(records[..|records| - 1]), records[|records| - 1];
      FoldedIsApart(records[..|records| - 1]);
      var more := FoldOne(out, r);
      forall i | 0 <= i < |more| - 1
        ensures !SameTurn(more[i], more[i + 1])
      {
        assert more[i] == out[i];
        assert i + 1 < |out| ==> !SameTurn(out[i], out[i + 1]);
      }
    }
  }

  lemma {:induction false} ApartInit(records: seq<Record>)
    requires Apart(records) && records != []
    ensures Apart(records[..|records| - 1])
    ensures |records| > 1 ==> !SameTurn(records[|records| - 2], records[|records| - 1])
  {
    var init := records[..|records| - 1];
    assert forall i {:trigger init[i]} :: 0 <= i < |init| - 1 ==> init[i] == records[i] && init[i + 1] == records[i + 1];
    if |records| > 1 {
      var k := |records| - 2;
      assert !SameTurn(records[k], records[k + 1]);
    }
  }

  /** Turns already apart are kept as they are, so folding twice is folding once. */
  lemma {:induction false} ApartIsKept(records: seq<Record>)
    requires Apart(records)
    ensures Folded(records) == records
    decreases |records|
  {
    if records != [] {
      hide Apart, SameTurn, Joined;
      var init, r := records[..|records| - 1], records[|records| - 1];
      ApartInit(records);
      ApartIsKept(init);
      assert records == init + [r];
    }
  }

  /** What a record says in one role. */
  function Words(r: Record, users: bool): string {
    if (users && r.User?) || (!users && r.Assistant?) then "\n" + Text(r.content) else ""
  }

  /** What is said in each role, one text for each turn before folding. */
  function Said(records: seq<Record>, users: bool): string {
    if records == [] then "" else Said(records[..|records| - 1], users) + Words(records[|records| - 1], users)
  }

  lemma {:induction false} SaidSnoc(records: seq<Record>, r: Record, users: bool)
    ensures Said(records + [r], users) == Said(records, users) + Words(r, users)
  {
    hide Words;
    assert (records + [r])[..|records|] == records;
  }

  lemma {:induction false} JoinedWords(a: Record, b: Record, users: bool)
    requires SameTurn(a, b)
    ensures Words(Joined(a, b), users) == Words(a, users) + Words(b, users)
  {
    assert "\n" + (Text(a.content) + "\n" + Text(b.content)) == ("\n" + Text(a.content)) + ("\n" + Text(b.content));
  }

  /** Folding loses no word of either role, and keeps their order. */
  lemma {:induction false} FoldedSaysTheSame(records: seq<Record>, users: bool)
    ensures Said(Folded(records), users) == Said(records, users)
    decreases |records|
  {
    hide Words, Joined, SameTurn, Said;
    if records == [] {
      assert Folded(records) == records;
    } else {
      var init, r := records[..|records| - 1], records[|records| - 1];
      var out := Folded(init);
      FoldedSaysTheSame(init, users);
      assert records == init + [r];
      SaidSnoc(init, r, users);
      if out != [] && SameTurn(out[|out| - 1], r) {
        var before, top := out[..|out| - 1], out[|out| - 1];
        assert out == before + [top];
        SaidSnoc(before, top, users);
        SaidSnoc(before, Joined(top, r), users);
        JoinedWords(top, r, users);
        assert Said(before, users) + (Words(top, users) + Words(r, users)) == Said(before, users) + Words(top, users) + Words(r, users);
      } else {
        SaidSnoc(out, r, users);
      }
    }
  }

  predicate Owned(r: Record) {
    r.User? && r.extra.ownLine
  }

  /** What claude's writer takes has the mark on every user turn right after a result, even
      one that folding joined others onto. */
  lemma {:induction false} OwnedAfterResults(records: seq<Record>, i: nat)
    requires 0 < i < |Folded(OwnLines(records))|
    requires Folded(OwnLines(records))[i - 1].Result? && Folded(OwnLines(records))[i].User?
    ensures Owned(Folded(OwnLines(records))[i])
  {
    OwnLinesMarks(records);
    FoldedOwns(OwnLines(records), i);
  }

  ghost predicate ResultsOwned(records: seq<Record>) {
    forall i {:trigger records[i]} :: 0 <= i < |records| - 1 && records[i].Result? && records[i + 1].User? ==> Owned(records[i + 1])
  }

  lemma {:induction false} OwnLinesMarks(records: seq<Record>)
    ensures ResultsOwned(OwnLines(records)) && |OwnLines(records)| == |records|
    decreases |records|
  {
    if records != [] {
      OwnLinesMarks(records[..|records| - 1]);
      var out := OwnLines(records[..|records| - 1]);
      var more := OwnLines(records);
      forall i | 0 <= i < |more| - 1 && more[i].Result? && more[i + 1].User?
        ensures Owned(more[i + 1])
      {
        assert more[i] == out[i];
        assert i + 1 < |out| ==> more[i + 1] == out[i + 1];
      }
    }
  }

  lemma {:induction false} FoldedOwns(records: seq<Record>, i: nat)
    requires ResultsOwned(records)
    requires 0 < i < |Folded(records)| && Folded(records)[i - 1].Result? && Folded(records)[i].User?
    ensures Owned(Folded(records)[i])
    decreases |records|
  {
    hide Joined, SameTurn, ResultsOwned;
    var init, r := records[..|records| - 1], records[|records| - 1];
    var out := Folded(init);
    OwnedInit(records);
    if i < |out| {
      if SameTurn(out[|out| - 1], r) {
        JoinedKind(out, r);
      }
      assert Folded(records)[i - 1] == out[i - 1];
      FoldedOwns(init, i);
    } else {
      LastFolded(init);
    }
  }

  lemma {:induction false} OwnedInit(records: seq<Record>)
    requires ResultsOwned(records) && records != []
    ensures ResultsOwned(records[..|records| - 1])
    ensures |records| > 1 && records[|records| - 2].Result? && records[|records| - 1].User? ==> Owned(records[|records| - 1])
  {
    var init := records[..|records| - 1];
    assert forall k {:trigger init[k]} :: 0 <= k < |init| - 1 ==> init[k] == records[k] && init[k + 1] == records[k + 1];
    if |records| > 1 {
      var k := |records| - 2;
      assert records[k].Result? && records[k + 1].User? ==> Owned(records[k + 1]);
    }
  }

  /** Joining a turn onto one leaves its kind and its mark. */
  lemma {:induction false} JoinedKind(out: seq<Record>, r: Record)
    requires out != [] && SameTurn(out[|out| - 1], r)
    ensures Joined(out[|out| - 1], r).User? == out[|out| - 1].User?
    ensures Owned(Joined(out[|out| - 1], r)) == Owned(out[|out| - 1])
  {
  }

  /** What was folded last is of the kind of what came last, and a result is not joined. */
  lemma {:induction false} LastFolded(records: seq<Record>)
    ensures (Folded(records) == []) == (records == [])
    ensures records != [] && Folded(records)[|Folded(records)| - 1].Result? ==> records[|records| - 1].Result?
  {
  }

  function Restamped(r: Record, stamp: Stamp): Record {
    match r
    case Person(_, content, sender, extra) => Person(Some(stamp), content, sender, extra)
    case User(_, content, extra) => User(Some(stamp), content, extra)
    case Assistant(_, content, extra) => Assistant(Some(stamp), content, extra)
    case Call(_, callId, name, arguments, extra) => Call(Some(stamp), callId, name, arguments, extra)
    case Result(_, callId, texts, extra) => Result(Some(stamp), callId, texts, extra)
    case Clear(_, summary, history) => Clear(Some(stamp), summary, history)
    case Compaction(_, open) => Compaction(Some(stamp), open)
    case State(_, kind, content, extra) => State(Some(stamp), kind, content, extra)
    case Switch(_, before, after) => Switch(Some(stamp), before, after)
    case Other(_) => Other(Some(stamp))
    case Incomplete => r
  }

  predicate HasStamp(r: Record) {
    !r.Incomplete? && r.stamp.Some? && r.stamp.value.text != ""
  }

  /** The newest stamp among them, else the one given. */
  function LastStamp(records: seq<Record>, now: Stamp): Stamp {
    if records == [] then now
    else if HasStamp(records[|records| - 1]) then records[|records| - 1].stamp.value
    else LastStamp(records[..|records| - 1], now)
  }

  function Filled(r: Record, last: Stamp): Record {
    if HasStamp(r) then r else Restamped(r, last)
  }

  lemma {:induction false} FilledHasStamp(r: Record, last: Stamp)
    requires last.text != ""
    ensures Filled(r, last).Incomplete? || HasStamp(Filled(r, last))
  {
  }

  /** `_stamped`: no record is left without a stamp; a missing one is the last there was. */
  method Stamped(records: seq<Record>, now: Stamp) returns (out: seq<Record>)
    requires now.text != ""
    ensures |out| == |records|
    ensures forall i :: 0 <= i < |records| ==> out[i] == Filled(records[i], LastStamp(records[..i], now))
    ensures forall i :: 0 <= i < |out| ==> out[i].Incomplete? || HasStamp(out[i])
  {
    hide Restamped, Filled;
    var last := now;
    out := [];
    for i := 0 to |records|
      invariant |out| == i && last == LastStamp(records[..i], now) && last.text != ""
      invariant forall k :: 0 <= k < i ==> out[k] == Filled(records[k], LastStamp(records[..k], now))
      invariant forall k :: 0 <= k < i ==> out[k].Incomplete? || HasStamp(out[k])
    {
      assert records[..i + 1][..i] == records[..i];
      FilledHasStamp(records[i], last);
      out := out + [Filled(records[i], last)];
      if HasStamp(records[i]) {
        last := records[i].stamp.value;
      }
    }
  }
}
