/** What the records of a chat's parts become in the one conversation, kind by kind, and
    the moments they are placed at: `neutral` and `_moments` of `client/conversation.py`. */
module ConversationLines {
  import opened Common
  import opened Conversations

  // ------------------------------------------------------------- a record's moment

  ghost predicate Unstamped(records: seq<Record>) {
    forall k :: 0 <= k < |records| ==> Moment(records[k]).None?
  }

  /** A record is placed at the nearest stamp at or before it; one with none before it, at
      the part's first stamp; and at the earliest moment only in a part without any. */
  lemma {:induction false} MomentIs(records: seq<Record>, i: nat)
    requires i < |records|
    ensures forall k :: 0 <= k <= i && Moment(records[k]).Some? && Unstamped(records[k + 1..i + 1]) ==>
              MomentAt(records, i) == Moment(records[k]).value
    ensures forall k :: i < k < |records| && Moment(records[k]).Some? && Unstamped(records[..k]) ==>
              MomentAt(records, i) == Moment(records[k]).value
    ensures Unstamped(records) ==> MomentAt(records, i) == EARLIEST
  {
    hide Moment, Unstamped;
    forall k | 0 <= k <= i && Moment(records[k]).Some? && Unstamped(records[k + 1..i + 1])
      ensures MomentAt(records, i) == Moment(records[k]).value
    {
      var part := records[..i + 1];
      assert part[k + 1..] == records[k + 1..i + 1];
      LastStamped(part, k, FirstMoment(records));
    }
    forall k | i < k < |records| && Moment(records[k]).Some? && Unstamped(records[..k])
      ensures MomentAt(records, i) == Moment(records[k]).value
    {
      FirstStamped(records, k);
      Shorter(records[..k], i + 1);
      assert records[..k][..i + 1] == records[..i + 1];
      NoneStamped(records[..i + 1], FirstMoment(records));
    }
    if Unstamped(records) {
      Shorter(records, i + 1);
      NoneStamped(records[..i + 1], FirstMoment(records));
      NoneStamped(records, 0);
    }
  }

  lemma {:induction false} Shorter(records: seq<Record>, n: nat)
    requires n <= |records| && Unstamped(records)
    ensures Unstamped(records[..n])
  {
  }

  lemma {:induction false} LastStamped(records: seq<Record>, k: nat, last: int)
    requires k < |records| && Moment(records[k]).Some? && Unstamped(records[k + 1..])
    ensures LastMoment(records, last) == Moment(records[k]).value
    decreases |records|
  {
    if k < |records| - 1 {
      var init := records[..|records| - 1];
      assert records[k + 1..][|records| - k - 2] == records[|records| - 1];
      assert init[k + 1..] == records[k + 1..][..|init| - k - 1];
      LastStamped(init, k, last);
    }
  }

  lemma {:induction false} FirstStamped(records: seq<Record>, k: nat)
    requires k < |records| && Moment(records[k]).Some? && Unstamped(records[..k])
    ensures FirstMoment(records) == Moment(records[k]).value
    decreases |records|
  {
    if k > 0 {
      assert records[..k][0] == records[0];
      assert records[1..][..k - 1] == records[..k][1..];
      FirstStamped(records[1..], k - 1);
    }
  }

  lemma {:induction false} NoneStamped(records: seq<Record>, last: int)
    requires Unstamped(records)
    ensures LastMoment(records, last) == last && FirstMoment(records) == EARLIEST
    decreases |records|
  {
    if records != [] {
      NoneStampedLast(records, last);
      assert forall j :: 0 <= j < |records| - 1 ==> records[1..][j] == records[j + 1];
      NoneStamped(records[1..], last);
    }
  }

  lemma {:induction false} NoneStampedLast(records: seq<Record>, last: int)
    requires Unstamped(records)
    ensures LastMoment(records, last) == last
    decreases |records|
  {
    if records != [] {
      NoneStampedLast(records[..|records| - 1], last);
    }
  }

  // -------------------------------------------------------------- a record's stamp

  ghost predicate Dated(r: Record) {
    !r.Incomplete? && r.stamp.Some? && r.stamp.value.text != ""
  }

  ghost predicate Undated(records: seq<Record>) {
    forall k :: 0 <= k < |records| ==> !Dated(records[k])
  }

  /** A written record keeps its own stamp, or else takes that of the nearest one before it,
      and the time of writing when there is none. */
  lemma {:induction false} StampIs(records: seq<Record>, i: nat, now: Stamp)
    requires i < |records|
    ensures var r := Filled(records[i], LastStamp(records[..i], now));
            && (Dated(records[i]) || records[i].Incomplete? ==> r == records[i])
            && (!Dated(records[i]) && !records[i].Incomplete? ==>
                  && !r.Incomplete? && r.stamp.Some?
                  && (forall k :: 0 <= k < i && Dated(records[k]) && Undated(records[k + 1..i]) ==> r.stamp == records[k].stamp)
                  && (Undated(records[..i]) ==> r.stamp == Some(now)))
  {
    forall k | 0 <= k < i && Dated(records[k]) && Undated(records[k + 1..i])
      ensures LastStamp(records[..i], now) == records[k].stamp.value
    {
      assert records[..i][k + 1..] == records[k + 1..i];
      LastDated(records[..i], k, now);
    }
    if Undated(records[..i]) {
      NoneDated(records[..i], now);
    }
  }

  lemma {:induction false} LastDated(records: seq<Record>, k: nat, now: Stamp)
    requires k < |records| && Dated(records[k]) && Undated(records[k + 1..])
    ensures LastStamp(records, now) == records[k].stamp.value
    decreases |records|
  {
    if k < |records| - 1 {
      var init := records[..|records| - 1];
      assert records[k + 1..][|records| - k - 2] == records[|records| - 1];
      assert init[k + 1..] == records[k + 1..][..|init| - k - 1];
      LastDated(init, k, now);
    }
  }

  lemma {:induction false} NoneDated(records: seq<Record>, now: Stamp)
    requires Undated(records)
    ensures LastStamp(records, now) == now
    decreases |records|
  {
    if records != [] {
      NoneDated(records[..|records| - 1], now);
    }
  }

  /** Nothing but the stamp of a record is changed. */
  lemma {:induction false} OnlyStampChanges(r: Record, stamp: Stamp)
    requires !r.Incomplete? && r.stamp.Some?
    ensures Restamped(Restamped(r, stamp), r.stamp.value) == r
  {
  }

  // ---------------------------------------------------------- what is put in order

  /** The record at `i` of a part, with where it is stored, who wrote it and when. */
  ghost predicate Places(s: Segment, i: int, x: Placed) {
    && 0 <= i < |s.records|
    && x == Placed(s.part, i, if s.format == "assistant" then "bot" else s.format, MomentAt(s.records, i), s.records[i])
  }

  /** Some part has the record. */
  ghost predicate PlacedIn(segments: seq<Segment>, x: Placed) {
    exists k: nat, i: int :: k < |segments| && Places(segments[k], i, x)
  }

  lemma {:induction false} PlacedInSnoc(init: seq<Segment>, last: Segment, x: Placed)
    ensures PlacedIn(init + [last], x) <==> PlacedIn(init, x) || exists i: int :: Places(last, i, x)
  {
    hide Places;
    var all := init + [last];
    assert all[|init|] == last && forall k: nat :: k < |init| ==> all[k] == init[k];
    if i: int :| Places(last, i, x) {
      assert Places(all[|init|], i, x);
    }
    if k: nat, i: int :| k < |init| && Places(init[k], i, x) {
      assert Places(all[k], i, x);
    }
  }

  /** Every record of every part is placed, and nothing else. */
  lemma {:induction false} ListedIff(segments: seq<Segment>, x: Placed)
    ensures x in Listed(segments) <==> PlacedIn(segments, x)
    decreases |segments|
  {
    if segments != [] {
      hide Places, PlacedIn, Listed, PlacedUpTo;
      var init, last := segments[..|segments| - 1], segments[|segments| - 1];
      ListedIff(init, x);
      PartIff(last, x);
      ListedSnoc(segments, x);
      PlacedInSnoc(init, last, x);
      assert segments == init + [last];
    }
  }

  lemma {:induction false} ListedSnoc(segments: seq<Segment>, x: Placed)
    requires segments != []
    ensures var init, last := segments[..|segments| - 1], segments[|segments| - 1];
            x in Listed(segments) <==> x in Listed(init) || x in PlacedUpTo(last, |last.records|)
  {
  }

  lemma {:induction false} PartIff(s: Segment, x: Placed)
    ensures x in PlacedUpTo(s, |s.records|) <==> exists i: int :: Places(s, i, x)
  {
    hide MomentAt, PlacedUpTo;
    PlacedUpToAt(s, |s.records|);
    var all := PlacedUpTo(s, |s.records|);
    if x in all {
      var i :| 0 <= i < |all| && all[i] == x;
      assert Places(s, i, x);
    }
    if i: int :| Places(s, i, x) {
      assert all[i] == x;
    }
  }

  // -------------------------------------------------------- what a person typed

  /** Some character is not white space. */
  ghost predicate Says(text: string) {
    exists k :: 0 <= k < |text| && !IsSpace(text[k])
  }

  /** One of the harness marks is the first thing in the text after white space. */
  ghost predicate BeginsWithMark(text: string) {
    exists n, m :: 0 <= n <= |text| && 0 <= m < |HARNESS| && HARNESS[m] <= text[n..] && !Says(text[..n])
  }

  lemma {:induction false} LeftStripIs(s: string) returns (n: nat)
    ensures n <= |s| && LeftStrip(s) == s[n..] && !Says(s[..n]) && (n < |s| ==> !IsSpace(s[n]))
  {
    if s != "" && IsSpace(s[0]) {
      var k := LeftStripIs(s[1..]);
      n := k + 1;
      assert s[1..][k..] == s[n..] && s[..n] == [s[0]] + s[1..][..k];
    } else {
      n := 0;
      assert s[0..] == s && s[..0] == [];
    }
  }

  lemma {:induction false} StripSays(s: string)
    ensures Says(s) <==> LeftStrip(s) != ""
  {
    var n := LeftStripIs(s);
    assert s == s[..n] + s[n..];
  }

  lemma {:induction false} MarksAreText(m: nat)
    requires m < |HARNESS|
    ensures HARNESS[m] != "" && !IsSpace(HARNESS[m][0])
  {
    assert HARNESS[0][0] == HARNESS[1][0] == HARNESS[3][0] == HARNESS[4][0] == HARNESS[5][0] == HARNESS[6][0]
           == HARNESS[7][0] == HARNESS[9][0] == HARNESS[10][0] == HARNESS[11][0] == '<';
    assert HARNESS[2][0] == '#' && HARNESS[8][0] == 'C';
  }

  lemma {:induction false} HarnessIff(text: string)
    ensures IsHarness(text) <==> !Says(text) || BeginsWithMark(text)
  {
    hide IsSpace;
    StripSays(text);
    var n := LeftStripIs(text);
    if IsHarness(text) && Says(text) {
      var m :| 0 <= m < |HARNESS| && HARNESS[m] <= text[n..];
      assert BeginsWithMark(text);
    }
    if BeginsWithMark(text) && Says(text) {
      var a, m :| 0 <= a <= |text| && 0 <= m < |HARNESS| && HARNESS[m] <= text[a..] && !Says(text[..a]);
      MarksAreText(m);
      SameStart(text, n, a, HARNESS[m]);
    }
  }

  lemma {:induction false} SameStart(text: string, n: nat, a: nat, mark: string)
    requires n < |text| && a <= |text| && !Says(text[..n]) && !IsSpace(text[n])
    requires mark != "" && !IsSpace(mark[0]) && mark <= text[a..] && !Says(text[..a])
    ensures a == n
  {
    hide IsSpace;
    assert text[a] == mark[0];
    assert forall k :: 0 <= k < n ==> text[..n][k] == text[k];
    assert forall k :: 0 <= k < a ==> text[..a][k] == text[k];
  }

  // --------------------------------------------------------- what was delivered

  /** `rest` is `s` without the prefix, if `s` starts with it. */
  ghost predicate Without(s: string, prefix: string, rest: string) {
    s == prefix + rest || (s == rest && !(prefix <= s))
  }

  /** `said` is `s` up to the first place where the trailer stands. */
  ghost predicate Untrailed(s: string, said: string) {
    && said <= s && (said == s || TRAILER <= s[|said|..])
    && forall k :: 0 <= k < |said| ==> !(TRAILER <= s[k..])
  }

  /** `said` is a delivered line without its room, its sender and its trailer. */
  ghost predicate Spoken(content: string, d: Delivery, said: string) {
    var room := if d.room == "" then "" else "[" + d.room + "] ";
    var sender := if d.source == "" then "" else d.source + ": ";
    exists unroomed, unsent ::
      Without(content, room, unroomed) && Without(unroomed, sender, unsent) && Untrailed(unsent, said)
  }

  lemma {:induction false} UpToIs(s: string, marker: string)
    requires marker != ""
    ensures var said := UpTo(s, marker);
            && said <= s && (said == s || marker <= s[|said|..])
            && forall k :: 0 <= k < |said| ==> !(marker <= s[k..])
    decreases |s|
  {
    if marker <= s || s == "" {
      assert s[0..] == s;
    } else {
      UpToIs(s[1..], marker);
      var said := UpTo(s, marker);
      assert s == [s[0]] + s[1..] && s[|said|..] == s[1..][|said| - 1..];
      forall k | 0 <= k < |said|
        ensures !(marker <= s[k..])
      {
        if k == 0 {
          assert s[0..] == s;
        } else {
          assert s[k..] == s[1..][k - 1..];
        }
      }
    }
  }

  lemma {:induction false} UnprefixedIs(s: string, prefix: string)
    ensures Without(s, prefix, Unprefixed(s, prefix))
  {
  }

  lemma {:induction false} DeliveredTextIs(content: string, d: Delivery)
    ensures Spoken(content, d, DeliveredText(content, d))
  {
    var room := if d.room != "" then "[" + d.room + "] " else "";
    var sender := if d.source != "" then d.source + ": " else "";
    var unroomed := Unprefixed(content, room);
    var unsent := Unprefixed(unroomed, sender);
    UnprefixedIs(content, room);
    UnprefixedIs(unroomed, sender);
    UpToIs(unsent, TRAILER);
    assert Untrailed(unsent, UpTo(unsent, TRAILER));
  }

  /** A line comes out of its delivery's wrapping as it was said. */
  lemma {:induction false} SpokenIsOne(content: string, d: Delivery, a: string, b: string)
    requires Spoken(content, d, a) && Spoken(content, d, b)
    ensures a == b
  {
    hide Untrailed;
    var room := if d.room == "" then "" else "[" + d.room + "] ";
    var sender := if d.source == "" then "" else d.source + ": ";
    var u, s :| Without(content, room, u) && Without(u, sender, s) && Untrailed(s, a);
    var v, t :| Without(content, room, v) && Without(v, sender, t) && Untrailed(t, b);
    WithoutIsOne(content, room, u, v);
    WithoutIsOne(u, sender, s, t);
    UntrailedIsOne(s, a, b);
  }

  lemma {:induction false} WithoutIsOne(s: string, prefix: string, a: string, b: string)
    requires Without(s, prefix, a) && Without(s, prefix, b)
    ensures a == b
  {
    if s == prefix + a {
      assert s[|prefix|..] == a;
    }
    if s == prefix + b {
      assert s[|prefix|..] == b;
    }
  }

  lemma {:induction false} UntrailedIsOne(s: string, a: string, b: string)
    requires Untrailed(s, a) && Untrailed(s, b)
    ensures a == b
  {
    hide TRAILER;
  }

  // ---------------------------------------------------- what each kind of record adds

  /** What `records[i]` adds to the conversation read up to it. */
  ghost predicate Adds(records: seq<Placed>, i: nat, user: string, first: string, added: seq<Placed>)
    requires i < |records|
  {
    Neutral(records[..i + 1], user, first) == Neutral(records[..i], user, first) + added
  }

  lemma {:induction false} AddsIs(records: seq<Placed>, i: nat, user: string, first: string)
    requires i < |records|
    ensures Adds(records, i, user, first, Added(records[i], user, LastAnswer(Neutral(records[..i], user, first), first)))
  {
    hide Added;
    assert records[..i + 1][..i] == records[..i];
    AnswererIsLast(records[..i], user, first);
  }

  /** A line typed at the terminal adds one person's line with its own text and stamp,
      exactly when it says something and no harness mark begins it. */
  lemma {:induction false} TypedLineIff(records: seq<Placed>, i: nat, user: string, first: string)
    requires i < |records| && records[i].record.User?
    requires !records[i].record.extra.meta && records[i].record.extra.inbound.None?
    ensures var each := records[i];
            var text := if each.record.content.Some? then each.record.content.value else "";
            Adds(records, i, user, first,
                 if Says(text) && !BeginsWithMark(text) then
                   [each.(record := Person(each.record.stamp, Some(text), user, PLAIN.(provider := each.provider)))]
                 else [])
  {
    hide IsHarness, BeginsWithMark, Says;
    AddsIs(records, i, user, first);
    HarnessIff(Text(records[i].record.content));
  }

  /** A delivered line adds one person's line: what was said, credited to its attested
      sender. A user's turn does so only when no harness mark begins it; one queued always. */
  lemma {:induction false} DeliveredLineIff(records: seq<Placed>, i: nat, user: string, first: string, said: string)
    requires i < |records|
    requires var r := records[i].record;
             || (r.User? && !r.extra.meta && r.extra.inbound.Some?)
             || (r.State? && r.kind == "queued_command" && r.extra.inbound.Some?)
    requires var r := records[i].record;
             Spoken(if r.content.Some? then r.content.value else "", r.extra.inbound.value, said)
    ensures var each := records[i];
            var text := if each.record.content.Some? then each.record.content.value else "";
            var source := each.record.extra.inbound.value.source;
            Adds(records, i, user, first,
                 if each.record.State? || (Says(text) && !BeginsWithMark(text)) then
                   [each.(record := Person(each.record.stamp, Some(said), if source == "" then "unknown" else source,
                                           PLAIN.(provider := each.provider)))]
                 else [])
  {
    hide IsHarness, BeginsWithMark, Says, Spoken, DeliveredText;
    var r := records[i].record;
    AddsIs(records, i, user, first);
    HarnessIff(Text(r.content));
    DeliveredTextIs(Text(r.content), r.extra.inbound.value);
    SpokenIsOne(Text(r.content), r.extra.inbound.value, said, DeliveredText(Text(r.content), r.extra.inbound.value));
  }

  /** A person's line already credited keeps its words, its sender and what was attached. */
  lemma {:induction false} PersonIsKept(records: seq<Placed>, i: nat, user: string, first: string)
    requires i < |records| && records[i].record.Person?
    ensures var each := records[i];
            var r := each.record;
            Adds(records, i, user, first,
                 [each.(record := Person(r.stamp, r.content, if r.sender == "" then "unknown" else r.sender,
                                         PLAIN.(provider := each.provider, attached := r.extra.attached)))])
  {
    hide Neutral, LastAnswer;
    AddsIs(records, i, user, first);
  }

  /** An answer that says something and every call keep what they say under their provider's
      tag, after a marker when another provider gave the last answer of the conversation. */
  lemma {:induction false} AnswerIsKept(records: seq<Placed>, i: nat, user: string, first: string)
    requires i < |records|
    requires var r := records[i].record;
             r.Call? || (r.Assistant? && r.content.Some? && Says(r.content.value))
    ensures var each := records[i];
            var before := LastAnswer(Neutral(records[..i], user, first), first);
            var tag := PLAIN.(provider := each.provider);
            Adds(records, i, user, first,
                 (if before != "" && before != each.provider then [each.(record := Switch(None, before, each.provider))] else [])
                 + [each.(record := match each.record
                                    case Call(stamp, callId, name, arguments, _) => Call(stamp, callId, name, arguments, tag)
                                    case _ => Assistant(each.record.stamp, each.record.content, tag))])
  {
    hide Neutral, LastAnswer, Says;
    AddsIs(records, i, user, first);
    if records[i].record.Assistant? {
      StripSays(Text(records[i].record.content));
    }
  }

  /** A result keeps its call, its texts and whether it failed. */
  lemma {:induction false} ResultIsKept(records: seq<Placed>, i: nat, user: string, first: string)
    requires i < |records| && records[i].record.Result?
    ensures var each := records[i];
            var r := each.record;
            Adds(records, i, user, first,
                 [each.(record := Result(r.stamp, r.callId, r.texts,
                                         PLAIN.(provider := each.provider, failed := r.extra.failed)))])
  {
    hide Neutral, LastAnswer;
    AddsIs(records, i, user, first);
  }

  /** Every other record adds nothing. */
  lemma {:induction false} RestIsDropped(records: seq<Placed>, i: nat, user: string, first: string)
    requires i < |records|
    requires match records[i].record
             case Person(_, _, _, _) => false
             case User(_, _, extra) => extra.meta
             case Assistant(_, content, _) => content.None? || !Says(content.value)
             case Call(_, _, _, _, _) => false
             case Result(_, _, _, _) => false
             case State(_, kind, _, extra) => kind != "queued_command" || extra.inbound.None?
             case _ => true
    ensures Adds(records, i, user, first, [])
  {
    hide Neutral, LastAnswer, Says;
    AddsIs(records, i, user, first);
    if records[i].record.Assistant? {
      StripSays(Text(records[i].record.content));
    }
  }
}
