/** Isolating the records a server refuses: `runs/refusal.py`.

    `SendIsolating` halves a refused batch until each refused record is alone, sends a
    stand-in for that record, and sends every other record as it is. Its only effect is
    the `send` call, so the model threads the list of sends made so far; the server is any
    function of that list and the batch, which lets its answers change over time. */
module Refusal {
  import opened Common

  datatype Payload = Content(text: string) | RefusedContent(refusedKind: string, reason: string)

  datatype Body = Body(idx: nat, contextId: nat, model: string, timestamp: string, kind: string, payload: Payload)

  /** What the server did with one send: a client error carries its status. */
  datatype Answer = Accepted | Error(status: int, reason: string)

  predicate IsRefusal(a: Answer) {
    a.Error? && a.status in {400, 413, 422}
  }

  datatype Sent = Sent(batch: seq<Body>, answer: Answer)

  type Server = (seq<Sent>, seq<Body>) -> Answer

  /** How a call ended: it returned, an error propagated, or an empty batch that the
      server refuses was halved into itself until the interpreter's recursion limit. */
  datatype Outcome = Returned(refused: seq<Body>) | Raised(error: Answer) | TooDeep

  function StandIn(body: Body, reason: string): Body {
    body.(kind := "RefusedRecord", payload := RefusedContent(body.kind, reason))
  }

  function SendIsolating(server: Server, log: seq<Sent>, records: seq<Body>): (seq<Sent>, Outcome)
    decreases |records|
  {
    var answer := server(log, records);
    var sent := log + [Sent(records, answer)];
    if answer.Accepted? then
      (sent, Returned([]))
    else if !IsRefusal(answer) then
      (sent, Raised(answer))
    else if |records| == 0 then
      (sent, TooDeep)
    else if |records| == 1 then
      var lone := [StandIn(records[0], answer.reason)];
      var second := server(sent, lone);
      (sent + [Sent(lone, second)],
       if second.Accepted? then Returned([records[0]]) else Raised(second))
    else
      var half := |records| / 2;
      var (log1, first) := SendIsolating(server, sent, records[..half]);
      if !first.Returned? then (log1, first)
      else
        var (log2, rest) := SendIsolating(server, log1, records[half..]);
        (log2, if rest.Returned? then Returned(first.refused + rest.refused) else rest)
  }

  /** The server refuses by content: a batch it accepts holds no bad record, a refusal
      names one, any other error may come at any time, and stand-ins are never bad. */
  ghost predicate RefusesByContent(server: Server, bad: Body -> bool) {
    && (forall log, batch :: server(log, batch).Accepted? ==> NoneBad(batch, bad))
    && (forall log, batch :: IsRefusal(server(log, batch)) ==> !NoneBad(batch, bad))
    && (forall body, reason :: !bad(StandIn(body, reason)))
  }

  ghost predicate NoneBad(batch: seq<Body>, bad: Body -> bool) {
    forall i :: 0 <= i < |batch| ==> !bad(batch[i])
  }

  /** The server never fails other than by refusing. */
  ghost predicate NoOutage(server: Server) {
    forall log, batch :: server(log, batch).Accepted? || IsRefusal(server(log, batch))
  }

  /** `out` is `records` with exactly the bad ones replaced by stand-ins. */
  ghost predicate StandsFor(out: seq<Body>, records: seq<Body>, bad: Body -> bool) {
    && |out| == |records|
    && forall i :: 0 <= i < |out| ==>
         if bad(records[i]) then exists reason :: out[i] == StandIn(records[i], reason)
         else out[i] == records[i]
  }

  /** Everything the server accepted, in the order it accepted it. */
  function Stored(log: seq<Sent>): seq<Body> {
    if log == [] then []
    else Stored(log[..|log| - 1]) + (var last := log[|log| - 1]; if last.answer.Accepted? then last.batch else [])
  }

  function Bad(records: seq<Body>, bad: Body -> bool): seq<Body> {
    if records == [] then []
    else (if bad(records[0]) then [records[0]] else []) + Bad(records[1..], bad)
  }

  /** The smallest `k` with `n <= 2^k`. */
  function CeilLog2(n: nat): nat {
    if n <= 1 then 0 else 1 + CeilLog2(n - n / 2)
  }

  lemma {:induction false} BadConcat(a: seq<Body>, b: seq<Body>, bad: Body -> bool)
    ensures Bad(a + b, bad) == Bad(a, bad) + Bad(b, bad)
  {
    if a == [] {
      assert a + b == b;
    } else {
      var head := if bad(a[0]) then [a[0]] else [];
      assert (a + b)[1..] == a[1..] + b && (a + b)[0] == a[0];
      BadConcat(a[1..], b, bad);
      assert head + (Bad(a[1..], bad) + Bad(b, bad)) == (head + Bad(a[1..], bad)) + Bad(b, bad);
    }
  }

  lemma {:induction false} NoneBadFilter(records: seq<Body>, bad: Body -> bool)
    ensures NoneBad(records, bad) <==> Bad(records, bad) == []
  {
    if records != [] {
      NoneBadFilter(records[1..], bad);
      assert records == [records[0]] + records[1..];
    }
  }

  lemma {:induction false} CeilLog2Mono(m: nat, n: nat)
    requires m <= n
    ensures CeilLog2(m) <= CeilLog2(n)
    decreases n
  {
    if m > 1 {
      CeilLog2Mono(m - m / 2, n - n / 2);
    }
  }

  // ------------------------------------------------------------- any server at all

  /** A record that was refused alone, and why. */
  datatype Refused = Refused(body: Body, reason: string)

  /** The records refused alone among some sends, in order. */
  function Refusals(sends: seq<Sent>): seq<Refused> {
    if sends == [] then []
    else
      var last := sends[|sends| - 1];
      Refusals(sends[..|sends| - 1]) +
      if |last.batch| == 1 && IsRefusal(last.answer) then [Refused(last.batch[0], last.answer.reason)] else []
  }

  /** For each record, why it was refused alone, if it was. */
  type Marks = seq<Option<string>>

  /** Exactly the marked records replaced, each by its stand-in. */
  function Image(records: seq<Body>, marks: Marks): seq<Body>
    requires |marks| == |records|
  {
    seq(|records|, i requires 0 <= i < |records| =>
                     if marks[i].Some? then StandIn(records[i], marks[i].value) else records[i])
  }

  function Picked(records: seq<Body>, marks: Marks): seq<Refused>
    requires |marks| == |records|
  {
    if records == [] then []
    else
      var n := |records| - 1;
      Picked(records[..n], marks[..n]) + if marks[n].Some? then [Refused(records[n], marks[n].value)] else []
  }

  function Bodies(refused: seq<Refused>): seq<Body> {
    seq(|refused|, i requires 0 <= i < |refused| => refused[i].body)
  }

  /** Every answer among the sends is one the server gave to that batch. */
  ghost predicate Given(server: Server, sends: seq<Sent>) {
    forall i :: 0 <= i < |sends| ==> AnswerOf(server, sends[i])
  }

  ghost predicate AnswerOf(server: Server, sent: Sent) {
    exists log :: server(log, sent.batch) == sent.answer
  }

  /** The error is no refusal, or one of a stand-in. */
  ghost predicate ErrorOk(server: Server, error: Answer) {
    && error.Error?
    && (IsRefusal(error) ==> exists body, reason :: AnswerOf(server, Sent([StandIn(body, reason)], error)))
  }

  /** The sends of one call stored a prefix of the records, exactly those refused alone
      replaced; all of them when the call returned, which handed just those back. */
  ghost predicate Isolated(server: Server, sends: seq<Sent>, out: Outcome, records: seq<Body>, marks: Marks) {
    && |marks| <= |records| && Given(server, sends)
    && Stored(sends) == Image(records[..|marks|], marks)
    && Picked(records[..|marks|], marks) <= Refusals(sends)
    && (out.Returned? ==>
          |marks| == |records| && Refusals(sends) == Picked(records, marks) && out.refused == Bodies(Picked(records, marks)))
    && (out.Raised? ==> ErrorOk(server, out.error))
  }

  lemma {:induction false} StoredJoins(a: seq<Sent>, b: seq<Sent>)
    ensures Stored(a + b) == Stored(a) + Stored(b) && Refusals(a + b) == Refusals(a) + Refusals(b)
    decreases |b|
  {
    if b == [] {
      assert a + b == a;
    } else {
      assert (a + b)[..|a + b| - 1] == a + b[..|b| - 1];
      StoredJoins(a, b[..|b| - 1]);
    }
  }

  lemma {:induction false} PickedJoins(a: seq<Body>, m: Marks, b: seq<Body>, n: Marks)
    requires |m| == |a| && |n| == |b|
    ensures Picked(a + b, m + n) == Picked(a, m) + Picked(b, n)
    decreases |b|
  {
    if b == [] {
      assert a + b == a && m + n == m;
    } else {
      var k := |b| - 1;
      assert (a + b)[..|a + b| - 1] == a + b[..k] && (m + n)[..|a + b| - 1] == m + n[..k];
      PickedJoins(a, m, b[..k], n[..k]);
    }
  }

  lemma {:induction false} ImageJoins(a: seq<Body>, m: Marks, b: seq<Body>, n: Marks)
    requires |m| == |a| && |n| == |b|
    ensures Image(a + b, m + n) == Image(a, m) + Image(b, n)
  {
  }

  function Unmarked(n: nat): Marks {
    seq(n, _ => None)
  }

  lemma {:induction false} NothingMarked(records: seq<Body>)
    ensures Image(records, Unmarked(|records|)) == records && Picked(records, Unmarked(|records|)) == []
    decreases |records|
  {
    if records != [] {
      var n := |records| - 1;
      NothingMarked(records[..n]);
      assert Unmarked(|records|)[..n] == Unmarked(n);
    }
  }

  lemma {:induction false} OneSend(sent: Sent)
    ensures Stored([sent]) == if sent.answer.Accepted? then sent.batch else []
    ensures Refusals([sent]) ==
            if |sent.batch| == 1 && IsRefusal(sent.answer) then [Refused(sent.batch[0], sent.answer.reason)] else []
  {
    assert [sent][..0] == [];
  }

  /** A send that ends the call: accepted whole, or an error that is no refusal. */
  lemma {:induction false} PlainSend(server: Server, log: seq<Sent>, records: seq<Body>)
    requires !IsRefusal(server(log, records))
    ensures var answer := server(log, records);
            Isolated(server, [Sent(records, answer)], if answer.Accepted? then Returned([]) else Raised(answer), records,
                     if answer.Accepted? then Unmarked(|records|) else [])
  {
    var answer := server(log, records);
    OneSend(Sent(records, answer));
    NothingMarked(records);
    assert records[..|records|] == records;
    assert AnswerOf(server, Sent(records, answer));
  }

  /** A record refused alone, and its stand-in. */
  lemma {:induction false} LoneSends(server: Server, log: seq<Sent>, record: Body)
    requires IsRefusal(server(log, [record]))
    ensures var answer := server(log, [record]);
            var sent := Sent([record], answer);
            var lone := [StandIn(record, answer.reason)];
            var second := server(log + [sent], lone);
            Isolated(server, [sent, Sent(lone, second)], if second.Accepted? then Returned([record]) else Raised(second),
                     [record], if second.Accepted? then [Some(answer.reason)] else [])
  {
    var answer := server(log, [record]);
    var sent := Sent([record], answer);
    var lone := [StandIn(record, answer.reason)];
    var second := server(log + [sent], lone);
    OneSend(sent);
    OneSend(Sent(lone, second));
    StoredJoins([sent], [Sent(lone, second)]);
    assert [sent] + [Sent(lone, second)] == [sent, Sent(lone, second)];
    assert AnswerOf(server, sent) && AnswerOf(server, Sent(lone, second));
    assert [record][..0] == [] && [Some(answer.reason)][..0] == [] && [record][..1] == [record];
  }

  /** The refused batch, its first half and, when that returned, its second. */
  lemma {:induction false} HalvesJoin(server: Server, head: Sent, s1: seq<Sent>, first: Outcome, a: seq<Body>, m: Marks,
                                      s2: seq<Sent>, rest: Outcome, b: seq<Body>, n: Marks)
    requires AnswerOf(server, head) && IsRefusal(head.answer) && |head.batch| >= 2
    requires Isolated(server, s1, first, a, m) && first.Returned? && Isolated(server, s2, rest, b, n)
    ensures Isolated(server, [head] + s1 + s2, if rest.Returned? then Returned(first.refused + rest.refused) else rest,
                     a + b, m + n)
  {
    hide Image, Picked, Refusals, Stored, Bodies, AnswerOf, ErrorOk;
    var sends := [head] + s1 + s2;
    OneSend(head);
    StoredJoins([head], s1);
    StoredJoins([head] + s1, s2);
    assert Given(server, sends);
    assert a[..|m|] == a && (a + b)[..|m + n|] == a + b[..|n|];
    ImageJoins(a, m, b[..|n|], n);
    PickedJoins(a, m, b[..|n|], n);
    assert Stored(sends) == Stored(s1) + Stored(s2) && Refusals(sends) == Refusals(s1) + Refusals(s2);
    PrefixJoins(Refusals(s1), Picked(b[..|n|], n), Refusals(s2));
    if rest.Returned? {
      assert b[..|n|] == b;
      BodiesJoin(Picked(a, m), Picked(b, n));
    }
  }

  lemma {:induction false} PrefixJoins(x: seq<Refused>, y: seq<Refused>, z: seq<Refused>)
    requires y <= z
    ensures x + y <= x + z
  {
  }

  lemma {:induction false} BodiesJoin(x: seq<Refused>, y: seq<Refused>)
    ensures Bodies(x + y) == Bodies(x) + Bodies(y)
  {
  }

  lemma {:induction false} HalfStops(server: Server, head: Sent, s1: seq<Sent>, first: Outcome, a: seq<Body>, m: Marks, b: seq<Body>)
    requires AnswerOf(server, head) && IsRefusal(head.answer) && |head.batch| >= 2
    requires Isolated(server, s1, first, a, m) && !first.Returned?
    ensures Isolated(server, [head] + s1, first, a + b, m)
  {
    OneSend(head);
    StoredJoins([head], s1);
    assert (a + b)[..|m|] == a[..|m|];
  }

  lemma {:induction false} Isolates(server: Server, log: seq<Sent>, records: seq<Body>) returns (sends: seq<Sent>, marks: Marks)
    ensures var (log', out) := SendIsolating(server, log, records);
            log' == log + sends && Isolated(server, sends, out, records, marks)
    decreases |records|
  {
    hide Isolated;
    var answer := server(log, records);
    var head := Sent(records, answer);
    if !IsRefusal(answer) {
      PlainSend(server, log, records);
      return [head], if answer.Accepted? then Unmarked(|records|) else [];
    } else if |records| == 0 {
      NothingStored(server, log);
      return [head], [];
    } else if |records| == 1 {
      assert records == [records[0]];
      LoneSends(server, log, records[0]);
      var lone := [StandIn(records[0], answer.reason)];
      var second := server(log + [head], lone);
      assert log + [head] + [Sent(lone, second)] == log + [head, Sent(lone, second)];
      return [head, Sent(lone, second)], if second.Accepted? then [Some(answer.reason)] else [];
    }
    var half := |records| / 2;
    var a, b := records[..half], records[half..];
    assert records == a + b && AnswerOf(server, head);
    var s1, m := Isolates(server, log + [head], a);
    var (log1, first) := SendIsolating(server, log + [head], a);
    assert log + [head] + s1 == log + ([head] + s1);
    if !first.Returned? {
      HalfStops(server, head, s1, first, a, m, b);
      return [head] + s1, m;
    }
    var s2, n := Isolates(server, log1, b);
    HalvesJoin(server, head, s1, first, a, m, s2, SendIsolating(server, log1, b).1, b, n);
    assert log + ([head] + s1) + s2 == log + ([head] + s1 + s2);
    return [head] + s1 + s2, m + n;
  }

  lemma {:induction false} NothingStored(server: Server, log: seq<Sent>)
    requires IsRefusal(server(log, []))
    ensures Isolated(server, [Sent([], server(log, []))], TooDeep, [], [])
  {
    OneSend(Sent([], server(log, [])));
    assert AnswerOf(server, Sent([], server(log, [])));
  }

  /** Whatever the server refuses, by content or by size, now or later: a call stores its
      records with exactly those refused alone replaced by stand-ins that say why, and hands
      just those back; stopped by an error it stores a prefix of that, and the error is no
      refusal but of a stand-in. */
  lemma {:induction false} ReplacesRefusedAlone(server: Server, log: seq<Sent>, records: seq<Body>)
    ensures var (log', out) := SendIsolating(server, log, records);
            log <= log' && exists marks :: Isolated(server, log'[|log|..], out, records, marks)
  {
    hide Isolated;
    var sends, marks := Isolates(server, log, records);
    assert (log + sends)[|log|..] == sends;
  }

  /** What the first answer decides: only a 400, 413 or 422 is taken for a refusal. A record
      refused alone is stood in for by one that says what it was and why; a larger batch is
      halved, its first half sent next; any other error ends the call at once. */
  lemma {:induction false} FirstAnswerDecides(server: Server, log: seq<Sent>, records: seq<Body>)
    requires records != []
    ensures var answer := server(log, records);
            var (log', out) := SendIsolating(server, log, records);
            var refused := answer.Error? && answer.status in {400, 413, 422};
            && log + [Sent(records, answer)] <= log'
            && (!refused ==> log' == log + [Sent(records, answer)]
                             && out == if answer.Accepted? then Returned([]) else Raised(answer))
            && (refused ==> |log'| >= |log| + 2)
            && (refused && |records| == 1 ==>
                  var r := records[0];
                  log'[|log| + 1].batch == [Body(r.idx, r.contextId, r.model, r.timestamp, "RefusedRecord",
                                                 RefusedContent(r.kind, answer.reason))])
            && (refused && |records| > 1 ==> log'[|log| + 1].batch == records[..|records| / 2])
  {
    var answer := server(log, records);
    var sent := log + [Sent(records, answer)];
    if IsRefusal(answer) && |records| > 1 {
      var half := |records| / 2;
      LogGrows(server, sent, records[..half]);
      LogGrows(server, SendIsolating(server, sent, records[..half]).0, records[half..]);
    }
  }

  /** A call adds to the log, first of all its own batch. */
  lemma {:induction false} LogGrows(server: Server, log: seq<Sent>, records: seq<Body>)
    ensures log + [Sent(records, server(log, records))] <= SendIsolating(server, log, records).0
    decreases |records|
  {
    var sent := log + [Sent(records, server(log, records))];
    if IsRefusal(server(log, records)) && |records| > 1 {
      var half := |records| / 2;
      LogGrows(server, sent, records[..half]);
      LogGrows(server, SendIsolating(server, sent, records[..half]).0, records[half..]);
    }
  }

  /** So a server that never fails but by refusing, and takes stand-ins, makes every call
      with something to send return. */
  lemma {:induction false} ReturnsUnlessStopped(server: Server, log: seq<Sent>, records: seq<Body>)
    requires NoOutage(server) && records != []
    requires forall l, body, reason :: server(l, [StandIn(body, reason)]).Accepted?
    ensures SendIsolating(server, log, records).1.Returned?
  {
    var sends, marks := Isolates(server, log, records);
    TooDeepOnlyWhenEmpty(server, log, records);
    var out := SendIsolating(server, log, records).1;
    if out.Raised? {
      RaisedAnswer(server, log, records);
      StandInRefused(server, out.error);
      assert false;
    }
  }

  lemma {:induction false} StandInRefused(server: Server, error: Answer)
    requires ErrorOk(server, error) && IsRefusal(error)
    ensures exists l, body, reason :: server(l, [StandIn(body, reason)]) == error
  {
    var body, reason :| AnswerOf(server, Sent([StandIn(body, reason)], error));
    var l :| server(l, [StandIn(body, reason)]) == error;
  }

  /** And no call sends more than three batches a record. */
  lemma {:induction false} ThreeSendsEach(server: Server, log: seq<Sent>, records: seq<Body>)
    requires records != []
    ensures |SendIsolating(server, log, records).0| <= |log| + 3 * |records| - 1
    decreases |records|
  {
    if |records| >= 2 {
      var sent := log + [Sent(records, server(log, records))];
      var half := |records| / 2;
      ThreeSendsEach(server, sent, records[..half]);
      ThreeSendsEach(server, SendIsolating(server, sent, records[..half]).0, records[half..]);
    }
  }

  // ------------------------------------------------- a server that refuses by content

  /** The server's store went from `before` to `after`: it gained the image of a prefix of
      `records`, and of all of them, handing back `badOnes`, when the call returned. */
  ghost predicate Imaged(before: seq<Body>, after: seq<Body>, out: Outcome, records: seq<Body>,
                         badOnes: seq<Body>, bad: Body -> bool)
  {
    && !out.TooDeep?
    && (out.Raised? ==> out.error.Error? && !IsRefusal(out.error))
    && (out.Returned? ==> out.refused == badOnes)
    && exists n: nat :: n <= |records| && ImageOf(before, after, records[..n], bad) && (out.Returned? ==> n == |records|)
  }

  ghost predicate ImageOf(before: seq<Body>, after: seq<Body>, records: seq<Body>, bad: Body -> bool) {
    before <= after && StandsFor(after[|before|..], records, bad)
  }

  /** What was stored is not bad, and what was refused alone is. */
  lemma {:induction false} SendsTell(server: Server, sends: seq<Sent>, bad: Body -> bool)
    requires RefusesByContent(server, bad) && Given(server, sends)
    ensures forall x :: x in Stored(sends) ==> !bad(x)
    ensures forall r :: r in Refusals(sends) ==> bad(r.body)
    decreases |sends|
  {
    if sends != [] {
      var init, last := sends[..|sends| - 1], sends[|sends| - 1];
      SendsTell(server, init, bad);
      assert AnswerOf(server, last);
    }
  }

  lemma {:induction false} PickedBad(records: seq<Body>, marks: Marks, bad: Body -> bool)
    requires |marks| == |records| && forall i :: 0 <= i < |records| ==> (marks[i].Some? <==> bad(records[i]))
    ensures Bodies(Picked(records, marks)) == Bad(records, bad)
    decreases |records|
  {
    if records != [] {
      var n := |records| - 1;
      PickedBad(records[..n], marks[..n], bad);
      assert records == records[..n] + [records[n]];
      BadConcat(records[..n], [records[n]], bad);
    }
  }

  lemma {:induction false} PickedHas(records: seq<Body>, marks: Marks, i: nat)
    requires |marks| == |records| && i < |records| && marks[i].Some?
    ensures Refused(records[i], marks[i].value) in Picked(records, marks)
    decreases |records|
  {
    if i < |records| - 1 {
      PickedHas(records[..|records| - 1], marks[..|records| - 1], i);
    }
  }

  /** Then the records refused alone are exactly the bad ones. */
  lemma {:induction false} MarkedIffBad(server: Server, sends: seq<Sent>, out: Outcome, records: seq<Body>, marks: Marks, bad: Body -> bool)
    requires RefusesByContent(server, bad) && Isolated(server, sends, out, records, marks)
    ensures forall i :: 0 <= i < |marks| ==> (marks[i].Some? <==> bad(records[i]))
  {
    SendsTell(server, sends, bad);
    var kept := records[..|marks|];
    forall i | 0 <= i < |marks|
      ensures marks[i].Some? <==> bad(records[i])
    {
      assert Stored(sends)[i] == Image(kept, marks)[i] && Stored(sends)[i] in Stored(sends);
      if marks[i].Some? {
        PickedHas(kept, marks, i);
        assert Refused(kept[i], marks[i].value) in Refusals(sends);
      }
    }
  }

  /** Against a server that refuses by content, a call stores the image of its records
      and hands back the bad ones when it returns, stores the image of a prefix when an
      error stops it, and never recurses without end. */
  lemma {:induction false} StoresImage(server: Server, bad: Body -> bool, log: seq<Sent>, records: seq<Body>)
    requires RefusesByContent(server, bad)
    ensures var (log', out) := SendIsolating(server, log, records);
            Imaged(Stored(log), Stored(log'), out, records, Bad(records, bad), bad)
  {
    var (log', out) := SendIsolating(server, log, records);
    var sends, marks := Isolates(server, log, records);
    StoredJoins(log, sends);
    MarkedIffBad(server, sends, out, records, marks, bad);
    TooDeepOnlyWhenEmpty(server, log, records);
    var kept := records[..|marks|];
    assert Stored(log')[|Stored(log)|..] == Image(kept, marks);
    forall i | 0 <= i < |marks|
      ensures if bad(kept[i]) then exists reason :: Image(kept, marks)[i] == StandIn(kept[i], reason)
              else Image(kept, marks)[i] == kept[i]
    {
      assert marks[i].Some? ==> Image(kept, marks)[i] == StandIn(kept[i], marks[i].value);
    }
    assert ImageOf(Stored(log), Stored(log'), kept, bad);
    if out.Returned? {
      assert kept == records;
      PickedBad(records, marks, bad);
    }
    if out.Raised? {
      ErrorIsNoRefusal(server, bad, out.error);
    }
  }

  lemma {:induction false} ErrorIsNoRefusal(server: Server, bad: Body -> bool, error: Answer)
    requires RefusesByContent(server, bad) && ErrorOk(server, error)
    ensures !IsRefusal(error)
  {
    forall l, body, reason
      ensures !IsRefusal(server(l, [StandIn(body, reason)]))
    {
      assert NoneBad([StandIn(body, reason)], bad);
    }
  }

  /** With no outage the call returns, so the stored records are the whole image. */
  lemma {:induction false} ReturnsWithoutOutage(server: Server, log: seq<Sent>, records: seq<Body>, bad: Body -> bool)
    requires RefusesByContent(server, bad) && NoOutage(server)
    ensures SendIsolating(server, log, records).1 == Returned(Bad(records, bad))
  {
    StoresImage(server, bad, log, records);
    RaisedAnswer(server, log, records);
  }

  /** An error a call raises is one the server gave. */
  lemma {:induction false} RaisedAnswer(server: Server, log: seq<Sent>, records: seq<Body>)
    ensures var out := SendIsolating(server, log, records).1;
            out.Raised? ==> exists l, b :: server(l, b) == out.error && out.error.Error?
    decreases |records|
  {
    if |records| >= 2 {
      var sent := log + [Sent(records, server(log, records))];
      var half := |records| / 2;
      RaisedAnswer(server, sent, records[..half]);
      RaisedAnswer(server, SendIsolating(server, sent, records[..half]).0, records[half..]);
    }
  }

  function Bound(k: nat, n: nat): nat {
    1 + 2 * (k * CeilLog2(n)) + k
  }

  /** Isolating `k` bad records of `n` takes at most `1 + 2k*ceil(log2 n) + k` sends. */
  lemma {:induction false} SendsAreFew(server: Server, bad: Body -> bool, log: seq<Sent>, records: seq<Body>)
    requires RefusesByContent(server, bad) && |records| > 0
    ensures |SendIsolating(server, log, records).0| <= |log| + Bound(|Bad(records, bad)|, |records|)
    decreases |records|
  {
    hide Bound, CeilLog2;
    NoneBadFilter(records, bad);
    BoundAtLeast(|Bad(records, bad)|, |records|);
    var answer := server(log, records);
    if IsRefusal(answer) && |records| >= 2 {
      var sent := log + [Sent(records, answer)];
      var half := |records| / 2;
      var a, b := records[..half], records[half..];
      assert records == a + b;
      BadConcat(a, b, bad);
      SendsAreFew(server, bad, sent, a);
      SendsAreFew(server, bad, SendIsolating(server, sent, a).0, b);
      HalvesBound(|Bad(a, bad)|, |Bad(b, bad)|, |records|);
    }
  }

  lemma {:induction false} BoundAtLeast(k: nat, n: nat)
    ensures Bound(k, n) >= 1 + k
  {
    assert k * CeilLog2(n) >= 0;
  }

  lemma {:induction false} HalvesBound(k1: nat, k2: nat, n: nat)
    requires k1 + k2 >= 1 && n >= 2
    ensures 1 + Bound(k1, n / 2) + Bound(k2, n - n / 2) <= Bound(k1 + k2, n)
  {
    var shallow, deep := CeilLog2(n / 2), CeilLog2(n - n / 2);
    CeilLog2Mono(n / 2, n - n / 2);
    ProductMono(k1, shallow, deep);
    assert CeilLog2(n) == 1 + deep;
    ProductExpand(k1, k2, deep);
  }

  lemma {:induction false} ProductMono(k: nat, shallow: nat, deep: nat)
    requires shallow <= deep
    ensures k * shallow <= k * deep
  {
  }

  lemma {:induction false} ProductExpand(k1: nat, k2: nat, deep: nat)
    ensures (k1 + k2) * (1 + deep) == k1 * deep + k2 * deep + k1 + k2
  {
  }

  /** `CeilLog2` is the logarithm rounded up. */
  lemma {:induction false} CeilLog2Exact(n: nat)
    requires n >= 1
    ensures n <= Pow2(CeilLog2(n))
    ensures n >= 2 ==> Pow2(CeilLog2(n) - 1) < n
  {
    if n >= 2 {
      CeilLog2Exact(n - n / 2);
    }
  }

  function Pow2(k: nat): nat {
    if k == 0 then 1 else 2 * Pow2(k - 1)
  }

  /** Whatever the server does, only an empty batch it refuses is halved without end. */
  lemma {:induction false} TooDeepOnlyWhenEmpty(server: Server, log: seq<Sent>, records: seq<Body>)
    ensures SendIsolating(server, log, records).1.TooDeep? <==> records == [] && IsRefusal(server(log, records))
    decreases |records|
  {
    if |records| >= 2 {
      var sent := log + [Sent(records, server(log, records))];
      var half := |records| / 2;
      TooDeepOnlyWhenEmpty(server, sent, records[..half]);
      TooDeepOnlyWhenEmpty(server, SendIsolating(server, sent, records[..half]).0, records[half..]);
    }
  }
}
