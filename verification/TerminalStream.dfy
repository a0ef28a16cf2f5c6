/** A terminal's output: the ring of `lib/posix/ring.py` and the replay gate of
    `server/terminals.py`. Everything between two awaits is one step; the host's link never
    goes direct here, so the ring is never reset. */
module TerminalStream {
  import opened Common

  type Bytes = seq<bv8>

  type Leg = nat

  // ------------------------------------------------------------------ the ring

  /** What the ring holds: the tail of the stream, `end` being the stream's length. */
  datatype RingData = RingData(capacity: nat, data: Bytes, end: nat) {

    /** The ring holds what it can of the end of `stream`. */
    ghost predicate Tail(stream: Bytes) {
      && end == |stream|
      && |data| == (if |stream| < capacity then |stream| else capacity)
      && data == stream[|stream| - |data|..]
    }

    function Start(): int {
      end - |data|
    }

    function Append(more: Bytes): RingValue
      requires |data| <= end
    {
      var all := data + more;
      RingData(capacity, if |all| > capacity then all[|all| - capacity..] else all, end + |more|)
    }

    /** Where a reader that has reached `offset` resumes, and whether it lost some bytes. */
    function Resume(offset: nat): (r: nat)
      requires |data| <= end
      ensures Start() <= r <= end
    {
      var known := if offset < end then offset else end;
      if known < Start() then Start() else known
    }

    predicate Lost(offset: nat) {
      offset < Start()
    }
  }

  type RingValue = r: RingData | |r.data| <= r.end witness RingData(0, [], 0)

  lemma {:induction false} AppendKeepsTail(ring: RingValue, stream: Bytes, more: Bytes)
    requires ring.Tail(stream)
    ensures ring.Append(more).Tail(stream + more)
  {
    var all, s := ring.data + more, stream + more;
    assert all == s[|s| - |all|..];
    if |all| > ring.capacity {
      assert all[|all| - ring.capacity..] == s[|s| - ring.capacity..];
    }
  }

  class Ring {
    const capacity: nat
    var data: Bytes
    var end: nat

    ghost function Value(): RingData
      reads this
    {
      RingData(capacity, data, end)
    }

    constructor (capacity: nat)
      ensures Value() == RingData(capacity, [], 0)
    {
      this.capacity := capacity;
      data := [];
      end := 0;
    }

    method Append(more: Bytes, ghost stream: Bytes)
      requires Value().Tail(stream)
      modifies this`data, this`end
      ensures Value() == old(Value()).Append(more) && Value().Tail(stream + more)
    {
      AppendKeepsTail(Value(), stream, more);
      data := data + more;
      end := end + |more|;
      if |data| > capacity {
        data := data[|data| - capacity..];
      }
    }

    /** The bytes from the later of the offset and the ring's start, where they start, and
        whether some that the reader had not seen are gone. */
    method Since(offset: nat, ghost stream: Bytes) returns (bytes: Bytes, resume: nat, lost: bool)
      requires Value().Tail(stream)
      ensures resume <= |stream| && bytes == stream[resume..]
      ensures lost <==> offset < |stream| - |data|
      ensures resume == if lost then |stream| - |data| else if offset < |stream| then offset else |stream|
    {
      var at: int := if offset < end then offset else end;
      var start := end - |data|;
      lost := at < start;
      resume := if lost then start else at;
      bytes := data[resume - start..];
    }
  }

  // -------------------------------------------------------------- the terminal

  datatype Message = Notice | Ack(offset: nat) | Output(data: Bytes)

  /** Where an attach stands: between these it waits for a close or a send. `Stopped` is an
      attach that raised, or was cancelled, while it waited. */
  datatype Phase = Claimed | Closed | Noted | Acked | Replayed | Finished | Stopped(at: Phase)

  datatype Attach = Attach(phase: Phase, previous: Option<Leg>, offset: nat, resume: nat, lost: bool, data: Bytes) {

    predicate InFlight() {
      phase in {Claimed, Closed, Noted, Acked, Replayed}
    }
  }

  /** The host's one frame being handled: waiting at the gate, or being sent to a browser. */
  datatype Host = Idle | Held(data: Bytes) | Sending(leg: Leg)

  datatype Step =
    | Claim(leg: Leg, offset: nat)
    | Go(leg: Leg)
    | Raise(leg: Leg)
    | Leave(leg: Leg)
    | Detach(leg: Leg)
    | Frame(data: Bytes)
    | Relay
    | Sent
    | End

  datatype State = State(ring: RingValue, browser: Option<Leg>, replaying: Option<Leg>, ended: bool,
                               host: Host, attaches: map<Leg, Attach>, log: map<Leg, seq<Message>>, gone: set<Leg>)
  {
    function LogOf(leg: Leg): seq<Message> {
      if leg in log then log[leg] else []
    }

    /** `detach_browser`: a browser taken over by another changes nothing. */
    function Detached(leg: Leg): State {
      if browser == Some(leg) then this.(browser := None) else this
    }

    /** `_to_browser`: the message is logged, unless the leg is gone; then the leg is no
        longer the browser. */
    function Send(leg: Leg, message: Message): State {
      if leg in gone then Detached(leg) else this.(log := log[leg := LogOf(leg) + [message]])
    }

    /** The first step of `attach_browser`, up to its first await. */
    function Claiming(leg: Leg, offset: nat): State {
      if leg in attaches then this
      else
        var resume := ring.Resume(offset);
        var a := Attach(Claimed, browser, offset, resume, ring.Lost(offset), ring.data[resume - ring.Start()..]);
        this.(browser := Some(leg), replaying := Some(leg), attaches := attaches[leg := a])
    }

    /** `finally`: the gate opens unless another attach has taken it. */
    function Released(leg: Leg): State {
      if replaying == Some(leg) then this.(replaying := None) else this
    }

    function At(leg: Leg, phase: Phase): State
      requires leg in attaches
    {
      this.(attaches := attaches[leg := attaches[leg].(phase := phase)])
    }

    function Gone(leg: Option<Leg>): State {
      if leg.None? then this else this.(gone := gone + {leg.value})
    }

    /** The rest of `attach_browser`, one await at a time. */
    function Went(leg: Leg): State {
      if leg !in attaches then this
      else
        var a := attaches[leg];
        match a.phase
        case Claimed => Gone(a.previous).At(leg, Closed)
        case Closed => (if a.lost then Send(leg, Notice) else this).At(leg, Noted)
        case Noted => Send(leg, Ack(a.resume)).At(leg, Acked)
        case Acked => (if a.data != [] then Send(leg, Output(a.data)) else this).At(leg, Replayed)
        case Replayed => Released(leg).At(leg, Finished)
        case _ => this
    }

    function Raised(leg: Leg): State {
      if leg !in attaches || !attaches[leg].InFlight() then this
      else if attaches[leg].phase == Replayed then Went(leg)
      else Released(leg).At(leg, Stopped(attaches[leg].phase))
    }

    /** A held frame goes to the ring and to the browser when no replay is under way. */
    function Relayed(): State {
      if !host.Held? then this
      else if ended then this.(host := Idle)
      else if replaying.Some? then this
      else
        var t := this.(ring := ring.Append(host.data));
        if browser.None? then t.(host := Idle)
        else t.Send(browser.value, Output(host.data)).(host := if browser.value in gone then Idle else Sending(browser.value))
    }

    function Do(step: Step): State {
      match step
      case Claim(leg, offset) => Claiming(leg, offset)
      case Go(leg) => Went(leg)
      case Raise(leg) => Raised(leg)
      case Leave(leg) => Gone(Some(leg))
      case Detach(leg) => Detached(leg)
      case Frame(data) => if host == Idle && !ended then this.(host := Held(data)) else this
      case Relay => Relayed()
      case Sent =>
        if !host.Sending? then this
        else (if host.leg in gone then Detached(host.leg) else this).(host := Idle)
      case End => this.(ended := true)
    }

    /** The bytes the step appends to the stream. */
    function Grown(step: Step): Bytes {
      if step.Relay? && host.Held? && !ended && replaying.None? then host.data else []
    }
  }

  function Fresh(capacity: nat): State {
    State(RingData(capacity, [], 0), None, None, false, Idle, map[], map[], {})
  }

  /** A terminal with every byte its host's output ever put in the ring. */
  datatype System = System(term: State, stream: Bytes) {
    function Do(step: Step): System {
      System(term.Do(step), stream + term.Grown(step))
    }
  }

  function Run(sys: System, steps: seq<Step>): System
    decreases |steps|
  {
    if steps == [] then sys else Run(sys, steps[..|steps| - 1]).Do(steps[|steps| - 1])
  }

  // ------------------------------------------------------------ what a leg got

  /** What precedes the bytes: the lost-output notice if some were lost, then the offset. */
  function Header(a: Attach): seq<Message> {
    (if a.lost then [Notice] else []) + [Ack(a.resume)]
  }

  function Payload(log: seq<Message>): Bytes {
    if log == [] then []
    else Payload(log[..|log| - 1]) + match log[|log| - 1] case Output(data) => data case _ => []
  }

  /** The offset that the bytes after the header start at. */
  function From(a: Attach): nat {
    if a.phase == Stopped(Acked) then a.resume + |a.data| else a.resume
  }

  /** From `n` on the log holds output alone; a header carries none. */
  ghost predicate OutputsFrom(log: seq<Message>, n: nat) {
    forall i :: n <= i < |log| ==> log[i].Output?
  }

  /** The log is the header, or the beginning of it, and then the stream from `from` on,
      as far as it got. */
  ghost predicate Follows(log: seq<Message>, header: seq<Message>, from: nat, stream: Bytes) {
    || log <= header
    || (header <= log && OutputsFrom(log, |header|) && Carried(Payload(log), from, stream))
  }

  ghost predicate Carried(bytes: Bytes, from: nat, stream: Bytes) {
    from + |bytes| <= |stream| && bytes == stream[from..from + |bytes|]
  }

  /** The log is the header and then the whole stream from `from` on. */
  ghost predicate Complete(log: seq<Message>, header: seq<Message>, from: nat, stream: Bytes) {
    && header <= log && OutputsFrom(log, |header|)
    && from <= |stream| && Payload(log) == stream[from..]
  }

  // ------------------------------------------------------------- the invariant

  ghost predicate DataOk(a: Attach, stream: Bytes) {
    Carried(a.data, a.resume, stream)
  }

  function Replay(data: Bytes): seq<Message> {
    if data == [] then [] else [Output(data)]
  }

  /** What a leg's log is, whether or not the leg is still there. */
  ghost predicate LogOk(a: Attach, log: seq<Message>, stream: Bytes) {
    match a.phase
    case Claimed => log == []
    case Closed => log == []
    case Noted => log <= Header(a)[..|Header(a)| - 1]
    case Acked => log <= Header(a)
    case Replayed => log <= Header(a) + Replay(a.data)
    case Finished => Follows(log, Header(a), a.resume, stream)
    case Stopped(at) =>
      if at == Acked then Follows(log, Header(a), From(a), stream)
      else at in {Claimed, Closed, Noted} && forall i :: 0 <= i < |log| ==> !log[i].Ack?
  }

  /** What it is if every send so far went through. */
  ghost predicate OpenOk(a: Attach, log: seq<Message>) {
    match a.phase
    case Noted => log == Header(a)[..|Header(a)| - 1]
    case Acked => log == Header(a)
    case Replayed => log == Header(a) + Replay(a.data)
    case _ => true
  }

  ghost predicate LegOk(a: Attach, log: seq<Message>, stream: Bytes, open: bool) {
    && DataOk(a, stream)
    && LogOk(a, log, stream)
    && (open ==> OpenOk(a, log))
  }

  /** What holds of the leg that is the browser: while its replay is under way the gate is
      its own, and after that it has everything. */
  ghost predicate AttachedOk(a: Attach, log: seq<Message>, stream: Bytes, open: bool, gated: bool) {
    && (a.InFlight() ==> gated)
    && (open && a.phase in {Finished, Stopped(Acked)} ==> Complete(log, Header(a), From(a), stream))
  }

  ghost predicate BrowserOk(t: State, leg: Leg, stream: Bytes) {
    && leg in t.attaches
    && AttachedOk(t.attaches[leg], t.LogOf(leg), stream, leg !in t.gone, t.replaying == Some(leg))
  }

  ghost predicate GateOk(t: State, leg: Leg, stream: Bytes) {
    && leg in t.attaches && t.attaches[leg].InFlight()
    && t.attaches[leg].resume + |t.attaches[leg].data| == |stream|
  }

  ghost predicate LegsOk(t: State, stream: Bytes) {
    && (forall leg :: leg in t.log ==> leg in t.attaches)
    && (forall leg :: leg in t.attaches ==> LegOk(t.attaches[leg], t.LogOf(leg), stream, leg !in t.gone))
  }

  ghost predicate GatesOk(t: State, stream: Bytes) {
    && (t.browser.Some? ==> BrowserOk(t, t.browser.value, stream))
    && (t.replaying.Some? ==> GateOk(t, t.replaying.value, stream))
  }

  ghost predicate Inv(sys: System) {
    sys.term.ring.Tail(sys.stream) && LegsOk(sys.term, sys.stream) && GatesOk(sys.term, sys.stream)
  }

  // ----------------------------------------------------------------- the proof

  lemma {:induction false} PayloadSnoc(log: seq<Message>, message: Message)
    ensures Payload(log + [message]) == Payload(log) + match message case Output(data) => data case _ => []
  {
    assert (log + [message])[..|log|] == log;
  }

  lemma {:induction false} CarriedMore(bytes: Bytes, from: nat, stream: Bytes, more: Bytes)
    requires Carried(bytes, from, stream)
    ensures Carried(bytes, from, stream + more)
  {
  }

  lemma {:induction false} LegKept(a: Attach, log: seq<Message>, stream: Bytes, open: bool, more: Bytes, still: bool)
    requires LegOk(a, log, stream, open) && (still ==> open)
    ensures LegOk(a, log, stream + more, still)
  {
    hide Payload, Header;
    CarriedMore(a.data, a.resume, stream, more);
    if Carried(Payload(log), From(a), stream) {
      CarriedMore(Payload(log), From(a), stream, more);
    }
  }

  /** A live frame that reaches a browser with the whole stream keeps it whole. */
  lemma {:induction false} CompleteMore(log: seq<Message>, header: seq<Message>, from: nat, stream: Bytes, data: Bytes)
    requires Complete(log, header, from, stream)
    ensures Complete(log + [Output(data)], header, from, stream + data)
  {
    hide Payload;
    PayloadSnoc(log, Output(data));
    assert stream[from..] + data == (stream + data)[from..];
  }

  lemma {:induction false} CompleteFollows(log: seq<Message>, header: seq<Message>, from: nat, stream: Bytes)
    requires Complete(log, header, from, stream)
    ensures Follows(log, header, from, stream)
  {
    hide Payload;
  }

  /** A header carries no byte, and the replay after it just its own. */
  lemma {:induction false} HeaderPayload(a: Attach)
    ensures Payload(Header(a)) == [] && Payload(Header(a) + [Output(a.data)]) == a.data
  {
    hide Payload;
    var ack: Message := Ack(a.resume);
    var none: seq<Message> := [];
    PayloadNone();
    if a.lost {
      PayloadSnoc(none, Notice);
      PayloadSnoc([Notice], ack);
      assert none + [Notice] == [Notice] && Header(a) == [Notice] + [ack];
    } else {
      PayloadSnoc(none, ack);
      assert none + [ack] == Header(a);
    }
    PayloadSnoc(Header(a), Output(a.data));
  }

  lemma {:induction false} PayloadNone()
    ensures Payload([]) == []
  {
  }

  /** The log after the replay's last send is the stream up to where the replay stopped. */
  lemma {:induction false} ReplayFollows(a: Attach, log: seq<Message>, stream: Bytes)
    requires DataOk(a, stream) && log <= Header(a) + Replay(a.data)
    ensures Follows(log, Header(a), a.resume, stream)
    ensures log == Header(a) + Replay(a.data) && a.resume + |a.data| == |stream| ==> Complete(log, Header(a), a.resume, stream)
  {
    hide Payload, Header;
    HeaderPayload(a);
    var header := Header(a);
    if |log| <= |header| {
      assert log == (header + Replay(a.data))[..|log|] == header[..|log|];
      assert header + [] == header;
    } else {
      assert log == header + [Output(a.data)];
    }
  }

  lemma {:induction false} HeaderFollows(a: Attach, log: seq<Message>, stream: Bytes)
    requires DataOk(a, stream) && log <= Header(a)
    ensures Follows(log, Header(a), a.resume + |a.data|, stream)
    ensures log == Header(a) && a.resume + |a.data| == |stream| ==>
              Complete(log, Header(a), a.resume + |a.data|, stream)
  {
    hide Payload, Header;
    HeaderPayload(a);
  }

  /** The step touched only what belongs to one leg. */
  ghost predicate OnlyLeg(t: State, u: State, leg: Leg) {
    && u.attaches.Keys == t.attaches.Keys + {leg}
    && (forall x :: x in t.attaches && x != leg ==> u.attaches[x] == t.attaches[x] && u.LogOf(x) == t.LogOf(x))
    && t.gone <= u.gone
    && u.log.Keys <= t.log.Keys + {leg}
  }

  lemma {:induction false} OnlyLegKeeps(t: State, u: State, stream: Bytes, more: Bytes, leg: Leg)
    requires LegsOk(t, stream) && OnlyLeg(t, u, leg)
    requires LegOk(u.attaches[leg], u.LogOf(leg), stream + more, leg !in u.gone)
    ensures LegsOk(u, stream + more)
  {
    forall x | x in u.attaches && x != leg
      ensures LegOk(u.attaches[x], u.LogOf(x), stream + more, x !in u.gone)
    {
      LegKept(t.attaches[x], t.LogOf(x), stream, x !in t.gone, more, x !in u.gone);
    }
  }

  function Next(phase: Phase): Phase {
    match phase
    case Claimed => Closed
    case Closed => Noted
    case Noted => Acked
    case Acked => Replayed
    case Replayed => Finished
    case _ => phase
  }

  /** What an await of the attach sends. */
  function Sends(a: Attach): seq<Message> {
    match a.phase
    case Closed => if a.lost then [Notice] else []
    case Noted => [Ack(a.resume)]
    case Acked => Replay(a.data)
    case _ => []
  }

  lemma {:induction false} WentEffect(t: State, leg: Leg)
    requires leg in t.attaches
    ensures var a, u := t.attaches[leg], t.Went(leg);
            && u.attaches == t.attaches[leg := a.(phase := Next(a.phase))]
            && u.log.Keys <= t.log.Keys + {leg} && t.gone <= u.gone
            && (forall x :: x != leg ==> u.LogOf(x) == t.LogOf(x))
            && u.LogOf(leg) == t.LogOf(leg) + (if leg in t.gone then [] else Sends(a))
            && u.ring == t.ring && u.ended == t.ended && u.host == t.host
            && (u.browser == t.browser || (u.browser == None && t.browser == Some(leg) && leg in t.gone))
            && u.replaying == (if a.phase == Replayed && t.replaying == Some(leg) then None else t.replaying)
  {
    hide State.Send, State.LogOf;
    var a := t.attaches[leg];
    match a.phase {
      case Claimed =>
        LogOfSame(t, t.Went(leg));
      case Closed =>
        if a.lost {
          SendEffect(t, leg, Notice);
          LogOfSame(t.Send(leg, Notice), t.Went(leg));
        }
        LogOfSame(t, t.At(leg, Noted));
      case Noted =>
        SendEffect(t, leg, Ack(a.resume));
        LogOfSame(t.Send(leg, Ack(a.resume)), t.Went(leg));
      case Acked =>
        if a.data != [] {
          SendEffect(t, leg, Output(a.data));
          LogOfSame(t.Send(leg, Output(a.data)), t.Went(leg));
        }
        LogOfSame(t, t.At(leg, Replayed));
      case Replayed =>
        LogOfSame(t, t.Went(leg));
      case _ =>
    }
  }

  lemma {:induction false} LogOfSame(t: State, u: State)
    requires t.log == u.log
    ensures forall x :: u.LogOf(x) == t.LogOf(x)
  {
  }

  lemma {:induction false} SendEffect(t: State, leg: Leg, message: Message)
    ensures var u := t.Send(leg, message);
            && u.(log := t.log, browser := t.browser) == t
            && (u.browser == t.browser || (u.browser == None && t.browser == Some(leg) && leg in t.gone))
            && u.LogOf(leg) == t.LogOf(leg) + (if leg in t.gone then [] else [message])
            && (forall x :: x != leg ==> u.LogOf(x) == t.LogOf(x))
            && u.log.Keys <= t.log.Keys + {leg}
  {
  }

  lemma {:induction false} SendsOk(a: Attach, log: seq<Message>, stream: Bytes, open: bool, still: bool)
    requires LegOk(a, log, stream, open) && (still ==> open)
    ensures LegOk(a.(phase := Next(a.phase)), log + (if open then Sends(a) else []), stream, still)
  {
    hide Payload, Follows;
    var header := Header(a);
    match a.phase {
      case Noted => assert header[..|header| - 1] + [Ack(a.resume)] == header;
      case Replayed => ReplayFollows(a, log, stream);
      case _ =>
    }
    if !open || Sends(a) == [] {
      assert log + (if open then Sends(a) else []) == log;
    }
  }

  /** One await of an attach moves its leg from one stage to the next. */
  lemma {:induction false} WentLegs(t: State, leg: Leg, stream: Bytes)
    requires LegsOk(t, stream) && leg in t.attaches
    ensures LegsOk(t.Went(leg), stream)
  {
    hide LegOk;
    var a, u := t.attaches[leg], t.Went(leg);
    WentEffect(t, leg);
    assert OnlyLeg(t, u, leg);
    SendsOk(a, t.LogOf(leg), stream, leg !in t.gone, leg !in u.gone);
    assert stream + [] == stream;
    OnlyLegKeeps(t, u, stream, [], leg);
  }

  lemma {:induction false} SentAttached(a: Attach, log: seq<Message>, stream: Bytes, open: bool, still: bool, gated: bool)
    requires LegOk(a, log, stream, open) && (still ==> open) && AttachedOk(a, log, stream, open, gated)
    requires gated ==> a.resume + |a.data| == |stream|
    ensures AttachedOk(a.(phase := Next(a.phase)), log + (if open then Sends(a) else []), stream, still, gated && a.phase != Replayed)
  {
    hide Complete, Header;
    var b := a.(phase := Next(a.phase));
    if a.phase == Replayed {
      assert log + [] == log;
      WholeReplay(a, log, stream);
    } else if a.phase in {Finished, Stopped(Acked)} {
      assert log + [] == log && b == a;
    }
  }

  lemma {:induction false} WholeReplay(a: Attach, log: seq<Message>, stream: Bytes)
    requires a.phase == Replayed && DataOk(a, stream) && LogOk(a, log, stream)
    ensures OpenOk(a, log) && a.resume + |a.data| == |stream| ==> Complete(log, Header(a.(phase := Finished)), a.resume, stream)
  {
    ReplayFollows(a, log, stream);
  }

  lemma {:induction false} WentGates(t: State, leg: Leg, stream: Bytes)
    requires LegsOk(t, stream) && GatesOk(t, stream) && leg in t.attaches
    ensures GatesOk(t.Went(leg), stream)
  {
    hide LegOk, State.Went, AttachedOk, Sends;
    var a, u := t.attaches[leg], t.Went(leg);
    WentEffect(t, leg);
    if u.browser == Some(leg) {
      SentAttached(a, t.LogOf(leg), stream, leg !in t.gone, leg !in u.gone, t.replaying == Some(leg));
    } else if u.browser.Some? {
      var x := u.browser.value;
      OpenLess(t.attaches[x], t.LogOf(x), stream, x !in t.gone, x !in u.gone, t.replaying == Some(x));
    }
  }

  lemma {:induction false} OpenLess(a: Attach, log: seq<Message>, stream: Bytes, open: bool, still: bool, gated: bool)
    requires AttachedOk(a, log, stream, open, gated) && (still ==> open)
    ensures AttachedOk(a, log, stream, still, gated)
  {
  }

  lemma {:induction false} RaisedKeeps(t: State, leg: Leg, stream: Bytes)
    requires LegsOk(t, stream) && GatesOk(t, stream)
    ensures LegsOk(t.Raised(leg), stream) && GatesOk(t.Raised(leg), stream)
  {
    hide LegsOk, GatesOk, State.Went;
    if leg in t.attaches && t.attaches[leg].InFlight() {
      if t.attaches[leg].phase == Replayed {
        WentLegs(t, leg, stream);
        WentGates(t, leg, stream);
      } else {
        RaisedLegs(t, leg, stream);
        RaisedGates(t, leg, stream);
      }
    }
  }

  lemma {:induction false} RaisedLegs(t: State, leg: Leg, stream: Bytes)
    requires LegsOk(t, stream) && leg in t.attaches && t.attaches[leg].phase in {Claimed, Closed, Noted, Acked}
    ensures LegsOk(t.Raised(leg), stream)
  {
    hide LegOk;
    var a, u := t.attaches[leg], t.Raised(leg);
    LogOfSame(t, u);
    assert OnlyLeg(t, u, leg);
    StoppedOk(a, t.LogOf(leg), stream, leg !in t.gone);
    assert stream + [] == stream;
    OnlyLegKeeps(t, u, stream, [], leg);
  }

  lemma {:induction false} RaisedGates(t: State, leg: Leg, stream: Bytes)
    requires LegsOk(t, stream) && GatesOk(t, stream)
    requires leg in t.attaches && t.attaches[leg].phase in {Claimed, Closed, Noted, Acked}
    ensures GatesOk(t.Raised(leg), stream)
  {
    hide LegOk, AttachedOk;
    var a, u := t.attaches[leg], t.Raised(leg);
    LogOfSame(t, u);
    if u.browser == Some(leg) {
      StoppedWhole(a, t.LogOf(leg), stream, leg !in t.gone, t.replaying == Some(leg));
    }
  }

  lemma {:induction false} StoppedOk(a: Attach, log: seq<Message>, stream: Bytes, open: bool)
    requires LegOk(a, log, stream, open) && a.phase in {Claimed, Closed, Noted, Acked}
    ensures LegOk(a.(phase := Stopped(a.phase)), log, stream, open)
  {
    if a.phase == Acked {
      HeaderFollows(a, log, stream);
    }
  }

  lemma {:induction false} StoppedWhole(a: Attach, log: seq<Message>, stream: Bytes, open: bool, gated: bool)
    requires LegOk(a, log, stream, open) && AttachedOk(a, log, stream, open, gated)
    requires (gated ==> a.resume + |a.data| == |stream|) && a.phase in {Claimed, Closed, Noted, Acked}
    ensures AttachedOk(a.(phase := Stopped(a.phase)), log, stream, open, false)
  {
    hide Payload, Complete, Header;
    HeaderSame(a, Stopped(a.phase));
    if a.phase == Acked {
      HeaderFollows(a, log, stream);
    }
  }

  lemma {:induction false} HeaderSame(a: Attach, phase: Phase)
    ensures Header(a.(phase := phase)) == Header(a)
  {
  }

  lemma {:induction false} ClaimedData(ring: RingValue, offset: nat, stream: Bytes)
    requires ring.Tail(stream)
    ensures ring.data[ring.Resume(offset) - ring.Start()..] == stream[ring.Resume(offset)..]
    ensures Carried(stream[ring.Resume(offset)..], ring.Resume(offset), stream)
  {
  }

  lemma {:induction false} ClaimKeeps(t: State, leg: Leg, offset: nat, stream: Bytes)
    requires t.ring.Tail(stream) && LegsOk(t, stream) && GatesOk(t, stream)
    ensures LegsOk(t.Claiming(leg, offset), stream) && GatesOk(t.Claiming(leg, offset), stream)
  {
    hide Complete, Carried;
    if leg !in t.attaches {
      ClaimedData(t.ring, offset, stream);
      var u := t.Claiming(leg, offset);
      LogOfSame(t, u);
      ClaimedLegs(t, u, leg, stream);
    }
  }

  lemma {:induction false} ClaimedLegs(t: State, u: State, leg: Leg, stream: Bytes)
    requires LegsOk(t, stream) && leg !in t.attaches && leg in u.attaches
    requires u.attaches == t.attaches[leg := u.attaches[leg]] && u.log == t.log && u.gone == t.gone
    requires u.attaches[leg].phase == Claimed && DataOk(u.attaches[leg], stream)
    ensures LegsOk(u, stream)
  {
    LogOfSame(t, u);
    assert OnlyLeg(t, u, leg);
    assert LegOk(u.attaches[leg], u.LogOf(leg), stream, leg !in u.gone);
    hide LegOk;
    assert stream + [] == stream;
    OnlyLegKeeps(t, u, stream, [], leg);
  }

  lemma {:induction false} LeaveKeeps(t: State, leg: Leg, stream: Bytes)
    requires LegsOk(t, stream) && GatesOk(t, stream)
    ensures LegsOk(t.Gone(Some(leg)), stream) && GatesOk(t.Gone(Some(leg)), stream)
  {
    hide LegOk, Complete;
    var u := t.Gone(Some(leg));
    LogOfSame(t, u);
    forall x | x in u.attaches
      ensures LegOk(u.attaches[x], u.LogOf(x), stream, x !in u.gone)
    {
      assert stream + [] == stream;
      LegKept(t.attaches[x], t.LogOf(x), stream, x !in t.gone, [], x !in u.gone);
    }
  }

  // A live frame: the stream grows, and so does the browser's log.

  lemma {:induction false} RelayLegs(t: State, stream: Bytes)
    requires LegsOk(t, stream) && GatesOk(t, stream) && t.host.Held? && !t.ended && t.replaying.None?
    ensures LegsOk(t.Relayed(), stream + t.host.data)
  {
    hide LegOk, AttachedOk;
    var u, more := t.Relayed(), t.host.data;
    if t.browser.None? || t.browser.value in t.gone {
      LogOfSame(t, u);
      forall x | x in u.attaches
        ensures LegOk(u.attaches[x], u.LogOf(x), stream + more, x !in u.gone)
      {
        LegKept(t.attaches[x], t.LogOf(x), stream, x !in t.gone, more, x !in u.gone);
      }
    } else {
      var leg := t.browser.value;
      SendEffect(t.(ring := t.ring.Append(more)), leg, Output(more));
      LogOfSame(t, t.(ring := t.ring.Append(more)));
      LogOfSame(t.(ring := t.ring.Append(more)).Send(leg, Output(more)), u);
      assert OnlyLeg(t, u, leg);
      LiveOk(t.attaches[leg], t.LogOf(leg), stream, more);
      OnlyLegKeeps(t, u, stream, more, leg);
    }
  }

  lemma {:induction false} LiveOk(a: Attach, log: seq<Message>, stream: Bytes, more: Bytes)
    requires LegOk(a, log, stream, true) && AttachedOk(a, log, stream, true, false)
    ensures LegOk(a, log + [Output(more)], stream + more, true)
    ensures AttachedOk(a, log + [Output(more)], stream + more, true, false)
  {
    hide Complete, Follows, Header;
    CarriedMore(a.data, a.resume, stream, more);
    if a.phase in {Finished, Stopped(Acked)} {
      CompleteMore(log, Header(a), From(a), stream, more);
      CompleteFollows(log + [Output(more)], Header(a), From(a), stream + more);
    }
  }

  lemma {:induction false} RelayGates(t: State, stream: Bytes)
    requires LegsOk(t, stream) && GatesOk(t, stream) && t.host.Held? && !t.ended && t.replaying.None?
    ensures GatesOk(t.Relayed(), stream + t.host.data)
  {
    hide LegOk, AttachedOk;
    var u, more := t.Relayed(), t.host.data;
    if t.browser.Some? && t.browser.value !in t.gone {
      var leg := t.browser.value;
      SendEffect(t.(ring := t.ring.Append(more)), leg, Output(more));
      LiveOk(t.attaches[leg], t.LogOf(leg), stream, more);
    }
  }

  predicate Live(t: State) {
    t.host.Held? && !t.ended && t.replaying.None?
  }

  /** Every step keeps the invariant. */
  lemma {:induction false} StepKeeps(sys: System, step: Step)
    requires Inv(sys)
    ensures Inv(sys.Do(step))
  {
    hide LegsOk, GatesOk, State.Do;
    if step.Relay? && Live(sys.term) {
      var t, stream := sys.term, sys.stream;
      DoRelay(t);
      RelayLegs(t, stream);
      RelayGates(t, stream);
      AppendKeepsTail(t.ring, stream, t.host.data);
      RelayRing(t);
    } else {
      assert sys.term.Grown(step) == [] && sys.stream + [] == sys.stream;
      QuietKeeps(sys.term, step, sys.stream);
      QuietRing(sys.term, step);
    }
  }

  lemma {:induction false} RelayRing(t: State)
    requires Live(t)
    ensures t.Relayed().ring == t.ring.Append(t.host.data)
  {
  }

  /** A step that appends nothing. */
  lemma {:induction false} QuietKeeps(t: State, step: Step, stream: Bytes)
    requires t.ring.Tail(stream) && LegsOk(t, stream) && GatesOk(t, stream) && !(step.Relay? && Live(t))
    ensures LegsOk(t.Do(step), stream) && GatesOk(t.Do(step), stream)
  {
    hide LegsOk, GatesOk, State.Went, State.Claiming, State.Raised;
    match step {
      case Claim(leg, offset) => ClaimKeeps(t, leg, offset, stream);
      case Go(leg) =>
        if leg in t.attaches {
          WentLegs(t, leg, stream);
          WentGates(t, leg, stream);
        } else {
          NoSuchLeg(t, leg);
        }
      case Raise(leg) => RaisedKeeps(t, leg, stream);
      case Leave(leg) => LeaveKeeps(t, leg, stream);
      case _ => SameLegs(t, t.Do(step), stream);
    }
  }

  lemma {:induction false} QuietRing(t: State, step: Step)
    requires !(step.Relay? && Live(t))
    ensures t.Do(step).ring == t.ring
  {
    hide State.Went;
    match step {
      case Go(leg) =>
        if leg in t.attaches {
          WentEffect(t, leg);
        } else {
          NoSuchLeg(t, leg);
        }
      case Raise(leg) =>
        if leg in t.attaches {
          WentEffect(t, leg);
        }
      case _ =>
    }
  }

  lemma {:induction false} NoSuchLeg(t: State, leg: Leg)
    requires leg !in t.attaches
    ensures t.Went(leg) == t
  {
  }

  lemma {:induction false} SameLegs(t: State, u: State, stream: Bytes)
    requires LegsOk(t, stream) && GatesOk(t, stream)
    requires u.attaches == t.attaches && u.log == t.log && u.gone == t.gone && u.replaying == t.replaying
    requires u.browser == t.browser || u.browser == None
    ensures LegsOk(u, stream) && GatesOk(u, stream)
  {
    hide LegOk, AttachedOk;
    LogOfSame(t, u);
  }

  lemma {:induction false} RunKeeps(capacity: nat, steps: seq<Step>)
    ensures Inv(Run(System(Fresh(capacity), []), steps))
    decreases |steps|
  {
    hide LegsOk, GatesOk;
    if steps == [] {
      FreshOk(capacity);
    } else {
      RunKeeps(capacity, steps[..|steps| - 1]);
      StepKeeps(Run(System(Fresh(capacity), []), steps[..|steps| - 1]), steps[|steps| - 1]);
    }
  }

  lemma {:induction false} FreshOk(capacity: nat)
    ensures Inv(System(Fresh(capacity), []))
  {
  }

  // -------------------------------------------------------------- what it means

  function Reached(capacity: nat, steps: seq<Step>): System {
    Run(System(Fresh(capacity), []), steps)
  }

  /** Whatever takes over, leaves or detaches meanwhile, a leg whose attach was not stopped
      got its header and then the host's bytes from that offset on: no gap, none twice, none
      out of order. */
  lemma {:induction false} ReplayThenLive(capacity: nat, steps: seq<Step>, leg: Leg)
    requires leg in Reached(capacity, steps).term.attaches
    requires !Reached(capacity, steps).term.attaches[leg].phase.Stopped?
    ensures var sys := Reached(capacity, steps);
            Follows(sys.term.LogOf(leg), Header(sys.term.attaches[leg]), sys.term.attaches[leg].resume, sys.stream)
  {
    hide Complete;
    RunKeeps(capacity, steps);
    var sys := Reached(capacity, steps);
    var a, log := sys.term.attaches[leg], sys.term.LogOf(leg);
    assert LegOk(a, log, sys.stream, leg !in sys.term.gone);
    if a.phase == Replayed {
      ReplayFollows(a, log, sys.stream);
    }
  }

  /** The browser that is attached, once its attach is over, has everything up to the last
      byte the host sent, unless the attach was stopped with something left to send. */
  lemma {:induction false} BrowserHasAllIffReplayed(capacity: nat, steps: seq<Step>, leg: Leg)
    requires Reached(capacity, steps).term.browser == Some(leg)
    requires leg !in Reached(capacity, steps).term.gone
    requires leg in Reached(capacity, steps).term.attaches
    requires !Reached(capacity, steps).term.attaches[leg].InFlight()
    ensures var sys := Reached(capacity, steps);
            var a := sys.term.attaches[leg];
            Complete(sys.term.LogOf(leg), Header(a), a.resume, sys.stream)
            <==> a.phase == Finished || (a.phase == Stopped(Acked) && a.data == [])
  {
    RunKeeps(capacity, steps);
    var sys := Reached(capacity, steps);
    var a, log := sys.term.attaches[leg], sys.term.LogOf(leg);
    assert LegOk(a, log, sys.stream, true);
    if a.phase.Stopped? && a.phase.at != Acked {
      NoAckNoHeader(a, log);
    }
  }

  /** What an attach has still to send. */
  function Unsent(a: Attach): seq<Message> {
    match a.phase
    case Claimed => Header(a) + Replay(a.data)
    case Closed => Header(a) + Replay(a.data)
    case Noted => [Ack(a.resume)] + Replay(a.data)
    case Acked => Replay(a.data)
    case _ => []
  }

  /** An attach that raises leaves its browser, if that is still attached at any time after,
      with every byte up to the last one exactly when it had nothing left to send as it
      raised. */
  lemma {:induction false} RaisedHasAllIffNothingUnsent(capacity: nat, before: seq<Step>, leg: Leg, after: seq<Step>)
    requires leg in Reached(capacity, before).term.attaches && Reached(capacity, before).term.attaches[leg].InFlight()
    requires Reached(capacity, before + [Raise(leg)] + after).term.browser == Some(leg)
    requires leg !in Reached(capacity, before + [Raise(leg)] + after).term.gone
    ensures var a := Reached(capacity, before).term.attaches[leg];
            var sys := Reached(capacity, before + [Raise(leg)] + after);
            Complete(sys.term.LogOf(leg), Header(a), a.resume, sys.stream) <==> Unsent(a) == []
  {
    hide Complete, Run, State.Do, Header;
    var first := before + [Raise(leg)];
    var sys, a := Reached(capacity, before), Reached(capacity, before).term.attaches[leg];
    RunSnoc(System(Fresh(capacity), []), before, Raise(leg));
    RaiseEnds(sys.term, leg);
    OverInRun(capacity, first, after, leg);
    var b := Reached(capacity, first + after).term.attaches[leg];
    assert Header(b) == Header(a) by { SameHeader(a, b); }
    BrowserHasAllIffReplayed(capacity, first + after, leg);
    UnsentHeader(a);
  }

  lemma {:induction false} UnsentHeader(a: Attach)
    ensures Header(a) != []
  {
  }

  lemma {:induction false} SameHeader(a: Attach, b: Attach)
    requires b == a.(phase := b.phase)
    ensures Header(b) == Header(a)
  {
  }

  lemma {:induction false} RaiseEnds(t: State, leg: Leg)
    requires leg in t.attaches && t.attaches[leg].InFlight()
    ensures var a, u := t.attaches[leg], t.Do(Raise(leg));
            && leg in u.attaches
            && u.attaches[leg] == a.(phase := if a.phase == Replayed then Finished else Stopped(a.phase))
  {
  }

  lemma {:induction false} OverStays(t: State, step: Step, leg: Leg)
    requires leg in t.attaches && !t.attaches[leg].InFlight()
    ensures leg in t.Do(step).attaches && t.Do(step).attaches[leg] == t.attaches[leg]
  {
    hide State.Went;
    match step {
      case Go(x) => WentKept(t, x);
      case Raise(x) => WentKept(t, x);
      case _ =>
    }
  }

  lemma {:induction false} OverInRun(capacity: nat, before: seq<Step>, after: seq<Step>, leg: Leg)
    requires leg in Reached(capacity, before).term.attaches && !Reached(capacity, before).term.attaches[leg].InFlight()
    ensures leg in Reached(capacity, before + after).term.attaches
    ensures Reached(capacity, before + after).term.attaches[leg] == Reached(capacity, before).term.attaches[leg]
    decreases |after|
  {
    hide State.Do;
    if after == [] {
      assert before + after == before;
    } else {
      var init := after[..|after| - 1];
      OverInRun(capacity, before, init, leg);
      OverStays(Reached(capacity, before + init).term, after[|after| - 1], leg);
      assert (before + after)[..|before + after| - 1] == before + init;
    }
  }

  lemma {:induction false} NoAckNoHeader(a: Attach, log: seq<Message>)
    requires forall i :: 0 <= i < |log| ==> !log[i].Ack?
    ensures !(Header(a) <= log)
  {
    assert Header(a)[|Header(a)| - 1].Ack?;
  }

  /** An attach that raises before its replay leaves a browser that gets the next live frame
      first, whatever the ring still held for it and with no offset to tell it so. */
  lemma {:induction false} StoppedAttachLeavesGap(t: State, leg: Leg, offset: nat, data: Bytes)
    requires leg !in t.attaches && leg !in t.log && leg !in t.gone && t.host == Idle && !t.ended
    ensures var u := t.Do(Claim(leg, offset)).Do(Raise(leg)).Do(Frame(data)).Do(Relay);
            u.browser == Some(leg) && u.LogOf(leg) == [Output(data)]
  {
    var t1 := t.Do(Claim(leg, offset));
    var t2 := t1.Do(Raise(leg));
    assert t2.browser == Some(leg) && t2.replaying == None && t2.log == t.log && t2.host == Idle;
    var t3 := t2.Do(Frame(data));
    assert t3 == t2.(host := Held(data));
  }

  /** The gate is shut only for an attach still under way, and nothing goes to the ring
      while it is. */
  lemma {:induction false} GateHolds(capacity: nat, steps: seq<Step>, step: Step)
    requires Reached(capacity, steps).term.replaying.Some?
    ensures var sys := Reached(capacity, steps);
            && sys.term.replaying.value in sys.term.attaches && sys.term.attaches[sys.term.replaying.value].InFlight()
            && sys.Do(step).stream == sys.stream
  {
    RunKeeps(capacity, steps);
  }

  /** How many of its own steps an attach has ahead of it. */
  function Ahead(phase: Phase): nat {
    match phase
    case Claimed => 5
    case Closed => 4
    case Noted => 3
    case Acked => 2
    case Replayed => 1
    case _ => 0
  }

  function OwnSteps(steps: seq<Step>, leg: Leg): nat {
    if steps == [] then 0
    else OwnSteps(steps[..|steps| - 1], leg) + if steps[|steps| - 1] in {Go(leg), Raise(leg)} then 1 else 0
  }

  lemma {:induction false} AheadFalls(t: State, step: Step, leg: Leg)
    requires leg in t.attaches
    ensures leg in t.Do(step).attaches
    ensures var n, m := Ahead(t.attaches[leg].phase), Ahead(t.Do(step).attaches[leg].phase);
            m <= n && (step in {Go(leg), Raise(leg)} && n > 0 ==> m < n)
  {
    hide State.Went;
    match step {
      case Go(x) => WentKept(t, x);
      case Raise(x) => WentKept(t, x);
      case _ =>
    }
  }

  lemma {:induction false} AheadInRun(capacity: nat, before: seq<Step>, after: seq<Step>, leg: Leg)
    requires leg in Reached(capacity, before).term.attaches
    ensures leg in Reached(capacity, before + after).term.attaches
    ensures Ahead(Reached(capacity, before + after).term.attaches[leg].phase) + OwnSteps(after, leg) <= 5
            || Ahead(Reached(capacity, before + after).term.attaches[leg].phase) == 0
    decreases |after|
  {
    hide State.Do;
    if after == [] {
      assert before + after == before;
    } else {
      var init := after[..|after| - 1];
      AheadInRun(capacity, before, init, leg);
      AheadFalls(Reached(capacity, before + init).term, after[|after| - 1], leg);
      assert (before + after)[..|before + after| - 1] == before + init;
    }
  }

  /** No attach keeps the gate shut past five steps of its own, whatever else happens between
      them and whether or not one of them raises. */
  lemma {:induction false} ReplayEnds(capacity: nat, before: seq<Step>, leg: Leg, after: seq<Step>)
    requires leg in Reached(capacity, before).term.attaches && OwnSteps(after, leg) >= 5
    ensures Reached(capacity, before + after).term.replaying != Some(leg)
  {
    hide LegsOk, State.Do, OwnSteps;
    RunKeeps(capacity, before + after);
    AheadInRun(capacity, before, after, leg);
  }

  /** A new attach makes its leg the browser, whichever was, and shuts the gate. It resumes at
      the offset the browser has reached, unless bytes after it have left the ring, or it is
      past the end. */
  lemma {:induction false} ClaimResumes(capacity: nat, steps: seq<Step>, leg: Leg, offset: nat)
    requires leg !in Reached(capacity, steps).term.attaches
    ensures var sys := Reached(capacity, steps);
            var after := sys.term.Do(Claim(leg, offset));
            var a := after.attaches[leg];
            var start := if |sys.stream| < capacity then 0 else |sys.stream| - capacity;
            && (a.lost <==> offset < start)
            && a.resume == (if offset < start then start else if offset > |sys.stream| then |sys.stream| else offset)
            && a.data == sys.stream[a.resume..]
            && a.previous == sys.term.browser && after.browser == Some(leg) && after.replaying == Some(leg)
  {
    hide LegsOk, GatesOk;
    RunKeeps(capacity, steps);
    var sys := Reached(capacity, steps);
    CapacityKept(capacity, steps);
    ClaimedData(sys.term.ring, offset, sys.stream);
  }

  lemma {:induction false} CapacityKept(capacity: nat, steps: seq<Step>)
    ensures Reached(capacity, steps).term.ring.capacity == capacity
    decreases |steps|
  {
    hide State.Do, State.Went, State.Claiming, State.Raised;
    if steps != [] {
      var before := steps[..|steps| - 1];
      CapacityKept(capacity, before);
      var t, step := Reached(capacity, before).term, steps[|steps| - 1];
      if step.Relay? && Live(t) {
        RelayRing(t);
        DoRelay(t);
      } else {
        QuietRing(t, step);
      }
    }
  }

  lemma {:induction false} DoRelay(t: State)
    ensures t.Do(Relay) == t.Relayed()
  {
  }

  lemma {:induction false} RunSnoc(sys: System, steps: seq<Step>, step: Step)
    ensures Run(sys, steps + [step]) == Run(sys, steps).Do(step)
  {
    assert (steps + [step])[..|steps|] == steps;
  }

  /** A takeover closes the browser before it, whatever else happens meanwhile. */
  lemma {:induction false} TakeoverCloses(capacity: nat, steps: seq<Step>, leg: Leg)
    requires leg in Reached(capacity, steps).term.attaches
    ensures var t := Reached(capacity, steps).term;
            t.attaches[leg].previous.None? || t.attaches[leg].phase in {Claimed, Stopped(Claimed)}
            || t.attaches[leg].previous.value in t.gone
    decreases |steps|
  {
    hide State.Do;
    if steps != [] {
      var t, step := Reached(capacity, steps[..|steps| - 1]).term, steps[|steps| - 1];
      AttachKept(t, step, leg);
      if leg in t.attaches {
        TakeoverCloses(capacity, steps[..|steps| - 1], leg);
      }
    }
  }

  lemma {:induction false} AttachKept(t: State, step: Step, leg: Leg)
    ensures t.gone <= t.Do(step).gone
    ensures leg in t.attaches ==>
              && leg in t.Do(step).attaches
              && var a, b := t.attaches[leg], t.Do(step).attaches[leg];
                 && b == a.(phase := b.phase)
                 && (a.phase in {Claimed, Stopped(Claimed)} ==>
                       b.phase in {Claimed, Stopped(Claimed)} || (a.previous.Some? ==> a.previous.value in t.Do(step).gone))
    ensures leg !in t.attaches && leg in t.Do(step).attaches ==> t.Do(step).attaches[leg].phase == Claimed
  {
    hide State.Went;
    match step {
      case Go(x) => WentKept(t, x);
      case Raise(x) => WentKept(t, x);
      case _ =>
    }
  }

  lemma {:induction false} WentKept(t: State, x: Leg)
    ensures x !in t.attaches ==> t.Went(x) == t
    ensures x in t.attaches ==>
              && t.Went(x).attaches == t.attaches[x := t.attaches[x].(phase := Next(t.attaches[x].phase))]
              && t.gone <= t.Went(x).gone
              && (t.attaches[x].phase == Claimed && t.attaches[x].previous.Some? ==> t.attaches[x].previous.value in t.Went(x).gone)
  {
    if x in t.attaches {
      WentEffect(t, x);
    }
  }

  // ------------------------------------------------------------ as it is written

  /** A terminal's output side. Each method is one stretch between two awaits. */
  class Terminal {
    const ring: Ring
    var browser: Option<Leg>
    var replaying: Option<Leg>
    var ended: bool
    var host: Host
    var attaches: map<Leg, Attach>
    var log: map<Leg, seq<Message>>
    var gone: set<Leg>

    ghost predicate Valid()
      reads this, ring
    {
      |ring.data| <= ring.end
    }

    ghost function Now(): State
      requires Valid()
      reads this, ring
    {
      State(ring.Value(), browser, replaying, ended, host, attaches, log, gone)
    }

    constructor (capacity: nat)
      ensures Valid() && Now() == Fresh(capacity) && fresh(ring)
    {
      ring := new Ring(capacity);
      browser, replaying, ended, host := None, None, false, Idle;
      attaches, log, gone := map[], map[], {};
      new;
      assert Now() == State(RingData(capacity, [], 0), None, None, false, Idle, map[], map[], {});
    }

    /** `attach_browser` up to its first await. */
    method AttachBrowser(leg: Leg, offset: nat, ghost stream: Bytes)
      requires Valid() && ring.Value().Tail(stream)
      modifies this
      ensures Valid() && Now() == old(Now()).Claiming(leg, offset)
    {
      if leg !in attaches {
        var previous := browser;
        browser := Some(leg);
        var data, resume, lost := ring.Since(offset, stream);
        attaches := attaches[leg := Attach(Claimed, previous, offset, resume, lost, data)];
        replaying := Some(leg);
      }
    }

    method ToBrowser(leg: Leg, message: Message)
      requires Valid()
      modifies this`log, this`browser
      ensures Valid() && Now() == old(Now()).Send(leg, message)
    {
      if leg in gone {
        DetachBrowser(leg);
      } else {
        log := log[leg := (if leg in log then log[leg] else []) + [message]];
      }
    }

    method DetachBrowser(leg: Leg)
      requires Valid()
      modifies this`browser
      ensures Valid() && Now() == old(Now()).Detached(leg)
    {
      if browser == Some(leg) {
        browser := None;
      }
    }

    /** `attach_browser` from one await to the next. */
    method Continue(leg: Leg)
      requires Valid()
      modifies this
      ensures Valid() && Now() == old(Now()).Went(leg)
    {
      if leg !in attaches {
        return;
      }
      var a := attaches[leg];
      var next := a.phase;
      match a.phase {
        case Claimed =>
          if a.previous.Some? {
            gone := gone + {a.previous.value};
          }
          next := Closed;
        case Closed =>
          if a.lost {
            ToBrowser(leg, Notice);
          }
          next := Noted;
        case Noted =>
          ToBrowser(leg, Ack(a.resume));
          next := Acked;
        case Acked =>
          if a.data != [] {
            ToBrowser(leg, Output(a.data));
          }
          next := Replayed;
        case Replayed =>
          if replaying == Some(leg) {
            replaying := None;
          }
          next := Finished;
        case _ =>
      }
      attaches := attaches[leg := a.(phase := next)];
    }

    /** `from_host`, once the gate lets the frame through. */
    method Relay(ghost stream: Bytes)
      requires Valid() && ring.Value().Tail(stream)
      modifies this, ring
      ensures Valid() && Now() == old(Now()).Relayed()
    {
      if !host.Held? {
        return;
      }
      if ended {
        host := Idle;
      } else if replaying.None? {
        var data := host.data;
        ring.Append(data, stream);
        host := Idle;
        if browser.Some? {
          var leg := browser.value;
          if leg !in gone {
            host := Sending(leg);
          }
          ToBrowser(leg, Output(data));
        }
      }
    }
  }
}
