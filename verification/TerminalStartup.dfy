/** A terminal's startup handshake in `server/terminals.py`: what is typed before the host
    has acknowledged is kept, and the lock that serializes sends hands it over in order.
    Every host dials in with `ready=True`; everything between two awaits is one step. */
module TerminalStartup {
  import opened Common

  type Bytes = seq<bv8>

  type HostId = nat

  const MAX_INPUT_FRAME_BYTES := 65_536

  datatype Frame = Ack | Resize(size: Bytes) | Input(typed: Bytes) | Other(payload: Bytes)

  /** What waits for the lock: a frame for the host, or the startup flush. */
  datatype Job = ToHost(frame: Frame) | Start

  /** A host's route: before its acknowledgement is sent, reading its frames, or over. */
  datatype Route = Connecting | Reading | Over

  datatype Step =
    | Submit(frame: Frame)
    | Connect(host: HostId)
    | Acked(host: HostId, ok: bool)
    | HostAck(host: HostId)
    | Lost(host: HostId)
    | Sent(ok: bool)
    | Wake
    | End

  // ---------------------------------------------------------------- the buffer

  /** What is kept of the typing: a frame that would make it longer than one frame is
      dropped whole. */
  function Typed(frames: seq<Frame>): Bytes {
    if frames == [] then []
    else Kept(Typed(frames[..|frames| - 1]), frames[|frames| - 1])
  }

  function Kept(typed: Bytes, frame: Frame): Bytes {
    if frame.Input? && |typed| + |frame.typed| <= MAX_INPUT_FRAME_BYTES then typed + frame.typed else typed
  }

  /** The latest geometry. */
  function Geometry(frames: seq<Frame>): Option<Bytes> {
    if frames == [] then None
    else if frames[|frames| - 1].Resize? then Some(frames[|frames| - 1].size)
    else Geometry(frames[..|frames| - 1])
  }

  function Flush(size: Option<Bytes>, typed: Bytes): seq<Frame> {
    (if size.Some? then [Resize(size.value)] else []) + (if typed != [] then [Input(typed)] else [])
  }

  // ----------------------------------------------------------------- the state

  /** `rest` is what the job that holds the lock still has to send after this send. */
  datatype State = State(host: Option<HostId>, starting: bool, ended: bool, preResize: Option<Bytes>, preInput: Bytes,
                         holder: Option<seq<Frame>>, waiting: seq<Job>,
                         routes: map<HostId, Route>, log: map<HostId, seq<Frame>>)
  {
    function LogOf(h: HostId): seq<Frame> {
      if h in log then log[h] else []
    }

    function Logged(h: HostId, frame: Frame): State {
      this.(log := log[h := LogOf(h) + [frame]])
    }

    function Buffered(frame: Frame): State {
      match frame
      case Resize(size) => this.(preResize := Some(size))
      case _ => this.(preInput := Kept(preInput, frame))
    }

    /** `_send_to_host` for each frame in turn, up to the first await; the lock is free
        again when there is none. */
    function Forward(frames: seq<Frame>): State {
      if frames == [] || host.None? || ended then this.(holder := None)
      else Logged(host.value, frames[0]).(holder := Some(frames[1..]))
    }

    /** What a job does when it gets the lock. */
    function Enter(job: Job): State {
      match job
      case ToHost(frame) => if host.None? || starting then Buffered(frame) else Forward([frame])
      case Start =>
        this.(starting := false, preResize := None, preInput := []).Forward(Flush(preResize, preInput))
    }

    function Free(): bool {
      holder.None? && waiting == []
    }

    /** The route passes on a frame only of the current host, and the hub takes the
        acknowledgement only while that one is starting. */
    predicate Confirms(h: HostId) {
      h in routes && routes[h] == Reading && host == Some(h) && starting && !ended
    }

    /** The lock is fair: a job goes behind those that wait. */
    function Acquire(job: Job): State {
      if Free() then Enter(job) else this.(waiting := waiting + [job])
    }

    function Do(step: Step): State {
      match step
      case Submit(frame) => Acquire(ToHost(frame))
      case Connect(h) =>
        if h in routes || ended || (host.Some? && !starting) then this
        else this.(host := Some(h), starting := true, routes := routes[h := Connecting])
      case Acked(h, ok) =>
        if h !in routes || routes[h] != Connecting then this
        else if ok then Logged(h, Ack).(routes := routes[h := Reading])
        else
          var t := this.(routes := routes[h := Over]);
          if host == Some(h) then t.(host := None, starting := false) else t
      case HostAck(h) => if Confirms(h) then Acquire(Start) else this
      case Lost(h) =>
        if h !in routes || routes[h] != Reading then this
        else
          var t := this.(routes := routes[h := Over]);
          if host != Some(h) || ended then t
          else if starting then t.(host := None, starting := false)
          else t.(ended := true)
      case Sent(ok) =>
        if holder.None? then this else this.(ended := ended || !ok).Forward(holder.value)
      case Wake =>
        if holder.Some? || waiting == [] then this else this.(waiting := waiting[1..]).Enter(waiting[0])
      case End => this.(ended := true)
    }
  }

  const FRESH := State(None, false, false, None, [], None, [], map[], map[])

  /** A state with the frames sent to it so far, those that got the lock, and the host that
      was started with how many had got it by then. */
  datatype System = System(now: State, submitted: seq<Frame>, entered: seq<Frame>, started: Option<(HostId, nat)>) {

    function Entering(step: Step): seq<Frame> {
      match step
      case Submit(frame) => if now.Free() then [frame] else []
      case Wake => if now.holder.None? && now.waiting != [] && now.waiting[0].ToHost? then [now.waiting[0].frame] else []
      case _ => []
    }

    function Starting(step: Step): Option<(HostId, nat)> {
      if step.HostAck? && now.Confirms(step.host) then Some((step.host, |entered|)) else started
    }

    function Do(step: Step): System {
      System(now.Do(step), if step.Submit? then submitted + [step.frame] else submitted,
             entered + Entering(step), Starting(step))
    }
  }

  function Run(steps: seq<Step>): System
    decreases |steps|
  {
    if steps == [] then System(FRESH, [], [], None) else Run(steps[..|steps| - 1]).Do(steps[|steps| - 1])
  }

  // ------------------------------------------------------------- the invariant

  function Frames(jobs: seq<Job>): seq<Frame> {
    if jobs == [] then []
    else Frames(jobs[..|jobs| - 1]) + match jobs[|jobs| - 1] case ToHost(frame) => [frame] case Start => []
  }

  ghost predicate Queued(sys: System) {
    && sys.submitted == sys.entered + Frames(sys.now.waiting)
    && forall i :: 0 <= i < |sys.now.waiting| ==> sys.now.waiting[i].ToHost?
  }

  /** All that a host which was not started may have got. */
  ghost predicate OnlyAck(log: seq<Frame>) {
    log == [] || log == [Ack]
  }

  ghost predicate RoutesOk(t: State) {
    && (forall h :: h in t.log ==> h in t.routes)
    && (forall h :: h in t.routes && t.routes[h] == Connecting ==> t.LogOf(h) == [])
    && (forall h :: h in t.routes && t.routes[h] == Reading && !(t.host == Some(h) && !t.starting) ==> t.LogOf(h) == [Ack])
    && (t.starting ==> t.host.Some? && t.host.value in t.routes)
  }

  /** All the started host is to get. */
  function Whole(entered: seq<Frame>, k: nat): seq<Frame>
    requires k <= |entered|
  {
    var size, typed := Geometry(entered[..k]), Typed(entered[..k]);
    [Ack] + (match size case Some(s) => [Resize(s)] case None => []) + (if typed == [] then [] else [Input(typed)]) + entered[k..]
  }

  ghost predicate Pending(sys: System) {
    && (sys.now.host.None? || sys.now.starting)
    && sys.now.Free()
    && sys.now.preResize == Geometry(sys.entered) && sys.now.preInput == Typed(sys.entered)
    && forall h :: h in sys.now.log ==> OnlyAck(sys.now.log[h])
  }

  ghost predicate Running(sys: System, h: HostId, k: nat) {
    && sys.now.host == Some(h) && !sys.now.starting && k <= |sys.entered|
    && h in sys.now.routes && sys.now.routes[h] != Connecting && sys.now.preInput == []
    && sys.now.LogOf(h) <= Whole(sys.entered, k)
    && (!sys.now.ended ==> sys.now.LogOf(h) + (if sys.now.holder.Some? then sys.now.holder.value else []) == Whole(sys.entered, k))
    && forall x :: x in sys.now.log && x != h ==> OnlyAck(sys.now.log[x])
  }

  ghost predicate Inv(sys: System) {
    && Queued(sys)
    && RoutesOk(sys.now)
    && match sys.started
       case None => Pending(sys)
       case Some((h, k)) => Running(sys, h, k)
  }

  // ----------------------------------------------------------------- the proof

  lemma {:induction false} FramesSnoc(jobs: seq<Job>, job: Job)
    ensures Frames(jobs + [job]) == Frames(jobs) + match job case ToHost(frame) => [frame] case Start => []
  {
    assert (jobs + [job])[..|jobs|] == jobs;
  }

  lemma {:induction false} FramesCons(jobs: seq<Job>)
    requires jobs != [] && jobs[0].ToHost?
    ensures Frames(jobs) == [jobs[0].frame] + Frames(jobs[1..])
    decreases |jobs|
  {
    if |jobs| == 1 {
      assert jobs[..0] == [] && jobs[1..] == [];
    } else {
      var init, last := jobs[..|jobs| - 1], jobs[|jobs| - 1];
      FramesCons(init);
      assert jobs[1..][..|jobs| - 2] == init[1..];
    }
  }

  lemma {:induction false} BufferSnoc(entered: seq<Frame>, frame: Frame)
    ensures Typed(entered + [frame]) == Kept(Typed(entered), frame)
    ensures Geometry(entered + [frame]) == if frame.Resize? then Some(frame.size) else Geometry(entered)
  {
    assert (entered + [frame])[..|entered|] == entered;
  }

  lemma {:induction false} WholeSnoc(entered: seq<Frame>, k: nat, frame: Frame)
    requires k <= |entered|
    ensures Whole(entered + [frame], k) == Whole(entered, k) + [frame]
  {
    assert (entered + [frame])[..k] == entered[..k];
    assert (entered + [frame])[k..] == entered[k..] + [frame];
  }

  /** A frame that gets the lock before the host is started is buffered. */
  lemma {:induction false} EnterPending(sys: System, t: State, frame: Frame)
    requires Pending(sys) && RoutesOk(sys.now) && t == sys.now.Enter(ToHost(frame))
    ensures Pending(System(t, sys.submitted, sys.entered + [frame], None)) && RoutesOk(t) && t.waiting == sys.now.waiting
  {
    hide Typed, Geometry, Kept;
    BufferSnoc(sys.entered, frame);
    assert t.log == sys.now.log;
    if frame.Resize? {
      KeptInput(Typed(sys.entered), frame);
    }
  }

  lemma {:induction false} KeptInput(typed: Bytes, frame: Frame)
    requires !frame.Input?
    ensures Kept(typed, frame) == typed
  {
  }

  /** One that gets it later is sent, unless the terminal has ended. */
  lemma {:induction false} EnterRunning(sys: System, h: HostId, k: nat, t: State, frame: Frame)
    requires Running(sys, h, k) && RoutesOk(sys.now) && sys.now.holder.None? && t == sys.now.Enter(ToHost(frame))
    ensures Running(System(t, sys.submitted, sys.entered + [frame], sys.started), h, k)
    ensures RoutesOk(t) && t.waiting == sys.now.waiting
  {
    hide Whole;
    WholeSnoc(sys.entered, k, frame);
    if !sys.now.ended {
      LoggedRoutes(sys.now, h, frame);
      assert t.LogOf(h) == sys.now.LogOf(h) + [frame];
      assert [frame][1..] == [] && t.holder == Some([]);
      assert t.LogOf(h) + [] == t.LogOf(h) && sys.now.LogOf(h) + [] == sys.now.LogOf(h);
    }
  }

  lemma {:induction false} LoggedRoutes(t: State, h: HostId, frame: Frame)
    requires RoutesOk(t) && t.host == Some(h) && !t.starting && h in t.routes && t.routes[h] != Connecting
    ensures RoutesOk(t.Logged(h, frame))
    ensures forall x :: x in t.Logged(h, frame).log && x != h ==> x in t.log && t.Logged(h, frame).log[x] == t.log[x]
  {
    var u := t.Logged(h, frame);
    assert forall x :: x != h ==> u.LogOf(x) == t.LogOf(x);
  }

  lemma {:induction false} SubmitKeeps(sys: System, frame: Frame)
    requires Inv(sys)
    ensures Inv(sys.Do(Submit(frame)))
  {
    hide Inv, System.Do;
    if sys.now.Free() {
      SubmitFree(sys, frame);
    } else {
      SubmitBusy(sys, frame);
    }
  }

  lemma {:induction false} SubmitFree(sys: System, frame: Frame)
    requires Inv(sys) && sys.now.Free()
    ensures Inv(sys.Do(Submit(frame)))
  {
    hide Whole, Frames, Pending, Running, RoutesOk, State.Enter;
    var t := sys.now;
    if sys.started.None? {
      EnterPending(sys, t.Enter(ToHost(frame)), frame);
    } else {
      EnterRunning(sys, sys.started.value.0, sys.started.value.1, t.Enter(ToHost(frame)), frame);
    }
    PendingIgnores(sys.Do(Submit(frame)), System(t.Enter(ToHost(frame)), sys.submitted, sys.entered + [frame], sys.started));
    NoFrames();
    assert sys.entered + [] == sys.entered && sys.entered + [frame] + [] == sys.entered + [frame];
  }

  lemma {:induction false} NoFrames()
    ensures Frames([]) == []
  {
  }

  lemma {:induction false} SubmitBusy(sys: System, frame: Frame)
    requires Inv(sys) && !sys.now.Free()
    ensures Inv(sys.Do(Submit(frame)))
  {
    NotFree(sys);
    hide Whole, Frames, Pending, Running, RoutesOk, State.Enter;
    var t := sys.now;
    FramesSnoc(t.waiting, ToHost(frame));
    assert sys.entered + [] == sys.entered;
    assert sys.entered + (Frames(t.waiting) + [frame]) == sys.entered + Frames(t.waiting) + [frame];
    var (h, k) := sys.started.value;
    RunningIgnores(sys, sys.Do(Submit(frame)), h, k);
    RoutesIgnore(t, t.Do(Submit(frame)));
  }

  lemma {:induction false} NotFree(sys: System)
    requires Inv(sys) && !sys.now.Free()
    ensures sys.started.Some?
  {
  }

  lemma {:induction false} PendingIgnores(a: System, b: System)
    requires a.now == b.now && a.entered == b.entered
    ensures Pending(a) <==> Pending(b)
    ensures forall h, k :: Running(a, h, k) <==> Running(b, h, k)
  {
  }

  lemma {:induction false} RunningIgnores(a: System, b: System, h: HostId, k: nat)
    requires Running(a, h, k) && b.now == a.now.(waiting := b.now.waiting) && a.entered == b.entered
    ensures Running(b, h, k)
  {
    assert a.now.LogOf(h) == b.now.LogOf(h);
  }

  lemma {:induction false} RoutesIgnore(a: State, b: State)
    requires RoutesOk(a) && b.log == a.log && b.routes == a.routes && b.host == a.host && b.starting == a.starting
    ensures RoutesOk(b)
  {
    assert forall x :: a.LogOf(x) == b.LogOf(x);
  }

  lemma {:induction false} WakeKeeps(sys: System)
    requires Inv(sys)
    ensures Inv(sys.Do(Wake))
  {
    hide Whole, Pending, Running, RoutesOk, State.Enter;
    var t := sys.now;
    if t.holder.None? && t.waiting != [] {
      NotFree(sys);
      var (h, k) := sys.started.value;
      var frame := t.waiting[0].frame;
      var u := t.(waiting := t.waiting[1..]);
      FramesCons(t.waiting);
      RunningIgnores(sys, System(u, sys.submitted, sys.entered, sys.started), h, k);
      RoutesIgnore(t, u);
      EnterRunning(System(u, sys.submitted, sys.entered, sys.started), h, k, u.Enter(ToHost(frame)), frame);
      assert sys.entered + ([frame] + Frames(t.waiting[1..])) == sys.entered + [frame] + Frames(t.waiting[1..]);
    } else {
      assert sys.entered + [] == sys.entered;
      assert sys.Do(Wake) == sys;
    }
  }

  /** Sending on adds what it sends to the host's log and keeps the rest to send. */
  lemma {:induction false} ForwardLog(t: State, h: HostId, frames: seq<Frame>)
    requires t.host == Some(h) && h in t.routes && t.routes[h] != Connecting && !t.starting && RoutesOk(t)
    ensures var u := t.Forward(frames);
            && u == t.(holder := u.holder, log := u.log) && RoutesOk(u)
            && (t.ended ==> u.LogOf(h) == t.LogOf(h))
            && (!t.ended ==> u.LogOf(h) + (if u.holder.Some? then u.holder.value else []) == t.LogOf(h) + frames)
            && (forall x :: x in u.log && x != h ==> x in t.log && u.log[x] == t.log[x])
  {
    var u := t.Forward(frames);
    if frames != [] && !t.ended {
      LoggedRoutes(t, h, frames[0]);
      RoutesIgnore(t.Logged(h, frames[0]), u);
      assert u.LogOf(h) == t.LogOf(h) + [frames[0]];
      JoinAgain(t.LogOf(h), frames);
    } else {
      RoutesIgnore(t, u);
      assert u.LogOf(h) == t.LogOf(h) && t.LogOf(h) + [] == t.LogOf(h);
    }
  }

  lemma {:induction false} JoinAgain(sent: seq<Frame>, frames: seq<Frame>)
    requires frames != []
    ensures sent + [frames[0]] + frames[1..] == sent + frames
  {
    assert frames == [frames[0]] + frames[1..];
  }

  lemma {:induction false} Prefix(a: seq<Frame>, rest: seq<Frame>, whole: seq<Frame>)
    requires a + rest == whole
    ensures a <= whole
  {
  }

  lemma {:induction false} ForwardKeeps(sys: System, h: HostId, k: nat, rest: seq<Frame>, ended: bool)
    requires Running(sys, h, k) && RoutesOk(sys.now) && sys.now.holder == Some(rest) && (sys.now.ended ==> ended)
    ensures var t := sys.now.(ended := ended).Forward(rest);
            Running(System(t, sys.submitted, sys.entered, sys.started), h, k) && RoutesOk(t) && t.waiting == sys.now.waiting
  {
    hide Whole, State.Forward, RoutesOk;
    var u := sys.now.(ended := ended);
    RoutesIgnore(sys.now, u);
    assert u.LogOf(h) == sys.now.LogOf(h);
    ForwardLog(u, h, rest);
    var t := u.Forward(rest);
    if !ended {
      Prefix(t.LogOf(h), if t.holder.Some? then t.holder.value else [], Whole(sys.entered, k));
    }
  }

  /** The acknowledgement starts the host with what was buffered. */
  lemma {:induction false} StartKeeps(sys: System, h: HostId)
    requires Inv(sys) && sys.now.Confirms(h)
    ensures Inv(sys.Do(HostAck(h)))
  {
    var t := sys.now;
    assert sys.started.None? && t.LogOf(h) == [Ack];
    hide Typed, Geometry, Flush, RoutesOk, State.Forward, Frames;
    var k, frames := |sys.entered|, Flush(t.preResize, t.preInput);
    assert sys.entered + [] == sys.entered;
    WholeAtStart(sys.entered);
    var u := t.(starting := false, preResize := None, preInput := []);
    RoutesStarted(t, u, h);
    assert u.LogOf(h) == [Ack];
    ForwardLog(u, h, frames);
    var v := u.Forward(frames);
    assert v == sys.Do(HostAck(h)).now;
    Prefix(v.LogOf(h), if v.holder.Some? then v.holder.value else [], Whole(sys.entered, k));
  }

  /** The flush sends just what the whole starts with. */
  lemma {:induction false} WholeIs(entered: seq<Frame>, k: nat)
    requires k <= |entered|
    ensures Whole(entered, k) == [Ack] + Flush(Geometry(entered[..k]), Typed(entered[..k])) + entered[k..]
  {
    hide Typed, Geometry;
    var size, typed := Geometry(entered[..k]), Typed(entered[..k]);
    var a, b: seq<Frame> := match size case Some(s) => [Resize(s)] case None => [], if typed == [] then [] else [Input(typed)];
    assert Flush(size, typed) == a + b;
    assert [Ack] + a + b == [Ack] + (a + b);
  }

  lemma {:induction false} WholeAtStart(entered: seq<Frame>)
    ensures Whole(entered, |entered|) == [Ack] + Flush(Geometry(entered), Typed(entered))
  {
    hide Typed, Geometry, Flush, Whole;
    WholeIs(entered, |entered|);
    assert entered[..|entered|] == entered && entered[|entered|..] == [];
  }

  lemma {:induction false} RoutesStarted(t: State, u: State, h: HostId)
    requires RoutesOk(t) && t.host == Some(h) && u.log == t.log && u.routes == t.routes && u.host == t.host && !u.starting
    ensures RoutesOk(u)
  {
    assert forall x :: u.LogOf(x) == t.LogOf(x);
  }

  lemma {:induction false} ConnectRoutes(t: State, h: HostId)
    requires RoutesOk(t)
    ensures RoutesOk(t.Do(Connect(h)))
  {
    assert forall x :: t.Do(Connect(h)).LogOf(x) == t.LogOf(x);
  }

  lemma {:induction false} AckedRoutes(t: State, h: HostId, ok: bool)
    requires RoutesOk(t)
    ensures RoutesOk(t.Do(Acked(h, ok)))
  {
    hide State.LogOf, State.Logged;
    AckedLog(t, h, ok);
    AckedKeys(t, h, ok);
  }

  lemma {:induction false} AckedKeys(t: State, h: HostId, ok: bool)
    ensures var u := t.Do(Acked(h, ok));
            && u.log.Keys <= t.log.Keys + {h}
            && (h in t.routes && t.routes[h] == Connecting && ok ==> |u.LogOf(h)| > 0)
            && (h !in t.routes || t.routes[h] != Connecting ==> u == t)
            && (ok ==> u.host == t.host && u.starting == t.starting)
  {
  }

  lemma {:induction false} LostRoutes(t: State, h: HostId)
    requires RoutesOk(t)
    ensures RoutesOk(t.Do(Lost(h)))
  {
    assert forall x :: t.Do(Lost(h)).LogOf(x) == t.LogOf(x);
  }

  lemma {:induction false} RouteRoutes(t: State, step: Step)
    requires RoutesOk(t) && (step.Connect? || step.Acked? || step.Lost?)
    ensures RoutesOk(t.Do(step))
  {
    hide RoutesOk, State.Do;
    match step {
      case Connect(h) => ConnectRoutes(t, h);
      case Acked(h, ok) => AckedRoutes(t, h, ok);
      case Lost(h) => LostRoutes(t, h);
      case _ =>
    }
  }

  /** Dialling in, the acknowledgement's send and a lost host touch no frame. */
  lemma {:induction false} RouteKeeps(sys: System, step: Step)
    requires Inv(sys) && (step.Connect? || step.Acked? || step.Lost?)
    ensures Inv(sys.Do(step))
  {
    hide Frames, Pending, Running, RoutesOk, State.Do;
    assert sys.entered + [] == sys.entered;
    RouteRoutes(sys.now, step);
    RouteFrames(sys, step);
  }

  /** The parts of a state that the frames' invariant reads. */
  predicate SameFrames(t: State, u: State) {
    && u.waiting == t.waiting && u.holder == t.holder && u.preResize == t.preResize && u.preInput == t.preInput
    && (t.ended ==> u.ended)
  }

  lemma {:induction false} RouteFrames(sys: System, step: Step)
    requires RoutesOk(sys.now) && (step.Connect? || step.Acked? || step.Lost?)
    ensures sys.Do(step).now.waiting == sys.now.waiting
    ensures sys.started.None? && Pending(sys) ==> Pending(sys.Do(step))
    ensures sys.started.Some? && Running(sys, sys.started.value.0, sys.started.value.1) ==>
              Running(sys.Do(step), sys.started.value.0, sys.started.value.1)
  {
    hide Whole, Typed, Geometry, Pending, Running, RoutesOk, State.Do;
    assert sys.entered + [] == sys.entered;
    RouteSame(sys.now, step);
    if sys.started.None? && Pending(sys) {
      RoutePending(sys, step);
    } else if sys.started.Some? && Running(sys, sys.started.value.0, sys.started.value.1) {
      RouteRunning(sys, step, sys.started.value.0, sys.started.value.1);
    }
  }

  lemma {:induction false} RouteSame(t: State, step: Step)
    requires RoutesOk(t) && (step.Connect? || step.Acked? || step.Lost?)
    ensures SameFrames(t, t.Do(step))
    ensures forall x :: x in t.Do(step).log ==> t.Do(step).log[x] == t.LogOf(x) || (t.LogOf(x) == [] && t.Do(step).log[x] == [Ack])
    ensures forall x :: x in t.routes && t.routes[x] != Connecting ==> t.Do(step).LogOf(x) == t.LogOf(x)
  {
    if step.Acked? {
      AckedLog(t, step.host, step.ok);
    }
  }

  lemma {:induction false} AckedLog(t: State, h: HostId, ok: bool)
    requires RoutesOk(t)
    ensures forall x :: x != h ==> t.Do(Acked(h, ok)).LogOf(x) == t.LogOf(x)
    ensures t.Do(Acked(h, ok)).LogOf(h) == t.LogOf(h)
            || (h in t.routes && t.routes[h] == Connecting && t.LogOf(h) == [] && t.Do(Acked(h, ok)).LogOf(h) == [Ack])
  {
    var none: seq<Frame> := [];
    assert none + [Ack] == [Ack];
  }

  lemma {:induction false} RoutePending(sys: System, step: Step)
    requires Pending(sys) && RoutesOk(sys.now) && (step.Connect? || step.Acked? || step.Lost?) && sys.started.None?
    ensures Pending(sys.Do(step))
  {
    hide Typed, Geometry;
    RouteSame(sys.now, step);
    assert sys.entered + [] == sys.entered;
  }

  lemma {:induction false} RouteRunning(sys: System, step: Step, h: HostId, k: nat)
    requires Running(sys, h, k) && RoutesOk(sys.now) && (step.Connect? || step.Acked? || step.Lost?)
    ensures Running(sys.Do(step), h, k)
  {
    hide Whole, Typed, Geometry;
    RouteSame(sys.now, step);
    assert sys.entered + [] == sys.entered;
  }

  /** Every step keeps the invariant. */
  lemma {:induction false} StepKeeps(sys: System, step: Step)
    requires Inv(sys)
    ensures Inv(sys.Do(step))
  {
    hide Pending, Running, RoutesOk, State.Forward, Queued;
    match step {
      case Submit(frame) => SubmitKeeps(sys, frame);
      case Wake => WakeKeeps(sys);
      case HostAck(h) =>
        if sys.now.Confirms(h) {
          StartKeeps(sys, h);
        } else {
          Same(sys, step);
        }
      case Sent(ok) => SentKeeps(sys, ok);
      case End => EndKeeps(sys);
      case _ => RouteKeeps(sys, step);
    }
  }

  lemma {:induction false} Same(sys: System, step: Step)
    requires step.HostAck? && !sys.now.Confirms(step.host)
    ensures sys.Do(step) == sys
  {
    assert sys.entered + [] == sys.entered;
  }

  lemma {:induction false} SentKeeps(sys: System, ok: bool)
    requires Inv(sys)
    ensures Inv(sys.Do(Sent(ok)))
  {
    hide Running, RoutesOk, State.Forward;
    assert sys.entered + [] == sys.entered;
    if sys.now.holder.Some? {
      assert sys.started.Some?;
      ForwardKeeps(sys, sys.started.value.0, sys.started.value.1, sys.now.holder.value, sys.now.ended || !ok);
    }
  }

  lemma {:induction false} EndKeeps(sys: System)
    requires Inv(sys)
    ensures Inv(sys.Do(End))
  {
    hide Whole;
    assert sys.entered + [] == sys.entered;
    RoutesIgnore(sys.now, sys.Do(End).now);
    assert forall x :: sys.Do(End).now.LogOf(x) == sys.now.LogOf(x);
  }

  lemma {:induction false} RunKeeps(steps: seq<Step>)
    ensures Inv(Run(steps))
    decreases |steps|
  {
    hide Inv, System.Do;
    if steps == [] {
      FreshOk();
    } else {
      RunKeeps(steps[..|steps| - 1]);
      StepKeeps(Run(steps[..|steps| - 1]), steps[|steps| - 1]);
    }
  }

  lemma {:induction false} FreshOk()
    ensures Inv(System(FRESH, [], [], None))
  {
  }

  // -------------------------------------------------------------- what it means

  /** The started host gets the acknowledgement, the latest geometry and the typing kept
      from before it was started, and then every later frame in the order sent; no other
      host gets anything but an acknowledgement. */
  lemma {:induction false} StartedHostGetsAll(steps: seq<Step>, h: HostId, k: nat)
    requires Run(steps).started == Some((h, k))
    ensures var sys := Run(steps);
            && k <= |sys.entered|
            && sys.submitted == sys.entered + Frames(sys.now.waiting)
            && sys.now.LogOf(h) <= Whole(sys.entered, k)
            && (!sys.now.ended && sys.now.Free() ==> sys.now.LogOf(h) == Whole(sys.submitted, k))
            && forall x :: x != h ==> OnlyAck(sys.now.LogOf(x))
  {
    hide Whole;
    RunKeeps(steps);
    var sys := Run(steps);
    if !sys.now.ended && sys.now.Free() {
      assert sys.submitted == sys.entered;
      assert sys.now.LogOf(h) + [] == sys.now.LogOf(h);
    }
  }

  /** Until a host has acknowledged, nothing is sent and nothing but an overflow is lost,
      whichever hosts dial in and fail meanwhile. */
  lemma {:induction false} NothingSentBeforeStart(steps: seq<Step>)
    requires Run(steps).started.None?
    ensures var sys := Run(steps);
            && sys.now.preResize == Geometry(sys.submitted) && sys.now.preInput == Typed(sys.submitted)
            && forall x :: OnlyAck(sys.now.LogOf(x))
  {
    RunKeeps(steps);
    var sys := Run(steps);
    assert sys.now.waiting == [] && sys.entered + [] == sys.entered;
  }

  /** The latest geometry is that of the last frame that names one. */
  lemma {:induction false} GeometryIsLatest(frames: seq<Frame>, size: Bytes)
    ensures Geometry(frames) == Some(size) <==>
            exists i :: 0 <= i < |frames| && frames[i] == Resize(size) && forall j :: i < j < |frames| ==> !frames[j].Resize?
    ensures Geometry(frames).None? <==> forall i :: 0 <= i < |frames| ==> !frames[i].Resize?
    decreases |frames|
  {
    if frames != [] {
      var init, n := frames[..|frames| - 1], |frames| - 1;
      GeometryIsLatest(init, size);
      assert forall i :: 0 <= i < n ==> init[i] == frames[i];
    }
  }

  /** Until a host is started, a frame typed is added to the buffer whole when it still fits
      in one frame with what is there, and otherwise changes nothing. */
  lemma {:induction false} BufferTakesWhole(steps: seq<Step>, typed: Bytes)
    requires Run(steps).started.None?
    ensures var before, after := Run(steps).now, Run(steps + [Submit(Input(typed))]).now;
            && after.preInput == (if |before.preInput| + |typed| <= 65_536 then before.preInput + typed else before.preInput)
            && after.preResize == before.preResize && after.log == before.log
  {
    RunStep(steps, Submit(Input(typed)));
    RunKeeps(steps);
    assert Run(steps).now.Free();
  }

  /** The buffer never holds more than one frame. */
  lemma {:induction false} TypedFits(frames: seq<Frame>)
    ensures |Typed(frames)| <= MAX_INPUT_FRAME_BYTES
    decreases |frames|
  {
    if frames != [] {
      TypedFits(frames[..|frames| - 1]);
    }
  }

  lemma {:induction false} BufferIsBounded(steps: seq<Step>)
    ensures |Run(steps).now.preInput| <= MAX_INPUT_FRAME_BYTES
  {
    hide Typed;
    RunKeeps(steps);
    TypedFits(Run(steps).entered);
  }

  function AllTyped(frames: seq<Frame>): Bytes {
    if frames == [] then []
    else AllTyped(frames[..|frames| - 1]) + TypedIn(frames[|frames| - 1])
  }

  function TypedIn(frame: Frame): Bytes {
    if frame.Input? then frame.typed else []
  }

  /** Every keystroke is kept, each once and in order, exactly when together they fit. */
  lemma {:induction false} AllKeptIffFits(frames: seq<Frame>)
    ensures Typed(frames) == AllTyped(frames) <==> |AllTyped(frames)| <= MAX_INPUT_FRAME_BYTES
    ensures |Typed(frames)| <= |AllTyped(frames)|
    decreases |frames|
  {
    TypedFits(frames);
    if frames != [] {
      AllKeptIffFits(frames[..|frames| - 1]);
    }
  }

  lemma {:induction false} AllTypedJoins(a: seq<Frame>, b: seq<Frame>)
    ensures AllTyped(a + b) == AllTyped(a) + AllTyped(b)
    decreases |b|
  {
    if b == [] {
      assert a + b == a;
    } else {
      var init, last := b[..|b| - 1], TypedIn(b[|b| - 1]);
      hide TypedIn;
      AllTypedJoins(a, init);
      assert (a + b)[..|a + b| - 1] == a + init;
      assert AllTyped(a) + AllTyped(init) + last == AllTyped(a) + (AllTyped(init) + last);
    }
  }

  lemma {:induction false} FlushTyped(size: Option<Bytes>, typed: Bytes)
    ensures AllTyped(Flush(size, typed)) == typed
  {
    if size.Some? {
      assert [Resize(size.value)] + [] == [Resize(size.value)];
      assert AllTyped([Resize(size.value)]) == [];
      AllTypedJoins([Resize(size.value)], if typed != [] then [Input(typed)] else []);
    }
    assert AllTyped([Input(typed)]) == typed by {
      assert [Input(typed)][..0] == [];
    }
  }

  /** When all that was sent has been handed over, the host has every byte typed, once and
      in order, exactly when what came before it was started fitted in one frame. */
  lemma {:induction false} TypingArrives(steps: seq<Step>, h: HostId, k: nat)
    requires Run(steps).started == Some((h, k)) && !Run(steps).now.ended && Run(steps).now.Free()
    ensures k <= |Run(steps).submitted|
    ensures AllTyped(Run(steps).now.LogOf(h)) == AllTyped(Run(steps).submitted)
            <==> |AllTyped(Run(steps).submitted[..k])| <= MAX_INPUT_FRAME_BYTES
  {
    hide Geometry, Typed, AllTyped, Flush, Whole;
    StartedHostGetsAll(steps, h, k);
    WholeIs(Run(steps).submitted, k);
    var sys := Run(steps);
    assert sys.submitted == sys.entered + [];
    var before, after := sys.submitted[..k], sys.submitted[k..];
    var flush := Flush(Geometry(before), Typed(before));
    AllTypedJoins([Ack] + flush, after);
    AllTypedJoins([Ack], flush);
    FlushTyped(Geometry(before), Typed(before));
    AckTypesNothing();
    AllTypedJoins(before, after);
    assert sys.submitted == before + after;
    AllKeptIffFits(before);
    SameTail(Typed(before), AllTyped(before), AllTyped(after));
  }

  lemma {:induction false} AckTypesNothing()
    ensures AllTyped([Ack]) == []
  {
  }

  lemma {:induction false} SameTail(a: Bytes, b: Bytes, tail: Bytes)
    ensures a + tail == b + tail <==> a == b
  {
    if a + tail == b + tail {
      assert |a| == |b|;
      assert a == (a + tail)[..|a|] == (b + tail)[..|b|] == b;
    }
  }

  // ------------------------------------------------- when it ends and is taken again

  /** A step that ends a terminal: the hub ends it, a send to its host fails, or the host
      that was started is lost. */
  predicate Ends(sys: System, step: Step) {
    || step.End?
    || (step == Sent(false) && sys.now.holder.Some?)
    || (step.Lost? && sys.started.Some? && step.host == sys.started.value.0)
  }

  /** The started host's route is read until the terminal ends. */
  predicate Read(sys: System) {
    sys.started.Some? && !sys.now.ended ==>
      sys.started.value.0 in sys.now.routes && sys.now.routes[sys.started.value.0] == Reading
  }

  lemma {:induction false} EndsStep(sys: System, step: Step)
    requires Inv(sys) && Read(sys)
    ensures Read(sys.Do(step))
    ensures sys.Do(step).now.ended <==> sys.now.ended || Ends(sys, step)
  {
    hide Queued, RoutesOk, Whole, Flush, Typed, Geometry, Kept, Frames;
  }

  lemma {:induction false} RunReads(steps: seq<Step>)
    ensures Inv(Run(steps)) && Read(Run(steps))
    decreases |steps|
  {
    hide Inv, System.Do;
    RunKeeps(steps);
    if steps != [] {
      RunReads(steps[..|steps| - 1]);
      EndsStep(Run(steps[..|steps| - 1]), steps[|steps| - 1]);
    }
  }

  /** Some step of the run was such a one. */
  predicate WasEnded(steps: seq<Step>) {
    exists i :: 0 <= i < |steps| && Ends(Run(steps[..i]), steps[i])
  }

  lemma {:induction false} WasEndedSnoc(init: seq<Step>, step: Step)
    ensures WasEnded(init + [step]) <==> WasEnded(init) || Ends(Run(init), step)
  {
    hide Ends, Run;
    var steps := init + [step];
    assert forall i :: 0 <= i < |init| ==> init[..i] == steps[..i] && init[i] == steps[i];
    assert steps[..|init|] == init && steps[|init|] == step;
    if WasEnded(init) {
      var i :| 0 <= i < |init| && Ends(Run(init[..i]), init[i]);
      assert Ends(Run(steps[..i]), steps[i]);
    }
  }

  /** In any run a terminal has ended exactly when one of its steps was such a one: a host
      lost before it was started ends nothing. */
  lemma {:induction false} EndedIff(steps: seq<Step>)
    ensures Run(steps).now.ended <==> WasEnded(steps)
    decreases |steps|
  {
    hide Inv, Read, System.Do, Ends;
    if steps != [] {
      var init, last := steps[..|steps| - 1], steps[|steps| - 1];
      EndedIff(init);
      RunReads(init);
      EndsStep(Run(init), last);
      WasEndedSnoc(init, last);
      hide WasEnded;
      assert steps == init + [last];
    }
  }

  lemma {:induction false} RunStep(steps: seq<Step>, step: Step)
    ensures Run(steps + [step]) == Run(steps).Do(step)
  {
    hide System.Do;
    assert (steps + [step])[..|steps|] == steps;
  }

  /** A new host gets the terminal exactly while it has not ended and none was started, and
      takes over what was buffered. */
  lemma {:induction false} ClaimedIff(steps: seq<Step>, x: HostId)
    requires x !in Run(steps).now.routes
    ensures var sys, after := Run(steps), Run(steps + [Connect(x)]);
            && (after.now.host == Some(x) <==> !sys.now.ended && sys.started.None?)
            && (after.now.host == Some(x) ==>
                  after.now.starting && after.started.None? && !after.now.ended
                  && after.now.preResize == Geometry(sys.submitted) && after.now.preInput == Typed(sys.submitted))
  {
    RunStep(steps, Connect(x));
    RunKeeps(steps);
    RunKeeps(steps + [Connect(x)]);
    Unclaimed(Run(steps), x);
    var sys := Run(steps);
    if sys.started.None? {
      assert sys.now.waiting == [] && sys.entered + [] == sys.entered;
    }
  }

  lemma {:induction false} Unclaimed(sys: System, x: HostId)
    requires Inv(sys) && x !in sys.now.routes
    ensures sys.now.host != Some(x)
  {
    hide Queued, Whole, Flush, Typed, Geometry, Kept, Frames;
  }

  /** No terminal waits for a host whose acknowledgement could not be sent or whose socket is
      gone. */
  lemma {:induction false} HostIsThere(steps: seq<Step>)
    ensures var t := Run(steps).now;
            t.host.Some? && !t.ended ==> t.host.value in t.routes && t.routes[t.host.value] != Over
    decreases |steps|
  {
    hide System.Entering, System.Starting, State.LogOf;
    if steps != [] {
      HostIsThere(steps[..|steps| - 1]);
      HostStep(Run(steps[..|steps| - 1]).now, steps[|steps| - 1]);
    }
  }

  lemma {:induction false} HostStep(t: State, step: Step)
    requires t.host.Some? && !t.ended ==> t.host.value in t.routes && t.routes[t.host.value] != Over
    ensures var u := t.Do(step); u.host.Some? && !u.ended ==> u.host.value in u.routes && u.routes[u.host.value] != Over
  {
    hide State.LogOf, Kept, Flush;
  }

  /** The terminal of a host that is lost before it was started goes to the next new one,
      with all that was buffered, whatever happens in between short of its end. */
  lemma {:induction false} LostHostIsReplaced(steps: seq<Step>, h: HostId, more: seq<Step>, x: HostId)
    requires Run(steps).started.None? && Run(steps).now.host == Some(h) && !Run(steps).now.ended
    requires End !in more && Run(steps + [Lost(h)] + more).started.None?
    requires x !in Run(steps + [Lost(h)] + more).now.routes
    ensures var after := Run(steps + [Lost(h)] + more + [Connect(x)]);
            && after.now.host == Some(x) && after.now.starting && !after.now.ended
            && after.now.preInput == Typed(after.submitted) && after.now.preResize == Geometry(after.submitted)
  {
    hide Inv, Read, System.Do, Typed, Geometry;
    var lost := steps + [Lost(h)];
    RunStep(steps, Lost(h));
    RunReads(steps);
    EndsStep(Run(steps), Lost(h));
    StartedStays(steps, Lost(h));
    NotEnded(lost, more);
    ClaimedIff(lost + more, x);
    RunStep(lost + more, Connect(x));
    ConnectSubmits(Run(lost + more), x);
  }

  lemma {:induction false} ConnectSubmits(sys: System, x: HostId)
    ensures sys.Do(Connect(x)).submitted == sys.submitted
  {
  }

  /** A host that was started stays the started one. */
  lemma {:induction false} StartedStays(steps: seq<Step>, step: Step)
    ensures Run(steps).started.Some? ==> Run(steps + [step]).started == Run(steps).started
    ensures !step.HostAck? ==> Run(steps + [step]).started == Run(steps).started
  {
    RunStep(steps, step);
    RunKeeps(steps);
    hide Queued, RoutesOk, Whole, Flush, Typed, Geometry, Kept, Frames;
  }

  lemma {:induction false} NotEnded(steps: seq<Step>, more: seq<Step>)
    requires !Run(steps).now.ended && Run(steps + more).started.None? && End !in more
    ensures !Run(steps + more).now.ended
    decreases |more|
  {
    hide Inv, Read, System.Do;
    if more == [] {
      assert steps + more == steps;
    } else {
      var init, step := more[..|more| - 1], more[|more| - 1];
      assert steps + more == steps + init + [step];
      StartedStays(steps + init, step);
      NotEnded(steps, init);
      RunReads(steps + init);
      RunStep(steps + init, step);
      PendingIsFree(Run(steps + init));
      EndsStep(Run(steps + init), step);
    }
  }

  lemma {:induction false} PendingIsFree(sys: System)
    requires Inv(sys) && sys.started.None?
    ensures sys.now.Free()
  {
  }

  /** No host dials in, the terminal is not ended, and host `x` does nothing. */
  predicate Aside(step: Step, x: HostId) {
    !step.Connect? && !step.End? && (step.Acked? || step.HostAck? || step.Lost? ==> step.host != x)
  }

  /** Host `x` holds a terminal nobody was started on. */
  predicate Holds(sys: System, x: HostId, route: Route) {
    && sys.started.None? && !sys.now.ended && sys.now.host == Some(x) && sys.now.starting
    && x in sys.now.routes && sys.now.routes[x] == route
  }

  lemma {:induction false} AsideKeeps(sys: System, step: Step, x: HostId, route: Route)
    requires Inv(sys) && Holds(sys, x, route) && Aside(step, x)
    ensures Holds(sys.Do(step), x, route)
  {
    hide Queued, RoutesOk, Whole, Flush, Typed, Geometry, Kept, Frames;
  }

  lemma {:induction false} HoldsOn(steps: seq<Step>, more: seq<Step>, x: HostId, route: Route)
    requires Holds(Run(steps), x, route) && forall i :: 0 <= i < |more| ==> Aside(more[i], x)
    ensures Holds(Run(steps + more), x, route)
    decreases |more|
  {
    hide Inv, Holds, System.Do, Aside;
    if more == [] {
      assert steps + more == steps;
    } else {
      var init, step := more[..|more| - 1], more[|more| - 1];
      assert steps + more == steps + init + [step];
      HoldsOn(steps, init, x, route);
      RunKeeps(steps + init);
      RunStep(steps + init, step);
      AsideKeeps(Run(steps + init), step, x, route);
    }
  }

  /** A new host that dials in while the terminal is free, gets its acknowledgement and
      confirms is started, with every frame submitted until then to be flushed to it. */
  lemma {:induction false} HostStarts(steps: seq<Step>, x: HostId, a: seq<Step>, b: seq<Step>)
    requires x !in Run(steps).now.routes && !Run(steps).now.ended && Run(steps).started.None?
    requires forall i :: 0 <= i < |a| ==> Aside(a[i], x)
    requires forall i :: 0 <= i < |b| ==> Aside(b[i], x)
    ensures var after := Run(steps + [Connect(x)] + a + [Acked(x, true)] + b + [HostAck(x)]);
            after.started == Some((x, |after.submitted|)) && !after.now.ended
  {
    hide Inv, System.Do, Aside;
    RunStep(steps, Connect(x));
    RunKeeps(steps);
    Claims(Run(steps), x);
    HoldsOn(steps + [Connect(x)], a, x, Connecting);
    var reached := steps + [Connect(x)] + a;
    RunStep(reached, Acked(x, true));
    Acknowledges(Run(reached), x);
    HoldsOn(reached + [Acked(x, true)], b, x, Reading);
    var last := reached + [Acked(x, true)] + b;
    RunStep(last, HostAck(x));
    RunReads(last);
    Confirming(Run(last), x);
  }

  lemma {:induction false} Claims(sys: System, x: HostId)
    requires Inv(sys) && sys.started.None? && !sys.now.ended && x !in sys.now.routes
    ensures Holds(sys.Do(Connect(x)), x, Connecting)
  {
    hide Queued, RoutesOk, Whole, Flush, Typed, Geometry, Kept, Frames;
  }

  lemma {:induction false} Acknowledges(sys: System, x: HostId)
    requires Holds(sys, x, Connecting)
    ensures Holds(sys.Do(Acked(x, true)), x, Reading)
  {
  }

  lemma {:induction false} Confirming(sys: System, x: HostId)
    requires Inv(sys) && Read(sys) && Holds(sys, x, Reading)
    ensures sys.Do(HostAck(x)).started == Some((x, |sys.submitted|)) && sys.Do(HostAck(x)).submitted == sys.submitted
    ensures !sys.Do(HostAck(x)).now.ended
  {
    EndsStep(sys, HostAck(x));
    hide RoutesOk, Whole, Flush, Typed, Geometry, Kept, State.Do;
    assert sys.now.waiting == [] && Frames([]) == [] && sys.entered + [] == sys.entered;
  }

  // ------------------------------------------------------- all is handed over

  /** What is still to be sent to a started host: by the job that holds the lock. */
  function Left(t: State): nat {
    if t.holder.Some? then 1 + |t.holder.value| else 0
  }

  /** From any state of a started terminal, sends that end well and wakeups of the lock get
      the host every frame submitted so far. */
  lemma {:induction false} AllIsHandedOver(steps: seq<Step>, h: HostId, k: nat) returns (more: seq<Step>)
    requires Run(steps).started == Some((h, k)) && !Run(steps).now.ended
    ensures forall i :: 0 <= i < |more| ==> more[i] == Sent(true) || more[i] == Wake
    ensures Run(steps + more).submitted == Run(steps).submitted && k <= |Run(steps).submitted|
    ensures Run(steps + more).now.LogOf(h) == Whole(Run(steps).submitted, k)
    decreases |Run(steps).now.waiting|, Left(Run(steps).now)
  {
    hide Whole, Inv, System.Do;
    var t := Run(steps).now;
    if t.Free() {
      more := [];
      assert steps + more == steps;
      StartedHostGetsAll(steps, h, k);
    } else {
      var step := if t.holder.Some? then Sent(true) else Wake;
      RunStep(steps, step);
      RunKeeps(steps);
      HandsOver(Run(steps), step);
      var rest := AllIsHandedOver(steps + [step], h, k);
      more := [step] + rest;
      assert steps + [step] + rest == steps + more;
    }
  }

  lemma {:induction false} HandsOver(sys: System, step: Step)
    requires Inv(sys) && sys.started.Some? && !sys.now.ended && !sys.now.Free()
    requires step == if sys.now.holder.Some? then Sent(true) else Wake
    ensures var after := sys.Do(step);
            && after.submitted == sys.submitted && after.started == sys.started && !after.now.ended
            && (|after.now.waiting| < |sys.now.waiting|
                || (|after.now.waiting| == |sys.now.waiting| && Left(after.now) < Left(sys.now)))
  {
    hide RoutesOk, Whole, Typed, Geometry, Kept, Frames;
  }

  // ------------------------------------------------------------ as it is written

  /** A terminal's input side. Each method is one stretch between two awaits; the lock is
      taken before `ToHost` and `StartHost`. */
  class Terminal {
    var host: Option<HostId>
    var starting: bool
    var ended: bool
    var preResize: Option<Bytes>
    var preInput: Bytes
    var holder: Option<seq<Frame>>
    var waiting: seq<Job>
    var routes: map<HostId, Route>
    var log: map<HostId, seq<Frame>>

    ghost function Now(): State
      reads this
    {
      State(host, starting, ended, preResize, preInput, holder, waiting, routes, log)
    }

    constructor ()
      ensures Now() == FRESH
    {
      host, starting, ended, preResize, preInput := None, false, false, None, [];
      holder, waiting, routes, log := None, [], map[], map[];
    }

    method SendBytes(h: HostId, frame: Frame)
      modifies this`log
      ensures Now() == old(Now()).Logged(h, frame)
    {
      log := log[h := (if h in log then log[h] else []) + [frame]];
    }

    /** `_send_to_host`, and what the job sends after it. */
    method SendToHost(frames: seq<Frame>)
      modifies this
      ensures Now() == old(Now()).Forward(frames)
    {
      if frames == [] || host.None? || ended {
        holder := None;
      } else {
        SendBytes(host.value, frames[0]);
        holder := Some(frames[1..]);
      }
    }

    method ToHost(frame: Frame)
      modifies this
      ensures Now() == old(Now()).Enter(Job.ToHost(frame))
    {
      if host.None? || starting {
        match frame {
          case Resize(size) => preResize := Some(size);
          case Input(typed) =>
            if |preInput| + |typed| <= MAX_INPUT_FRAME_BYTES {
              preInput := preInput + typed;
            }
          case _ =>
        }
        return;
      }
      SendToHost([frame]);
    }

    method StartHost()
      modifies this
      ensures Now() == old(Now()).Enter(Start)
    {
      starting := false;
      var size := preResize;
      preResize := None;
      var typed := preInput;
      preInput := [];
      var frames: seq<Frame> := [];
      if size.Some? {
        frames := frames + [Resize(size.value)];
      }
      if typed != [] {
        frames := frames + [Input(typed)];
      }
      assert frames == Flush(size, typed);
      SendToHost(frames);
    }

    /** `async with host_sending`: at once when the lock is free, else behind the others. */
    method Acquire(job: Job)
      modifies this
      ensures Now() == old(Now()).Acquire(job)
    {
      if holder.None? && waiting == [] {
        match job {
          case ToHost(frame) => ToHost(frame);
          case Start => StartHost();
        }
      } else {
        waiting := waiting + [job];
      }
    }

    method HostConnected(h: HostId) returns (claimed: bool)
      requires h !in routes
      modifies this
      ensures Now() == old(Now()).Do(Connect(h))
      ensures claimed <==> !old(ended) && (old(host).None? || old(starting))
    {
      if ended || (host.Some? && !starting) {
        return false;
      }
      host := Some(h);
      starting := true;
      routes := routes[h := Connecting];
      return true;
    }

    method HostLost(h: HostId)
      modifies this
      ensures Now() == old(Now()).Do(Lost(h))
    {
      if h !in routes || routes[h] != Reading {
        return;
      }
      routes := routes[h := Over];
      if host == Some(h) && !ended {
        if starting {
          host := None;
          starting := false;
        } else {
          ended := true;
        }
      }
    }
  }
}
