/** The three sliding-minute limits (`_queue` of `server/execs.py`, `open` and
    `_signal_allowed` of `server/terminals.py`) and the byte rate `_Rate`. */
module RateLimits {

  // ------------------------------------------------------- sliding minute

  /** What is left once the times a minute old have been dropped from the front. */
  function Prune(times: seq<real>, now: real): seq<real> {
    if times != [] && now - times[0] >= 60.0 then Prune(times[1..], now) else times
  }

  /** How many of the times are less than a minute old. */
  function InLastMinute(times: seq<real>, now: real): nat {
    if times == [] then 0 else (if now - times[0] < 60.0 then 1 else 0) + InLastMinute(times[1..], now)
  }

  ghost predicate Sorted(times: seq<real>) {
    forall i, j :: 0 <= i < j < |times| ==> times[i] <= times[j]
  }

  lemma {:induction false} AllRecent(times: seq<real>, now: real)
    requires Sorted(times) && (times != [] ==> now - times[0] < 60.0)
    ensures InLastMinute(times, now) == |times|
  {
    if times != [] {
      assert |times| > 1 ==> times[0] <= times[1];
      AllRecent(times[1..], now);
    }
  }

  /** Dropping from the front until a recent time is met keeps exactly the recent ones. */
  lemma {:induction false} PruneCounts(times: seq<real>, now: real)
    requires Sorted(times)
    ensures |Prune(times, now)| == InLastMinute(times, now)
    ensures Sorted(Prune(times, now))
    ensures |Prune(times, now)| <= |times| && Prune(times, now) == times[|times| - |Prune(times, now)|..]
  {
    if times != [] && now - times[0] >= 60.0 {
      PruneCounts(times[1..], now);
    } else {
      AllRecent(times, now);
    }
  }

  /** Pruning earlier as well changes nothing. */
  lemma {:induction false} PruneTwice(times: seq<real>, earlier: real, now: real)
    requires earlier <= now
    ensures Prune(Prune(times, earlier), now) == Prune(times, now)
  {
    if times != [] && earlier - times[0] >= 60.0 {
      PruneTwice(times[1..], earlier, now);
    }
  }

  lemma {:induction false} PruneSnoc(times: seq<real>, now: real, at: real)
    requires now - at < 60.0
    ensures Prune(times + [at], now) == Prune(times, now) + [at]
  {
    if times != [] {
      assert (times + [at])[1..] == times[1..] + [at];
      PruneSnoc(times[1..], now, at);
    }
  }

  /** Any `limit + 1` admitted times in a row span at least a minute. */
  ghost predicate Spaced(times: seq<real>, limit: nat) {
    forall i :: 0 <= i && i + limit < |times| ==> times[i + limit] - times[i] >= 60.0
  }

  /** Admitting only below the limit keeps the history sorted and spaced. */
  lemma {:induction false} AdmitKeepsSpaced(history: seq<real>, limit: nat, now: real)
    requires limit > 0 && Sorted(history) && Spaced(history, limit)
    requires forall i :: 0 <= i < |history| ==> history[i] <= now
    requires InLastMinute(history, now) < limit
    ensures Sorted(history + [now]) && Spaced(history + [now], limit)
  {
    PruneCounts(history, now);
    var kept := |Prune(history, now)|;
    if |history| >= limit {
      var i := |history| - limit;
      DroppedIsOld(history, now, i);
    }
  }

  lemma {:induction false} DroppedIsOld(times: seq<real>, now: real, i: nat)
    requires i < |times| - |Prune(times, now)|
    ensures now - times[i] >= 60.0
  {
    if i > 0 {
      DroppedIsOld(times[1..], now, i - 1);
    }
  }

  /** What one attempt asks; `blocked` is any other ground on which it is refused. */
  datatype Attempt = Attempt(at: real, blocked: bool)

  /** The admitted times when the decision is made on the full history. */
  function Admitted(limit: nat, attempts: seq<Attempt>): seq<real> {
    if attempts == [] then []
    else
      var before := Admitted(limit, attempts[..|attempts| - 1]);
      var a := attempts[|attempts| - 1];
      if !a.blocked && InLastMinute(before, a.at) < limit then before + [a.at] else before
  }

  /** The times kept by a limit that prunes first and counts what is left. */
  function KeptByPruning(limit: nat, attempts: seq<Attempt>): seq<real> {
    if attempts == [] then []
    else
      var a := attempts[|attempts| - 1];
      var kept := Prune(KeptByPruning(limit, attempts[..|attempts| - 1]), a.at);
      if !a.blocked && |kept| < limit then kept + [a.at] else kept
  }

  /** The times kept by a limit that counts the recent ones and prunes as it admits. */
  function KeptByCounting(limit: nat, attempts: seq<Attempt>): seq<real> {
    if attempts == [] then []
    else
      var a := attempts[|attempts| - 1];
      var kept := KeptByCounting(limit, attempts[..|attempts| - 1]);
      if !a.blocked && InLastMinute(kept, a.at) < limit then Prune(kept, a.at) + [a.at] else kept
  }

  ghost predicate InTimeOrder(attempts: seq<Attempt>) {
    forall i, j :: 0 <= i < j < |attempts| ==> attempts[i].at <= attempts[j].at
  }

  /** `kept` may stand in for `history` from `now` on. */
  ghost predicate StandsIn(kept: seq<real>, history: seq<real>, now: real) {
    && Sorted(kept) && Sorted(history)
    && (forall i :: 0 <= i < |history| ==> history[i] <= now)
    && (forall i :: 0 <= i < |kept| ==> kept[i] <= now)
    && Prune(kept, now) == Prune(history, now)
  }

  lemma {:induction false} StandsInLater(kept: seq<real>, history: seq<real>, earlier: real, now: real)
    requires StandsIn(kept, history, earlier) && earlier <= now
    ensures StandsIn(kept, history, now) && StandsIn(Prune(kept, now), history, now)
    ensures |Prune(kept, now)| == InLastMinute(kept, now) == InLastMinute(history, now)
  {
    PruneTwice(kept, earlier, now);
    PruneTwice(history, earlier, now);
    PruneTwice(kept, now, now);
    PruneCounts(kept, now);
    PruneCounts(history, now);
  }

  lemma {:induction false} StandsInSnoc(kept: seq<real>, history: seq<real>, now: real)
    requires StandsIn(kept, history, now)
    ensures StandsIn(kept + [now], history + [now], now)
  {
    PruneSnoc(kept, now, now);
    PruneSnoc(history, now, now);
  }

  /** The pruned histories decide as the full history would: both stand in for it, and so
      no minute holds more than `limit` admitted attempts. */
  lemma {:induction false} PruningDecidesAsFull(limit: nat, attempts: seq<Attempt>, now: real)
    requires limit > 0 && InTimeOrder(attempts)
    requires forall i :: 0 <= i < |attempts| ==> attempts[i].at <= now
    ensures StandsIn(KeptByPruning(limit, attempts), Admitted(limit, attempts), now)
    ensures StandsIn(KeptByCounting(limit, attempts), Admitted(limit, attempts), now)
    ensures |Prune(KeptByPruning(limit, attempts), now)| == InLastMinute(Admitted(limit, attempts), now)
    ensures InLastMinute(KeptByCounting(limit, attempts), now) == InLastMinute(Admitted(limit, attempts), now)
    ensures Spaced(Admitted(limit, attempts), limit)
  {
    if attempts != [] {
      var before := attempts[..|attempts| - 1];
      var a := attempts[|attempts| - 1];
      PruningDecidesAsFull(limit, before, a.at);
      var h := Admitted(limit, before);
      StandsInLater(KeptByPruning(limit, before), h, a.at, a.at);
      StandsInLater(KeptByCounting(limit, before), h, a.at, a.at);
      if !a.blocked && InLastMinute(h, a.at) < limit {
        AdmitKeepsSpaced(h, limit, a.at);
        StandsInSnoc(Prune(KeptByPruning(limit, before), a.at), h, a.at);
        StandsInSnoc(Prune(KeptByCounting(limit, before), a.at), h, a.at);
      }
      StandsInLater(KeptByPruning(limit, attempts), Admitted(limit, attempts), a.at, now);
      StandsInLater(KeptByCounting(limit, attempts), Admitted(limit, attempts), a.at, now);
    }
  }

  /** An attempt is admitted exactly when nothing else blocks it and the admitted one `limit`
      before it, if there is one, is a minute old. */
  lemma {:induction false} AdmittedIff(limit: nat, attempts: seq<Attempt>, a: Attempt)
    requires limit > 0 && InTimeOrder(attempts + [a])
    ensures var h := Admitted(limit, attempts);
            Admitted(limit, attempts + [a]) ==
            if !a.blocked && (|h| < limit || a.at - h[|h| - limit] >= 60.0) then h + [a.at] else h
  {
    var h := Admitted(limit, attempts);
    assert (attempts + [a])[..|attempts|] == attempts;
    forall i, j | 0 <= i < j < |attempts|
      ensures attempts[i].at <= attempts[j].at
    {
      assert (attempts + [a])[i] == attempts[i] && (attempts + [a])[j] == attempts[j];
    }
    forall i | 0 <= i < |attempts|
      ensures attempts[i].at <= a.at
    {
      assert (attempts + [a])[i] == attempts[i] && (attempts + [a])[|attempts|] == a;
    }
    PruningDecidesAsFull(limit, attempts, a.at);
    PruneCounts(h, a.at);
    var kept := |Prune(h, a.at)|;
    if |h| >= limit {
      if kept < limit {
        DroppedIsOld(h, a.at, |h| - limit);
      } else {
        assert h[|h| - limit] == Prune(h, a.at)[kept - limit];
        KeptIsRecent(h, a.at);
      }
    }
  }

  lemma {:induction false} KeptIsRecent(times: seq<real>, now: real)
    requires Sorted(times)
    ensures forall i :: 0 <= i < |Prune(times, now)| ==> now - Prune(times, now)[i] < 60.0
  {
    if times != [] && now - times[0] >= 60.0 {
      KeptIsRecent(times[1..], now);
    }
  }

  // ---------------------------------------------- the terminal hub's limits

  const MAX_OPENS_PER_MIN_PER_USER := 10

  const MAX_SIGNALS_PER_MIN := 6

  const MAX_SIGNAL_BYTES := 16384

  /** One user's recent opens. */
  class OpenRate {
    var opens: seq<real>
    ghost var attempts: seq<Attempt>

    ghost predicate Valid()
      reads this
    {
      opens == KeptByCounting(MAX_OPENS_PER_MIN_PER_USER, attempts)
    }

    constructor ()
      ensures Valid() && attempts == []
    {
      opens, attempts := [], [];
    }

    /** Whether an open now would pass the open rate. */
    method Check(now: real) returns (refused: bool)
      ensures refused <==> InLastMinute(opens, now) >= MAX_OPENS_PER_MIN_PER_USER
    {
      var recent := 0;
      for i := 0 to |opens|
        invariant recent + InLastMinute(opens[i..], now) == InLastMinute(opens, now)
      {
        assert opens[i..][1..] == opens[i + 1..];
        if now - opens[i] < 60.0 {
          recent := recent + 1;
        }
      }
      refused := recent >= MAX_OPENS_PER_MIN_PER_USER;
    }

    method Open(now: real) returns (refused: bool)
      requires Valid()
      modifies this
      ensures Valid() && attempts == old(attempts) + [Attempt(now, false)]
      ensures refused <==> InLastMinute(old(opens), now) >= MAX_OPENS_PER_MIN_PER_USER
    {
      refused := Check(now);
      ghost var before := attempts;
      attempts := attempts + [Attempt(now, false)];
      assert attempts[..|attempts| - 1] == before;
      if refused {
        return;
      }
      ghost var kept := opens;
      while opens != [] && now - opens[0] >= 60.0
        invariant Prune(opens, now) == Prune(kept, now)
        invariant attempts == before + [Attempt(now, false)]
        decreases |opens|
      {
        opens := opens[1..];
      }
      opens := opens + [now];
    }
  }

  /** One terminal's recent `SIGNAL` frames. */
  class SignalRate {
    var signals: seq<real>
    ghost var attempts: seq<Attempt>

    ghost predicate Valid()
      reads this
    {
      signals == KeptByPruning(MAX_SIGNALS_PER_MIN, attempts)
    }

    constructor ()
      ensures Valid() && attempts == []
    {
      signals, attempts := [], [];
    }

    method SignalAllowed(now: real, size: nat) returns (allowed: bool)
      requires Valid()
      modifies this
      ensures Valid() && attempts == old(attempts) + [Attempt(now, size > MAX_SIGNAL_BYTES)]
      ensures allowed <==> size <= MAX_SIGNAL_BYTES && |Prune(old(signals), now)| < MAX_SIGNALS_PER_MIN
    {
      ghost var kept, before := signals, attempts;
      attempts := attempts + [Attempt(now, size > MAX_SIGNAL_BYTES)];
      assert attempts[..|attempts| - 1] == before;
      while signals != [] && now - signals[0] >= 60.0
        invariant Prune(signals, now) == Prune(kept, now)
        invariant attempts == before + [Attempt(now, size > MAX_SIGNAL_BYTES)]
        decreases |signals|
      {
        signals := signals[1..];
      }
      if size > MAX_SIGNAL_BYTES || |signals| >= MAX_SIGNALS_PER_MIN {
        return false;
      }
      signals := signals + [now];
      allowed := true;
    }
  }

  // ------------------------------------------------------------ byte rate

  datatype RateState = RateState(start: real, used: nat)

  /** `_Rate.delay`: the counters with these bytes, and the wait to the next second when they
      pass the limit. */
  function Delay(r: RateState, limit: nat, size: nat, now: real): (RateState, real) {
    var w := if now - r.start >= 1.0 then RateState(now, size) else RateState(r.start, r.used + size);
    (w, if w.used <= limit then 0.0 else w.start + 1.0 - now)
  }

  class Rate {
    const limit: nat
    var start: real
    var used: nat

    constructor (limit: nat)
      ensures this.limit == limit && start == 0.0 && used == 0
    {
      this.limit := limit;
      start, used := 0.0, 0;
    }

    method CountAndDelay(size: nat, now: real) returns (wait: real)
      modifies this
      ensures (RateState(start, used), wait) == Delay(RateState(old(start), old(used)), limit, size, now)
    {
      if now - start >= 1.0 {
        start := now;
        used := 0;
      }
      used := used + size;
      wait := if used <= limit then 0.0 else start + 1.0 - now;
    }
  }

  /** A frame asked about. */
  datatype Ask = Ask(at: real, size: nat)

  /** The counters once these have been asked about. */
  function Asked(asks: seq<Ask>, limit: nat): RateState {
    if asks == [] then RateState(0.0, 0)
    else
      var last := asks[|asks| - 1];
      Delay(Asked(asks[..|asks| - 1], limit), limit, last.size, last.at).0
  }

  /** The bytes asked about after `t`. */
  function AskedAfter(asks: seq<Ask>, t: real): nat {
    if asks == [] then 0
    else AskedAfter(asks[..|asks| - 1], t) + if asks[|asks| - 1].at > t then asks[|asks| - 1].size else 0
  }

  ghost predicate AsksInOrder(asks: seq<Ask>, now: real) {
    && (forall i :: 0 <= i < |asks| ==> 0.0 <= asks[i].at <= now)
    && forall i, j :: 0 <= i < j < |asks| ==> asks[i].at <= asks[j].at
  }

  /** No frame waits more than a second, and none at all when what was asked about in the
      last second, itself included, is within the limit. */
  lemma {:induction false} NoNeedlessWait(asks: seq<Ask>, limit: nat, size: nat, now: real)
    requires AsksInOrder(asks, now) && now >= 0.0
    ensures var wait := Delay(Asked(asks, limit), limit, size, now).1;
            && 0.0 <= wait <= 1.0
            && (AskedAfter(asks, now - 1.0) + size <= limit ==> wait == 0.0)
  {
    WindowIsAsked(asks, limit, now, now - 1.0);
  }

  lemma {:induction false} WindowIsAsked(asks: seq<Ask>, limit: nat, now: real, t: real)
    requires AsksInOrder(asks, now) && now >= 0.0
    ensures 0.0 <= Asked(asks, limit).start <= now
    ensures Asked(asks, limit).start > t ==> Asked(asks, limit).used <= AskedAfter(asks, t)
    decreases |asks|
  {
    if asks != [] {
      WindowIsAsked(asks[..|asks| - 1], limit, asks[|asks| - 1].at, t);
    }
  }

  /** A frame asked about at `at`, which passed the rate at `passed`. */
  datatype Send = Send(at: real, size: nat, passed: real)

  /** The sends of one sender that waits as told and asks about no frame before the last
      one passed; `r` is the rate before them and `last` when the one before passed. */
  ghost predicate Obeys(sends: seq<Send>, r: RateState, last: real, limit: nat, largest: nat) {
    sends == [] ||
    var s := sends[0];
    var (r', wait) := Delay(r, limit, s.size, s.at);
    && s.size <= largest && last <= s.at && s.at + wait <= s.passed && s.at <= s.passed
    && Obeys(sends[1..], r', s.passed, limit, largest)
  }

  /** The bytes that pass from `t` to `t + sec`, both included. */
  function Passed(sends: seq<Send>, t: real, sec: real): nat {
    if sends == [] then 0
    else (if t <= sends[0].passed <= t + sec then sends[0].size else 0) + Passed(sends[1..], t, sec)
  }

  /** How much may have passed since `t` when the current second began at `r.start`. */
  function Budget(r: RateState, t: real, per: nat): int {
    if r.start < t then r.used else per * (1 + (r.start - t).Floor) + r.used
  }

  /** In any `sec` seconds, a sender that obeys the rate passes at most `floor(sec) + 2`
      times the limit plus its largest frame. */
  lemma {:induction false} BytesAreBounded(sends: seq<Send>, limit: nat, largest: nat, t: real, sec: real, first: real)
    requires Obeys(sends, RateState(0.0, 0), first, limit, largest) && first >= 0.0 && sec >= 0.0
    ensures Passed(sends, t, sec) <= (sec.Floor + 2) * (limit + largest)
  {
    var per := limit + largest;
    if 0.0 >= t {
      FloorNat(0.0 - t);
      ProductNonNegative(per, 1 + (0.0 - t).Floor);
    }
    PassedFrom(sends, RateState(0.0, 0), first, limit, largest, t, sec, 0);
  }

  lemma {:induction false} FloorNat(x: real)
    requires x >= 0.0
    ensures x.Floor >= 0
  {
  }

  lemma {:induction false} ProductNonNegative(a: nat, b: int)
    requires b >= 0
    ensures a * b >= 0
  {
  }

  lemma {:induction false} ProductMono(per: nat, a: int, b: int)
    requires a <= b
    ensures per * a <= per * b
  {
  }

  /** The sends so far left the rate in state `r` and passed `so` bytes since `t`. */
  ghost predicate Sofar(r: RateState, last: real, limit: nat, largest: nat, t: real, sec: real, so: nat) {
    && r.used <= limit + largest
    && (r.used > limit ==> r.start + 1.0 <= last)
    && (so > 0 ==> t <= last)
    && r.start <= last
    && (r.start <= t + sec ==> so <= Budget(r, t, limit + largest))
    && so <= (sec.Floor + 2) * (limit + largest)
  }

  lemma {:induction false} PassedFrom(sends: seq<Send>, r: RateState, last: real, limit: nat, largest: nat,
                                      t: real, sec: real, so: nat)
    requires sec >= 0.0 && Obeys(sends, r, last, limit, largest)
    requires Sofar(r, last, limit, largest, t, sec, so)
    ensures so + Passed(sends, t, sec) <= (sec.Floor + 2) * (limit + largest)
    decreases |sends|
  {
    if sends != [] {
      var s := sends[0];
      var (r', wait) := Delay(r, limit, s.size, s.at);
      var now := so + if t <= s.passed <= t + sec then s.size else 0;
      OneSend(s, r, last, limit, largest, t, sec, so);
      PassedFrom(sends[1..], r', s.passed, limit, largest, t, sec, now);
    }
  }

  lemma {:induction false} OneSend(s: Send, r: RateState, last: real, limit: nat, largest: nat, t: real, sec: real, so: nat)
    requires sec >= 0.0 && Sofar(r, last, limit, largest, t, sec, so)
    requires s.size <= largest && last <= s.at <= s.passed && s.at + Delay(r, limit, s.size, s.at).1 <= s.passed
    ensures Sofar(Delay(r, limit, s.size, s.at).0, s.passed, limit, largest, t, sec,
                  so + if t <= s.passed <= t + sec then s.size else 0)
  {
    var per := limit + largest;
    var (r', wait) := Delay(r, limit, s.size, s.at);
    var now := so + if t <= s.passed <= t + sec then s.size else 0;
    if r'.start <= t + sec {
      BudgetGrows(s, r, last, limit, largest, t, sec, so);
      BudgetIsEnough(r', t, sec, per);
    }
  }

  lemma {:induction false} BudgetGrows(s: Send, r: RateState, last: real, limit: nat, largest: nat, t: real, sec: real, so: nat)
    requires sec >= 0.0 && Sofar(r, last, limit, largest, t, sec, so)
    requires s.size <= largest && last <= s.at <= s.passed
    requires Delay(r, limit, s.size, s.at).0.start <= t + sec
    ensures Delay(r, limit, s.size, s.at).0.used <= limit + largest
    ensures so + (if t <= s.passed <= t + sec then s.size else 0) <= Budget(Delay(r, limit, s.size, s.at).0, t, limit + largest)
  {
    var per := limit + largest;
    var r' := Delay(r, limit, s.size, s.at).0;
    if s.at - r.start >= 1.0 && r'.start >= t {
      if r.start >= t {
        assert (r.start - t).Floor + 1 <= (r'.start - t).Floor;
        ProductMono(per, 2 + (r.start - t).Floor, 1 + (r'.start - t).Floor);
        assert per * (2 + (r.start - t).Floor) == per * (1 + (r.start - t).Floor) + per;
      } else {
        FloorNat(r'.start - t);
        ProductMono(per, 1, 1 + (r'.start - t).Floor);
      }
    }
  }

  lemma {:induction false} BudgetIsEnough(r: RateState, t: real, sec: real, per: nat)
    requires sec >= 0.0 && r.used <= per && r.start <= t + sec
    ensures Budget(r, t, per) <= (sec.Floor + 2) * per
  {
    FloorNat(sec);
    if r.start < t {
      ProductMono(per, 1, sec.Floor + 2);
    } else {
      assert (r.start - t).Floor <= sec.Floor;
      ProductMono(per, 1 + (r.start - t).Floor, 1 + sec.Floor);
      assert per * (sec.Floor + 2) == per * (1 + sec.Floor) + per;
    }
  }
}
