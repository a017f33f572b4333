/**
 The diagnostic counters of an HTTP pool, and the streams that acquire and release them.
 */
module HttpPool {
  import opened Common

  function Max(a: int, b: int): int {
    if a < b then b else a
  }

  function Ceil(x: real): int {
    -((-x).Floor)
  }

  function Share(limit: nat, ratio: real): real {
    limit as real * ratio
  }

  function WarningAt(limit: nat, ratio: real): int {
    Max(1, Ceil(Share(limit, ratio)))
  }

  lemma CeilIsLeast(x: real, n: int)
    ensures n >= Ceil(x) <==> n as real >= x
  {
    var f := (-x).Floor;
    assert f as real <= -x < f as real + 1.0;
    assert n >= -f ==> n as real >= -(f as real);
    assert n < -f ==> n as real <= -(f as real) - 1.0;
  }

  lemma ScalingShrinks(a: real, ratio: real)
    requires 0.0 < a && 0.0 < ratio <= 1.0
    ensures 0.0 < a * ratio <= a
  {
    assert a * (1.0 - ratio) >= 0.0;
  }

  lemma ShareIsWithin(limit: nat, ratio: real)
    requires 1 <= limit && 0.0 < ratio <= 1.0
    ensures 0.0 < Share(limit, ratio) <= limit as real
  {
    var a := limit as real;
    assert a > 0.0;
    ScalingShrinks(a, ratio);
  }

  lemma ThresholdOf(x: real, limit: nat, n: int)
    requires 1 <= limit && 0.0 < x <= limit as real
    ensures 1 <= Max(1, Ceil(x)) <= limit
    ensures n >= Max(1, Ceil(x)) <==> n >= 1 && n as real >= x
  {
    hide Ceil;
    CeilIsLeast(x, n);
    CeilIsLeast(x, limit);
  }

  /** For a sensible configuration the threshold lies within the limit, and it is the least count of at least one
      that reaches the ratio. */
  lemma WarningIsWithinTheLimit(limit: nat, ratio: real, n: int)
    requires 1 <= limit && 0.0 < ratio <= 1.0
    ensures 1 <= WarningAt(limit, ratio) <= limit
    ensures n >= WarningAt(limit, ratio) <==> n >= 1 && n as real >= Share(limit, ratio)
  {
    hide Ceil, Max, Share;
    ShareIsWithin(limit, ratio);
    ThresholdOf(Share(limit, ratio), limit, n);
  }

  // ---- The counters ----------------------------------------------------------------------------

  datatype Counters = Counters(active: int, peak: int, cancelled: nat, poolTimeout: nat)

  function Acquired(c: Counters): Counters {
    c.(active := c.active + 1, peak := Max(c.peak, c.active + 1))
  }

  predicate UnderPressure(c: Counters, w: int) {
    c.active >= w
  }

  /** The answer of `acquire` for the threshold `w`: pressure now, and none before. */
  predicate Warns(c: Counters, w: int) {
    !UnderPressure(c, w) && UnderPressure(Acquired(c), w)
  }

  function Released(c: Counters): Counters {
    c.(active := Max(0, c.active - 1))
  }

  /** How the body of the stream, or its opening, ends. */
  datatype Exit = Normal | Cancellation | PoolTimeout | OtherError

  function Noted(c: Counters, exit: Exit): Counters {
    match exit
    case Cancellation => c.(cancelled := c.cancelled + 1)
    case PoolTimeout => c.(poolTimeout := c.poolTimeout + 1)
    case _ => c
  }

  class Runtime {
    const limit: nat
    const ratio: real
    var active: int
    var peak: int
    var cancelled: nat
    var poolTimeout: nat

    function View(): Counters
      reads this
    {
      Counters(active, peak, cancelled, poolTimeout)
    }

    constructor (limit: nat, ratio: real)
      ensures this.limit == limit && this.ratio == ratio && View() == Counters(0, 0, 0, 0)
    {
      this.limit, this.ratio := limit, ratio;
      active, peak, cancelled, poolTimeout := 0, 0, 0, 0;
    }

    predicate IsUnderPressure()
      reads this
    {
      UnderPressure(View(), WarningAt(limit, ratio))
    }

    method Acquire() returns (warn: bool)
      modifies this
      ensures View() == Acquired(old(View())) && warn == Warns(old(View()), WarningAt(limit, ratio))
    {
      var before := IsUnderPressure();
      active := active + 1;
      peak := Max(peak, active);
      warn := !before && IsUnderPressure();
    }

    method Release()
      modifies this
      ensures View() == Released(old(View()))
    {
      active := Max(0, active - 1);
    }

    /** `open_httpx2_stream` up to its first await.  `logFails` says what writing the pressure warning would do; if it
        raises, nothing releases the count. */
    method Open(logFails: bool) returns (success: bool)
      modifies this
      ensures View() == Acquired(old(View()))
      ensures success <==> !(logFails && Warns(old(View()), WarningAt(limit, ratio)))
    {
      var warn := Acquire();
      if warn && logFails {
        return false;
      }
      success := true;
    }

    /** From the end of the body, or of a failed opening, through the `finally` block; the release happens whether or
        not leaving the response raises. */
    method Leave(exit: Exit)
      modifies this
      ensures View() == Released(Noted(old(View()), exit))
    {
      match exit {
        case Cancellation => cancelled := cancelled + 1;
        case PoolTimeout => poolTimeout := poolTimeout + 1;
        case _ =>
      }
      Release();
    }
  }

  // ---- Runs ------------------------------------------------------------------------------------

  datatype Stage = Open | Left(exit: Exit) | Leaked

  /** One change of the active count; `warned` is the answer of an acquire. */
  datatype Move = Move(before: int, after: int, warned: bool)

  datatype State = State(
    counters: Counters,
    streams: seq<Stage>,
    trace: seq<Move>)           // history: every acquire and release

  datatype Action = OpenStream(logFails: bool) | LeaveStream(k: nat, exit: Exit)

  function Initial(): State {
    State(Counters(0, 0, 0, 0), [], [])
  }

  predicate Enabled(s: State, a: Action) {
    match a
    case OpenStream(_) => true
    case LeaveStream(k, _) => k < |s.streams| && s.streams[k] == Open
  }

  function Apply(s: State, a: Action, w: int): State
    requires Enabled(s, a)
  {
    match a
    case OpenStream(logFails) =>
      var warned := Warns(s.counters, w);
      State(
        Acquired(s.counters),
        s.streams + [if warned && logFails then Leaked else Open],
        s.trace + [Move(s.counters.active, Acquired(s.counters).active, warned)])
    case LeaveStream(k, exit) =>
      var c := Released(Noted(s.counters, exit));
      State(c, s.streams[k := Left(exit)], s.trace + [Move(s.counters.active, c.active, false)])
  }

  function Play(s: State, actions: seq<Action>, w: int): Option<State>
    decreases |actions|
  {
    if actions == [] then Some(s)
    else
      var t := Play(s, actions[..|actions| - 1], w);
      var a := actions[|actions| - 1];
      if t.Some? && Enabled(t.value, a) then Some(Apply(t.value, a, w)) else None
  }

  ghost predicate Reachable(s: State, w: int) {
    exists actions :: Play(Initial(), actions, w) == Some(s)
  }

  /** How many of the streams are at the stage. */
  function Count(streams: seq<Stage>, stage: Stage): nat {
    if streams == [] then 0
    else Count(streams[..|streams| - 1], stage) + if streams[|streams| - 1] == stage then 1 else 0
  }

  function Highest(trace: seq<Move>): int {
    if trace == [] then 0 else Max(Highest(trace[..|trace| - 1]), trace[|trace| - 1].after)
  }

  lemma CountOneMore(streams: seq<Stage>, x: Stage, stage: Stage)
    ensures Count(streams + [x], stage) == Count(streams, stage) + if x == stage then 1 else 0
  {
    assert (streams + [x])[..|streams|] == streams;
  }

  lemma {:induction false} CountReplaced(streams: seq<Stage>, k: nat, x: Stage, stage: Stage)
    requires k < |streams|
    ensures Count(streams[k := x], stage) ==
      Count(streams, stage) - (if streams[k] == stage then 1 else 0) + (if x == stage then 1 else 0)
    decreases |streams|
  {
    var changed := streams[k := x];
    if k == |streams| - 1 {
      assert changed[..k] == streams[..k];
    } else {
      assert changed[..|streams| - 1] == streams[..|streams| - 1][k := x];
      CountReplaced(streams[..|streams| - 1], k, x, stage);
    }
  }

  lemma {:induction false} CountIsPositive(streams: seq<Stage>, k: nat)
    requires k < |streams|
    ensures Count(streams, streams[k]) > 0
    decreases |streams|
  {
    if k < |streams| - 1 {
      CountIsPositive(streams[..|streams| - 1], k);
    }
  }

  // ---- What every step keeps -------------------------------------------------------------------

  ghost predicate CountsHold(s: State) {
    && s.counters.active == Count(s.streams, Open) + Count(s.streams, Leaked)
    && s.counters.cancelled == Count(s.streams, Left(Cancellation))
    && s.counters.poolTimeout == Count(s.streams, Left(PoolTimeout))
    && s.counters.peak == Highest(s.trace)
    && (s.trace != [] ==> s.trace[|s.trace| - 1].after == s.counters.active)
    && (s.trace == [] ==> s.counters.active == 0)
  }

  predicate MoveHolds(trace: seq<Move>, i: nat, w: int)
    requires i < |trace|
  {
    var m := trace[i];
    && (m.after == m.before + 1 || (m.after == m.before - 1 && !m.warned))
    && m.before == (if i == 0 then 0 else trace[i - 1].after)
    && (m.warned <==> m.before < w <= m.after)
  }

  ghost predicate TraceHolds(s: State, w: int) {
    forall i :: 0 <= i < |s.trace| ==> MoveHolds(s.trace, i, w)
  }

  ghost predicate Inv(s: State, w: int) {
    CountsHold(s) && TraceHolds(s, w)
  }

  /** The clamp at zero never acts: a stream that leaves is counted. */
  lemma LeavingIsCounted(s: State, k: nat)
    requires CountsHold(s) && k < |s.streams| && s.streams[k] == Open
    ensures s.counters.active >= 1
  {
    CountIsPositive(s.streams, k);
  }

  lemma OpeningKeepsCounts(s: State, logFails: bool, w: int)
    requires CountsHold(s)
    ensures CountsHold(Apply(s, OpenStream(logFails), w))
  {
    hide Count;
    var t := Apply(s, OpenStream(logFails), w);
    assert t.trace[..|s.trace|] == s.trace;
    CountOneMore(s.streams, t.streams[|s.streams|], Stage.Open);
    CountOneMore(s.streams, t.streams[|s.streams|], Leaked);
    CountOneMore(s.streams, t.streams[|s.streams|], Left(Cancellation));
    CountOneMore(s.streams, t.streams[|s.streams|], Left(PoolTimeout));
  }

  lemma LeavingKeepsCounts(s: State, k: nat, exit: Exit, w: int)
    requires CountsHold(s) && k < |s.streams| && s.streams[k] == Stage.Open
    ensures CountsHold(Apply(s, LeaveStream(k, exit), w))
  {
    hide Count;
    var t := Apply(s, LeaveStream(k, exit), w);
    assert t.trace[..|s.trace|] == s.trace;
    LeavingIsCounted(s, k);
    CountReplaced(s.streams, k, Left(exit), Stage.Open);
    CountReplaced(s.streams, k, Left(exit), Leaked);
    CountReplaced(s.streams, k, Left(exit), Left(Cancellation));
    CountReplaced(s.streams, k, Left(exit), Left(PoolTimeout));
    assert t.counters.active == s.counters.active - 1;
    HighestIsReached(s.trace);
    assert s.trace != [] ==> s.counters.active <= Highest(s.trace);
  }

  lemma StepKeepsCounts(s: State, a: Action, w: int)
    requires Enabled(s, a) && CountsHold(s)
    ensures CountsHold(Apply(s, a, w))
  {
    hide CountsHold, Apply;
    match a {
      case OpenStream(logFails) => OpeningKeepsCounts(s, logFails, w);
      case LeaveStream(k, exit) => LeavingKeepsCounts(s, k, exit, w);
    }
  }

  lemma {:induction false} HighestIsReached(trace: seq<Move>)
    ensures Highest(trace) >= 0
    ensures forall i :: 0 <= i < |trace| ==> trace[i].after <= Highest(trace)
    ensures Highest(trace) == 0 || exists i :: 0 <= i < |trace| && trace[i].after == Highest(trace)
    decreases |trace|
  {
    if trace == [] {
    } else {
      HighestIsReached(trace[..|trace| - 1]);
      assert forall i :: 0 <= i < |trace| - 1 ==> trace[..|trace| - 1][i] == trace[i];
    }
  }

  lemma StepKeepsTrace(s: State, a: Action, w: int)
    requires Enabled(s, a) && Inv(s, w)
    ensures TraceHolds(Apply(s, a, w), w)
  {
    var t := Apply(s, a, w);
    if a.LeaveStream? {
      LeavingIsCounted(s, a.k);
    }
    forall i | 0 <= i < |t.trace|
      ensures MoveHolds(t.trace, i, w)
    {
      if i < |s.trace| {
        assert MoveHolds(s.trace, i, w);
      }
    }
  }

  lemma {:induction false} RunsKeepInv(s: State, actions: seq<Action>, w: int)
    requires Inv(s, w) && Play(s, actions, w).Some?
    ensures Inv(Play(s, actions, w).value, w)
    decreases |actions|
  {
    hide CountsHold, TraceHolds, Apply, Enabled;
    if actions == [] {
    } else {
      var t, a := Play(s, actions[..|actions| - 1], w).value, actions[|actions| - 1];
      RunsKeepInv(s, actions[..|actions| - 1], w);
      StepKeepsCounts(t, a, w);
      StepKeepsTrace(t, a, w);
    }
  }

  lemma ReachableKeepsInv(s: State, w: int)
    requires Reachable(s, w)
    ensures Inv(s, w)
  {
    var actions :| Play(Initial(), actions, w) == Some(s);
    RunsKeepInv(Initial(), actions, w);
  }

  // ---- Main results ----------------------------------------------------------------------------

  /** `active` is the number of open streams exactly as long as no pressure warning has failed to be written; each
      such failure leaves one count behind for good. */
  lemma ActiveCountsOpenStreams(s: State, w: int)
    requires Reachable(s, w)
    ensures s.counters.active == Count(s.streams, Open) + Count(s.streams, Leaked)
    ensures s.counters.active == Count(s.streams, Open) <==> Leaked !in s.streams
    ensures forall k :: 0 <= k < |s.streams| && s.streams[k] == Open ==> s.counters.active >= 1
  {
    ReachableKeepsInv(s, w);
    NoneCountedIffAbsent(s.streams, Leaked);
    forall k | 0 <= k < |s.streams| && s.streams[k] == Open
      ensures s.counters.active >= 1
    {
      LeavingIsCounted(s, k);
    }
  }

  /** An opening leaks its count exactly if it reaches the threshold from just below and the warning cannot be
      written; every other opening is an open stream. */
  lemma LeaksExactlyAtAFailedWarning(s: State, logFails: bool, w: int)
    ensures var t := Apply(s, OpenStream(logFails), w);
      && |t.streams| == |s.streams| + 1 && t.streams[..|s.streams|] == s.streams
      && (t.streams[|s.streams|] == Leaked <==> logFails && s.counters.active == w - 1)
      && (t.streams[|s.streams|] == Open <==> !(logFails && s.counters.active == w - 1))
  {
  }

  /** The two failure counters count the streams that left by cancellation and by a pool timeout. */
  lemma FailuresAreCounted(s: State, w: int)
    requires Reachable(s, w)
    ensures s.counters.cancelled == Count(s.streams, Left(Cancellation))
    ensures s.counters.poolTimeout == Count(s.streams, Left(PoolTimeout))
  {
    ReachableKeepsInv(s, w);
  }

  lemma {:induction false} NoneCountedIffAbsent(streams: seq<Stage>, stage: Stage)
    ensures Count(streams, stage) == 0 <==> stage !in streams
    decreases |streams|
  {
    if streams == [] {
    } else {
      NoneCountedIffAbsent(streams[..|streams| - 1], stage);
      assert streams == streams[..|streams| - 1] + [streams[|streams| - 1]];
    }
  }

  /** A warning that cannot be written, because a filter of the logger raises, say, does leave a count behind. */
  lemma FailedWarningLeaks()
    ensures Reachable(State(Counters(1, 1, 0, 0), [Leaked], [Move(0, 1, true)]), 1)
  {
    var actions := [OpenStream(true)];
    assert actions[..0] == [];
    assert Play(Initial(), [], 1) == Some(Initial());
    assert Apply(Initial(), OpenStream(true), 1) == State(Counters(1, 1, 0, 0), [Leaked], [Move(0, 1, true)]);
    assert Play(Initial(), actions, 1) == Some(State(Counters(1, 1, 0, 0), [Leaked], [Move(0, 1, true)]));
  }

  /** `peak_active` is the maximum of the active count over the whole run. */
  lemma PeakIsTheMaximum(s: State, w: int)
    requires Reachable(s, w)
    ensures forall i :: 0 <= i < |s.trace| ==> s.trace[i].after <= s.counters.peak
    ensures s.counters.peak == 0 || exists i :: 0 <= i < |s.trace| && s.trace[i].after == s.counters.peak
  {
    ReachableKeepsInv(s, w);
    HighestIsReached(s.trace);
  }

  /** A warning is answered exactly at a crossing from below the threshold. */
  lemma WarnsExactlyAtCrossings(s: State, w: int, i: nat)
    requires Reachable(s, w) && i < |s.trace|
    ensures s.trace[i].warned <==> s.trace[i].before < w <= s.trace[i].after
    ensures s.trace[i].warned ==> s.trace[i].before == w - 1 && s.trace[i].after == w
  {
    ReachableKeepsInv(s, w);
    assert MoveHolds(s.trace, i, w);
  }

  /** Between two warnings the count has dropped below the threshold. */
  lemma DropsBetweenWarnings(s: State, w: int, i: nat, j: nat)
    requires Reachable(s, w) && i < j < |s.trace| && s.trace[i].warned && s.trace[j].warned
    ensures exists k :: i < k < j && s.trace[k].after < w
  {
    ReachableKeepsInv(s, w);
    assert MoveHolds(s.trace, i, w) && MoveHolds(s.trace, j, w);
    assert s.trace[j - 1].after < w;
  }

  /** And every rise from below the threshold to it has its warning. */
  lemma EveryRiseWarns(s: State, w: int, i: nat, j: nat)
    requires Reachable(s, w) && i < j < |s.trace| && s.trace[i].after < w <= s.trace[j].after
    ensures exists k :: i < k <= j && s.trace[k].warned
  {
    ReachableKeepsInv(s, w);
    RiseHasACrossing(s.trace, w, i, j);
  }

  lemma {:induction false} RiseHasACrossing(trace: seq<Move>, w: int, i: nat, j: nat)
    requires forall k :: 0 <= k < |trace| ==> MoveHolds(trace, k, w)
    requires i < j < |trace| && trace[i].after < w <= trace[j].after
    ensures exists k :: i < k <= j && trace[k].warned
    decreases j
  {
    assert MoveHolds(trace, j, w);
    if trace[j - 1].after >= w {
      RiseHasACrossing(trace, w, i, j - 1);
    } else {
      assert trace[j].warned;
    }
  }
}
