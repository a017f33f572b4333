/**
 `WorkerRunner.run` and its lanes: each lane receives and executes one delivery after the other; the runner waits
 for the stop signal or a finished lane, cancels the lanes still receiving, drains, and cancels what is left
 after the time limit.  Cancelling is a request that takes effect where the lane next waits; a handler may
 swallow it.
 */
module WorkerRunner {
  import opened Common

  /** How a lane's task ended; `Lost` is the DeliveryLostError that replaces an unexpected cancellation. */
  datatype Ending = Normal | Failed | Lost | CancelledEnd

  datatype Doing = Starting | Receiving | Executing(delivery: nat) | Ended(how: Ending)

  /** `cancel` is a pending cancellation request; `hit` records that the runner requested one while the lane was
      executing a delivery. */
  datatype Lane = Lane(doing: Doing, cancel: bool, hit: bool)

  function Cancelled(lane: Lane): Lane {
    if lane.doing.Ended? then lane else lane.(cancel := true, hit := lane.hit || lane.doing.Executing?)
  }

  /** The lanes after `cancel()` was called on those of `targets`. */
  function CancelLanes(lanes: seq<Lane>, targets: set<nat>): seq<Lane> {
    seq(|lanes|, i requires 0 <= i < |lanes| => if i in targets then Cancelled(lanes[i]) else lanes[i])
  }

  function CancelAll(lanes: seq<Lane>): seq<Lane> {
    seq(|lanes|, i requires 0 <= i < |lanes| => Cancelled(lanes[i]))
  }

  /** A lane that ends because of a cancellation reports a lost delivery unless the runner is closing. */
  function CancelledEnding(closing: bool): Ending {
    if closing then CancelledEnd else Lost
  }

  /** The receivers once a lane has passed the head of its loop. */
  function Rejoined(receivers: set<nat>, lane: nat, stop: bool): set<nat> {
    if stop then receivers else receivers + {lane}
  }

  /** The results that `run` puts into its exception group, in lane order. */
  function Errors(results: seq<Ending>): seq<Ending> {
    if results == [] then []
    else
      var rest := Errors(results[..|results| - 1]);
      var last := results[|results| - 1];
      if last == Failed || last == Lost then rest + [last] else rest
  }

  /** The runner's own fields, one method per stretch of code between awaits. */
  class Runner {
    var receivers: set<nat>
    var closing: bool

    constructor ()
      ensures receivers == {} && !closing
    {
      receivers, closing := {}, false;
    }

    /** The head of the lane's loop, up to `await consumer.receive()`. */
    method LaneHead(lane: nat, stop: bool) returns (receives: bool)
      modifies this
      ensures receives == !stop && closing == old(closing)
      ensures receivers == Rejoined(old(receivers), lane, stop)
    {
      if stop {
        return false;
      }
      receivers := receivers + {lane};
      receives := true;
    }

    /** The inner `finally`, however `receive` ended. */
    method Received(lane: nat)
      modifies this
      ensures receivers == old(receivers) - {lane} && closing == old(closing)
    {
      receivers := receivers - {lane};
    }

    method LaneCancelled() returns (how: Ending)
      ensures how == CancelledEnding(closing)
      ensures (how == CancelledEnd <==> closing) && (how == Lost <==> !closing)
    {
      if !closing {
        return Lost;
      }
      how := CancelledEnd;
    }

    /** From the first wait to the draining wait: exactly the receiving lanes are cancelled. */
    method CancelReceivers(lanes: array<Lane>)
      requires forall i :: i in receivers ==> i < lanes.Length
      modifies this, lanes
      ensures closing && receivers == old(receivers)
      ensures lanes[..] == CancelLanes(old(lanes[..]), receivers)
      ensures forall i :: 0 <= i < lanes.Length ==> lanes[i].doing == old(lanes[i]).doing
      ensures forall i :: 0 <= i < lanes.Length && i !in receivers ==> lanes[i] == old(lanes[i])
      ensures forall i :: i in receivers && !lanes[i].doing.Ended? ==> lanes[i].cancel
    {
      closing := true;
      var left := receivers;
      while left != {}
        invariant closing && receivers == old(receivers) && left <= receivers
        invariant forall i :: 0 <= i < lanes.Length ==>
          lanes[i] == if i in receivers - left then Cancelled(old(lanes[i])) else old(lanes[i])
        decreases |left|
      {
        var i :| i in left;
        lanes[i] := Cancelled(lanes[i]);
        left := left - {i};
      }
    }

    /** The first loop of the `finally` block, and the loop after the time limit. */
    method CancelTasks(lanes: array<Lane>)
      modifies lanes
      ensures lanes[..] == CancelAll(old(lanes[..]))
      ensures forall i :: 0 <= i < lanes.Length ==>
        lanes[i].doing == old(lanes[i]).doing && (lanes[i].doing.Ended? || lanes[i].cancel)
    {
      for i := 0 to lanes.Length
        invariant forall k :: 0 <= k < lanes.Length ==>
                lanes[k] == if k < i then Cancelled(old(lanes[k])) else old(lanes[k])
      {
        lanes[i] := Cancelled(lanes[i]);
      }
    }

    method CollectErrors(results: seq<Ending>) returns (errors: seq<Ending>)
      ensures errors == Errors(results)
    {
      errors := [];
      for i := 0 to |results|
        invariant errors == Errors(results[..i])
      {
        assert results[..i + 1][..i] == results[..i];
        if results[i] == Failed || results[i] == Lost {
          errors := errors + [results[i]];
        }
      }
      assert results[..|results|] == results;
    }
  }

  /** The group is raised exactly when some lane failed or lost its delivery; a plain cancellation is no error. */
  lemma {:induction false} RaisesIffALaneFailed(results: seq<Ending>)
    ensures Errors(results) != [] <==> Failed in results || Lost in results
  {
    if results == [] {
    } else {
      RaisesIffALaneFailed(results[..|results| - 1]);
      assert results == results[..|results| - 1] + [results[|results| - 1]];
    }
  }

  /** The lanes among the results that failed or lost their delivery. */
  function Failing(results: seq<Ending>): set<nat> {
    set k: nat | k < |results| && (results[k] == Failed || results[k] == Lost)
  }

  /** The group holds the result of each such lane, at the place its predecessors leave it, and no more. */
  lemma {:induction false} ErrorsAreTheFailures(results: seq<Ending>, k: nat)
    requires k < |results| && k in Failing(results)
    ensures |Errors(results[..k])| < |Errors(results)| && Errors(results)[|Errors(results[..k])|] == results[k]
    decreases |results|
  {
    if k < |results| - 1 {
      ErrorsAreTheFailures(results[..|results| - 1], k);
      assert results[..|results| - 1][..k] == results[..k];
    }
  }

  lemma {:induction false} ErrorsAreNoMore(results: seq<Ending>)
    ensures |Errors(results)| == |Failing(results)|
    decreases |results|
  {
    if results == [] {
      assert Failing(results) == {};
    } else {
      var front, last := results[..|results| - 1], |results| - 1;
      ErrorsAreNoMore(front);
      if results[last] == Failed || results[last] == Lost {
        assert Failing(results) == Failing(front) + {last};
      } else {
        assert Failing(results) == Failing(front);
      }
    }
  }

  // ---- The protocol ----------------------------------------------------------------------------

  datatype Phase = Waiting | Draining | Gathering | Finally | Left(raised: bool)

  datatype State = State(
    lanes: seq<Lane>,
    receivers: set<nat>,
    closing: bool,
    stop: bool,
    phase: Phase,
    deliveries: nat,          // history: deliveries received so far
    unfinished: set<nat>,     // history: deliveries received and not yet done with
    timedOut: bool,           // history: the drain limit was reached
    aborted: bool)            // history: the first wait ended with a failed lane, or `run` itself was cancelled

  datatype Action =
    | SetStop
    | StartLane(i: nat)
    | Deliver(i: nat)
    | ReceiveFails(i: nat)
    | ReceiveCancelled(i: nat)
    | Executed(i: nat, swallowed: bool)
    | ExecutionFails(i: nat)
    | ExecutionCancelled(i: nat)
    | DriverCancels(i: nat)
    | Wake(done: set<nat>)
    | Drained
    | DrainLimit
    | Gathered
    | RunCancelled
    | AllEnded

  function Initial(concurrency: nat): State {
    State(seq(concurrency, _ => Lane(Starting, false, false)), {}, false, false, Waiting, 0, {}, false, false)
  }

  ghost predicate AllLanesEnded(s: State) {
    forall i :: 0 <= i < |s.lanes| ==> s.lanes[i].doing.Ended?
  }

  predicate Is(s: State, i: nat, doing: Doing) {
    i < |s.lanes| && s.lanes[i].doing == doing
  }

  predicate IsEnded(s: State, i: nat) {
    i < |s.lanes| && s.lanes[i].doing.Ended?
  }

  predicate IsExecuting(s: State, i: nat) {
    i < |s.lanes| && s.lanes[i].doing.Executing?
  }

  ghost predicate Enabled(s: State, a: Action) {
    match a
    case SetStop => true
    case StartLane(i) => Is(s, i, Starting)
    case Deliver(i) => Is(s, i, Receiving) && !s.lanes[i].cancel
    case ReceiveFails(i) => Is(s, i, Receiving)
    case ReceiveCancelled(i) => Is(s, i, Receiving) && s.lanes[i].cancel
    case Executed(i, swallowed) => IsExecuting(s, i) && (swallowed ==> s.lanes[i].cancel)
    case ExecutionFails(i) => IsExecuting(s, i)
    case ExecutionCancelled(i) => IsExecuting(s, i) && s.lanes[i].cancel
    case DriverCancels(i) => Is(s, i, Receiving) || IsExecuting(s, i)
    case Wake(done) => s.phase == Waiting && (s.stop || done != {}) && forall i :: i in done ==> IsEnded(s, i)
    case Drained => s.phase == Draining && AllLanesEnded(s)
    case DrainLimit => s.phase == Draining
    case Gathered => s.phase == Gathering && AllLanesEnded(s)
    case RunCancelled => !s.phase.Left?
    case AllEnded => s.phase == Finally && AllLanesEnded(s)
  }

  function Put(s: State, i: nat, lane: Lane): State
    requires i < |s.lanes|
  {
    s.(lanes := s.lanes[i := lane])
  }

  /** Back at the head of the lane's loop. */
  function NextRound(s: State, i: nat, lane: Lane): State
    requires i < |s.lanes|
  {
    Put(s, i, lane.(doing := if s.stop then Ended(Normal) else Receiving)).(
        receivers := Rejoined(s.receivers, i, s.stop))
  }

  /** `execute` is over for the delivery of the lane. */
  function Finished(s: State, i: nat): State
    requires IsExecuting(s, i)
  {
    s.(unfinished := s.unfinished - {s.lanes[i].doing.delivery})
  }

  /** Into the `finally` block, or cancelled inside it: every lane that is left is cancelled. */
  function EnterFinally(s: State, aborted: bool): State {
    s.(closing := true, phase := Finally, aborted := s.aborted || aborted, lanes := CancelAll(s.lanes))
  }

  ghost predicate Raises(s: State, done: set<nat>) {
    exists i :: i in done && IsEnded(s, i) && s.lanes[i].doing.how != Normal
  }

  function Results(lanes: seq<Lane>): seq<Ending> {
    seq(|lanes|, i requires 0 <= i < |lanes| => if lanes[i].doing.Ended? then lanes[i].doing.how else Normal)
  }

  /** What a lane does on its own. */
  function LaneStep(s: State, a: Action): State {
    match a
    case StartLane(i) =>
      // A task cancelled before its first step never enters the lane's code.
      if !Is(s, i, Starting) then s
      else if s.lanes[i].cancel then Put(s, i, s.lanes[i].(doing := Ended(CancelledEnd)))
      else NextRound(s, i, s.lanes[i])
    case Deliver(i) =>
      if !Is(s, i, Receiving) then s
      else Put(s, i, s.lanes[i].(doing := Executing(s.deliveries))).(
        receivers := s.receivers - {i}, deliveries := s.deliveries + 1, unfinished := s.unfinished + {s.deliveries})
    case ReceiveFails(i) =>
      if !Is(s, i, Receiving) then s
      else Put(s, i, s.lanes[i].(doing := Ended(Failed))).(receivers := s.receivers - {i})
    case ReceiveCancelled(i) =>
      if !Is(s, i, Receiving) then s
      else Put(s, i, s.lanes[i].(doing := Ended(CancelledEnding(s.closing)))).(receivers := s.receivers - {i})
    case Executed(i, swallowed) =>
      if !IsExecuting(s, i) then s else NextRound(Finished(s, i), i,
          s.lanes[i].(cancel := s.lanes[i].cancel && !swallowed))
    case ExecutionFails(i) => if !IsExecuting(s, i) then s
        else Put(Finished(s, i), i, s.lanes[i].(doing := Ended(Failed)))
    case ExecutionCancelled(i) =>
      if !IsExecuting(s, i) then s else Put(Finished(s, i), i, s.lanes[i].(doing := Ended(CancelledEnding(s.closing))))
    case DriverCancels(i) => if i < |s.lanes| then Put(s, i, s.lanes[i].(cancel := true)) else s
    case _ => s
  }

  predicate OfALane(a: Action) {
    a.StartLane? || a.Deliver? || a.ReceiveFails? || a.ReceiveCancelled? || a.Executed? || a.ExecutionFails?
    || a.ExecutionCancelled? || a.DriverCancels?
  }

  ghost function Apply(s: State, a: Action): State {
    match a
    case SetStop => s.(stop := true)
    case Wake(done) =>
      if Raises(s, done) then EnterFinally(s, true)
      else s.(closing := true, phase := Draining, lanes := CancelLanes(s.lanes, s.receivers))
    case Drained => s.(phase := Gathering)
    case DrainLimit => s.(phase := Gathering, timedOut := true, lanes := CancelAll(s.lanes))
    case Gathered => EnterFinally(s, false)
    case RunCancelled => EnterFinally(s, true)
    case AllEnded => s.(phase := Left(s.aborted || Errors(Results(s.lanes)) != []))
    case _ => LaneStep(s, a)
  }

  ghost function Play(s: State, actions: seq<Action>): Option<State>
    decreases |actions|
  {
    if actions == [] then Some(s)
    else
      var t := Play(s, actions[..|actions| - 1]);
      var a := actions[|actions| - 1];
      if t.Some? && Enabled(t.value, a) then Some(Apply(t.value, a)) else None
  }

  ghost predicate Reachable(s: State, concurrency: nat) {
    exists actions :: Play(Initial(concurrency), actions) == Some(s)
  }

  // ---- What every step keeps -------------------------------------------------------------------

  ghost predicate ReceiversAreTheReceiving(s: State) {
    forall i: nat :: i in s.receivers <==> Is(s, i, Receiving)
  }

  ghost predicate DeliveriesAreDistinct(s: State) {
    && (forall i: nat :: IsExecuting(s, i) ==> s.lanes[i].doing.delivery < s.deliveries)
    && (forall i: nat, j: nat :: IsExecuting(s, i) && IsExecuting(s, j) && i != j ==>
          s.lanes[i].doing.delivery != s.lanes[j].doing.delivery)
  }

  /** Some lane is executing the delivery. */
  ghost predicate Held(s: State, d: nat) {
    exists i: nat :: Is(s, i, Executing(d))
  }

  ghost predicate UnfinishedAreHeld(s: State) {
    forall d: nat :: d in s.unfinished <==> Held(s, d)
  }

  ghost predicate HitOnlyWithCause(s: State) {
    forall i: nat :: i < |s.lanes| && s.lanes[i].hit ==> s.timedOut || s.aborted
  }

  ghost predicate NormalEndMeansStop(s: State) {
    forall i: nat :: Is(s, i, Ended(Normal)) ==> s.stop
  }

  /** No lane can take another delivery. */
  ghost predicate Sealed(s: State) {
    && s.stop
    && forall i: nat :: Is(s, i, Receiving) ==> s.lanes[i].cancel
  }

  ghost predicate Phases(s: State) {
    && (s.phase == Waiting ==> !s.closing && !s.timedOut && !s.aborted)
    && (s.phase == Draining ==> !s.timedOut && !s.aborted)
    && (s.phase == Gathering ==> !s.aborted && (s.timedOut || AllLanesEnded(s)))
    && (s.phase == Finally ==> s.aborted || AllLanesEnded(s))
    && (s.phase.Left? ==> AllLanesEnded(s))
    && (s.phase != Waiting ==> s.closing)
    && (s.phase != Waiting && !s.aborted ==> Sealed(s))
  }

  ghost predicate Inv(s: State) {
    && ReceiversAreTheReceiving(s) && DeliveriesAreDistinct(s) && UnfinishedAreHeld(s)
    && HitOnlyWithCause(s) && NormalEndMeansStop(s) && Phases(s)
  }

  lemma StepKeepsReceivers(s: State, a: Action)
    requires Enabled(s, a) && ReceiversAreTheReceiving(s)
    ensures ReceiversAreTheReceiving(Apply(s, a)) && |Apply(s, a).lanes| == |s.lanes|
  {
    var t := Apply(s, a);
    if OfALane(a) {
      forall k: nat
        ensures k in t.receivers <==> Is(t, k, Receiving)
      {
        assert k in s.receivers <==> Is(s, k, Receiving);
        assert k != a.i ==> (Is(s, k, Receiving) <==> Is(t, k, Receiving));
      }
    } else {
      assert forall k: nat :: Is(s, k, Receiving) <==> Is(t, k, Receiving);
    }
  }

  predicate SameExecution(s: State, t: State, i: nat) {
    IsExecuting(t, i) ==> IsExecuting(s, i) && s.lanes[i].doing.delivery == t.lanes[i].doing.delivery
  }

  lemma RunnerStepsStartNothing(s: State, a: Action, k: nat)
    requires Enabled(s, a) && !OfALane(a)
    ensures s.deliveries == Apply(s, a).deliveries && SameExecution(s, Apply(s, a), k)
  {
    hide Errors, Results, Raises, AllLanesEnded;
  }

  lemma LaneStepsStartOne(s: State, a: Action)
    requires OfALane(a) && Enabled(s, a)
    ensures s.deliveries + (if a.Deliver? then 1 else 0) == LaneStep(s, a).deliveries
    ensures a.Deliver? ==> Is(LaneStep(s, a), a.i, Executing(s.deliveries))
  {
    hide CancelledEnding, AllLanesEnded, Apply, Raises;
  }

  /** A lane's step leaves the other lanes alone. */
  lemma OtherLanesStay(s: State, a: Action, k: nat)
    requires OfALane(a) && k != a.i && k < |s.lanes|
    ensures k < |LaneStep(s, a).lanes| && LaneStep(s, a).lanes[k] == s.lanes[k]
  {
    hide CancelledEnding, Rejoined;
  }

  lemma LanesStayMany(s: State, a: Action)
    ensures |LaneStep(s, a).lanes| == |s.lanes|
  {
    hide CancelledEnding, Rejoined;
  }

  lemma OwnExecutionStays(s: State, a: Action)
    requires OfALane(a) && !a.Deliver?
    ensures SameExecution(s, LaneStep(s, a), a.i)
  {
    hide CancelledEnding, Rejoined;
  }

  lemma OtherExecutionsStay(s: State, a: Action, k: nat)
    requires OfALane(a) && (!a.Deliver? || k != a.i)
    ensures SameExecution(s, LaneStep(s, a), k)
  {
    LanesStayMany(s, a);
    if k == a.i {
      OwnExecutionStays(s, a);
    } else if k < |s.lanes| {
      OtherLanesStay(s, a, k);
    }
    hide LaneStep;
  }

  lemma LaneActionsAreLaneSteps(s: State, a: Action)
    requires OfALane(a)
    ensures Apply(s, a) == LaneStep(s, a)
  {
    hide LaneStep;
  }

  lemma StepKeepsExecution(s: State, a: Action, k: nat)
    requires Enabled(s, a)
    ensures s.deliveries <= Apply(s, a).deliveries
    ensures (a.Deliver? ==> k != a.i) ==> SameExecution(s, Apply(s, a), k)
    ensures a.Deliver? && k == a.i ==>
            Is(Apply(s, a), k, Executing(s.deliveries)) && s.deliveries < Apply(s, a).deliveries
  {
    hide Apply, Enabled, LaneStep;
    if OfALane(a) {
      LaneActionsAreLaneSteps(s, a);
      LaneStepsStartOne(s, a);
      if !a.Deliver? || k != a.i {
        OtherExecutionsStay(s, a, k);
      }
    } else {
      RunnerStepsStartNothing(s, a, k);
    }
  }

  lemma StepKeepsDeliveries(s: State, a: Action)
    requires Enabled(s, a) && DeliveriesAreDistinct(s)
    ensures DeliveriesAreDistinct(Apply(s, a))
  {
    hide Apply, Enabled;
    var t := Apply(s, a);
    forall i: nat | IsExecuting(t, i)
      ensures t.lanes[i].doing.delivery < t.deliveries
    {
      StepKeepsExecution(s, a, i);
    }
    forall i: nat, j: nat | IsExecuting(t, i) && IsExecuting(t, j) && i != j
      ensures t.lanes[i].doing.delivery != t.lanes[j].doing.delivery
    {
      StepKeepsExecution(s, a, i);
      StepKeepsExecution(s, a, j);
    }
  }

  predicate Finishes(a: Action) {
    a.Executed? || a.ExecutionFails? || a.ExecutionCancelled?
  }

  lemma StepAtUnfinished(s: State, a: Action)
    requires Enabled(s, a)
    ensures Apply(s, a).unfinished ==
      if a.Deliver? then s.unfinished + {s.deliveries}
      else if Finishes(a) then s.unfinished - {s.lanes[a.i].doing.delivery}
      else s.unfinished
    ensures Finishes(a) ==> IsExecuting(s, a.i) && !IsExecuting(Apply(s, a), a.i)
  {
    hide CancelAll, CancelLanes, Errors, Results, Raises, AllLanesEnded;
  }

  lemma ExecutionGoesOn(s: State, a: Action, k: nat)
    requires Enabled(s, a) && IsExecuting(s, k) && !(Finishes(a) && a.i == k)
    ensures Is(Apply(s, a), k, s.lanes[k].doing)
  {
    hide Errors, Results, Raises, AllLanesEnded;
  }

  lemma UnfinishedIsHeld(s: State, a: Action, d: nat)
    requires Enabled(s, a) && DeliveriesAreDistinct(s) && UnfinishedAreHeld(s) && d in Apply(s, a).unfinished
    ensures Held(Apply(s, a), d)
  {
    StepAtUnfinished(s, a);
    if a.Deliver? && d == s.deliveries {
      StepKeepsExecution(s, a, a.i);
    } else {
      assert Held(s, d);
      var i: nat :| Is(s, i, Executing(d));
      ExecutionGoesOn(s, a, i);
    }
    hide Apply, Enabled;
  }

  lemma HeldIsUnfinished(s: State, a: Action, d: nat)
    requires Enabled(s, a) && DeliveriesAreDistinct(s) && UnfinishedAreHeld(s) && Held(Apply(s, a), d)
    ensures d in Apply(s, a).unfinished
  {
    hide Apply, Enabled;
    var i: nat :| Is(Apply(s, a), i, Executing(d));
    StepAtUnfinished(s, a);
    StepKeepsExecution(s, a, i);
    if !a.Deliver? || i != a.i {
      assert SameExecution(s, Apply(s, a), i) && Is(s, i, Executing(d));
      assert Held(s, d);
    }
  }

  lemma StepKeepsUnfinished(s: State, a: Action)
    requires Enabled(s, a) && DeliveriesAreDistinct(s) && UnfinishedAreHeld(s)
    ensures UnfinishedAreHeld(Apply(s, a))
  {
    hide Apply, Enabled, Held, DeliveriesAreDistinct;
    forall d: nat
      ensures d in Apply(s, a).unfinished <==> Held(Apply(s, a), d)
    {
      if d in Apply(s, a).unfinished {
        UnfinishedIsHeld(s, a, d);
      }
      if Held(Apply(s, a), d) {
        HeldIsUnfinished(s, a, d);
      }
    }
  }

  lemma StepKeepsHits(s: State, a: Action)
    requires Enabled(s, a) && HitOnlyWithCause(s) && ReceiversAreTheReceiving(s) && Phases(s)
    ensures HitOnlyWithCause(Apply(s, a))
  {
    var t := Apply(s, a);
    if OfALane(a) {
      assert forall k: nat :: k < |t.lanes| ==> t.lanes[k].hit == s.lanes[k].hit;
    } else if a.Wake? && !Raises(s, a.done) {
      forall k: nat | k < |t.lanes|
        ensures t.lanes[k].hit == s.lanes[k].hit
      {
        assert k in s.receivers <==> Is(s, k, Receiving);
      }
    }
  }

  lemma StepKeepsNormalEnds(s: State, a: Action)
    requires Enabled(s, a) && NormalEndMeansStop(s)
    ensures NormalEndMeansStop(Apply(s, a))
  {
    var t := Apply(s, a);
    if OfALane(a) {
      assert forall k: nat :: k != a.i && Is(t, k, Ended(Normal)) ==> Is(s, k, Ended(Normal));
    } else {
      assert forall k: nat :: Is(t, k, Ended(Normal)) ==> Is(s, k, Ended(Normal));
    }
  }

  /** Once sealed, always sealed, and not one delivery more is received, whatever happens. */
  lemma StepKeepsSealed(s: State, a: Action)
    requires Enabled(s, a) && Sealed(s)
    ensures Sealed(Apply(s, a)) && Apply(s, a).deliveries == s.deliveries
  {
    var t := Apply(s, a);
    if OfALane(a) {
      assert forall k: nat :: k != a.i && Is(t, k, Receiving) ==> Is(s, k, Receiving) && t.lanes[k] == s.lanes[k];
    } else {
      assert forall k: nat :: Is(t, k, Receiving) ==> Is(s, k, Receiving) && (s.lanes[k].cancel ==> t.lanes[k].cancel);
    }
  }

  lemma EndedStaysEnded(s: State, a: Action)
    requires Enabled(s, a) && AllLanesEnded(s)
    ensures AllLanesEnded(Apply(s, a))
  {
  }

  lemma WakeWithoutFailureSeals(s: State, done: set<nat>)
    requires Enabled(s, Wake(done)) && ReceiversAreTheReceiving(s) && NormalEndMeansStop(s) && !Raises(s, done)
    ensures Sealed(Apply(s, Wake(done)))
  {
    var t := Apply(s, Wake(done));
    if !s.stop {
      var i :| i in done;
      assert IsEnded(s, i) && s.lanes[i].doing.how == Normal;
      assert Is(s, i, Ended(Normal));
    }
    forall k: nat | Is(t, k, Receiving)
      ensures t.lanes[k].cancel
    {
      assert Is(s, k, Receiving) && k in s.receivers;
    }
  }

  lemma StepKeepsPhases(s: State, a: Action)
    requires Enabled(s, a) && Phases(s) && ReceiversAreTheReceiving(s) && NormalEndMeansStop(s)
    ensures Phases(Apply(s, a))
  {
    var t := Apply(s, a);
    if Sealed(s) {
      StepKeepsSealed(s, a);
    }
    if AllLanesEnded(s) {
      EndedStaysEnded(s, a);
    }
    if a.Wake? {
      if !Raises(s, a.done) {
        WakeWithoutFailureSeals(s, a.done);
      }
    } else if OfALane(a) {
      LaneActionsAreLaneSteps(s, a);
      LaneStepKeepsTheRest(s, a);
    }
  }

  lemma LaneStepKeepsTheRest(s: State, a: Action)
    ensures var t := LaneStep(s, a);
      t.phase == s.phase && t.closing == s.closing && t.timedOut == s.timedOut && t.aborted == s.aborted
          && t.stop == s.stop
  {
    hide CancelledEnding, Rejoined, IsExecuting, Is;
  }

  lemma StepKeepsInv(s: State, a: Action)
    requires Enabled(s, a) && Inv(s)
    ensures Inv(Apply(s, a)) && |Apply(s, a).lanes| == |s.lanes|
  {
    hide Apply, Enabled;
    hide ReceiversAreTheReceiving, DeliveriesAreDistinct, UnfinishedAreHeld, HitOnlyWithCause, NormalEndMeansStop,
        Phases;
    StepKeepsReceivers(s, a);
    StepKeepsDeliveries(s, a);
    StepKeepsUnfinished(s, a);
    StepKeepsHits(s, a);
    StepKeepsNormalEnds(s, a);
    StepKeepsPhases(s, a);
  }

  lemma {:induction false} RunsKeepInv(s: State, actions: seq<Action>)
    requires Inv(s) && Play(s, actions).Some?
    ensures Inv(Play(s, actions).value) && |Play(s, actions).value.lanes| == |s.lanes|
    decreases |actions|
  {
    hide Inv, Apply, Enabled;
    if actions == [] {
    } else {
      RunsKeepInv(s, actions[..|actions| - 1]);
      StepKeepsInv(Play(s, actions[..|actions| - 1]).value, actions[|actions| - 1]);
    }
  }

  lemma ReachableKeepsInv(s: State, concurrency: nat)
    requires Reachable(s, concurrency)
    ensures Inv(s) && |s.lanes| == concurrency
  {
    var actions :| Play(Initial(concurrency), actions) == Some(s);
    assert Inv(Initial(concurrency));
    RunsKeepInv(Initial(concurrency), actions);
  }

  // ---- Main results ----------------------------------------------------------------------------

  /** The deliveries being executed by the first `n` lanes. */
  function InFlight(s: State, n: nat): set<nat>
    requires n <= |s.lanes|
  {
    if n == 0 then {}
    else InFlight(s, n - 1) + if s.lanes[n - 1].doing.Executing? then {s.lanes[n - 1].doing.delivery} else {}
  }

  lemma {:induction false} InFlightIsBounded(s: State, n: nat)
    requires n <= |s.lanes|
    ensures |InFlight(s, n)| <= n
  {
    if n == 0 {
    } else {
      InFlightIsBounded(s, n - 1);
    }
  }

  lemma {:induction false} InFlightIsInALane(s: State, n: nat, d: nat)
    requires n <= |s.lanes| && d in InFlight(s, n)
    ensures Held(s, d)
  {
    if d in InFlight(s, n - 1) {
      InFlightIsInALane(s, n - 1, d);
    } else {
      assert Is(s, n - 1, Executing(d));
    }
  }

  lemma {:induction false} ExecutingIsInFlight(s: State, n: nat, i: nat)
    requires i < n <= |s.lanes| && IsExecuting(s, i)
    ensures s.lanes[i].doing.delivery in InFlight(s, n)
  {
    if i < n - 1 {
      ExecutingIsInFlight(s, n - 1, i);
    }
  }

  lemma UnfinishedIsInFlight(s: State)
    requires UnfinishedAreHeld(s)
    ensures s.unfinished == InFlight(s, |s.lanes|)
  {
    forall d
      ensures d in s.unfinished <==> d in InFlight(s, |s.lanes|)
    {
      if d in s.unfinished {
        assert Held(s, d);
        var i: nat :| Is(s, i, Executing(d));
        ExecutingIsInFlight(s, |s.lanes|, i);
      }
      if d in InFlight(s, |s.lanes|) {
        InFlightIsInALane(s, |s.lanes|, d);
      }
    }
  }

  /** Whatever has been received and is not done with is being executed, each delivery in exactly one lane; so there
      are never more of them than lanes. */
  lemma ConcurrencyIsRespected(s: State, concurrency: nat, i: nat)
    requires Reachable(s, concurrency)
    ensures |s.lanes| == concurrency && |s.unfinished| <= concurrency
    ensures forall d: nat :: d in s.unfinished <==> Held(s, d)
    ensures forall j: nat :: IsExecuting(s, i) && Is(s, j, s.lanes[i].doing) ==> j == i
  {
    ReachableKeepsInv(s, concurrency);
    UnfinishedIsInFlight(s);
    InFlightIsBounded(s, concurrency);
    if IsExecuting(s, i) {
      assert forall j: nat :: Is(s, j, s.lanes[i].doing) ==> IsExecuting(s, j);
    }
  }

  /** A lane that is cancelled reports a lost delivery, which makes `run` raise, exactly if the runner is still waiting
      for the stop signal or a finished lane, so has not asked for it; otherwise its end is no error. */
  lemma CancellationIsAnErrorOnlyWhileWaiting(s: State, concurrency: nat, a: Action)
    requires Reachable(s, concurrency) && Enabled(s, a) && (a.ReceiveCancelled? || a.ExecutionCancelled?)
    ensures var lane := Apply(s, a).lanes[a.i];
      lane.doing == Ended(if s.phase == Waiting then Lost else CancelledEnd)
    ensures Lost in Results(Apply(s, a).lanes) <==> s.phase == Waiting || Lost in Results(s.lanes)
  {
    ReachableKeepsInv(s, concurrency);
    var before, after := Results(s.lanes), Results(Apply(s, a).lanes);
    assert |after| == |before| && forall k :: 0 <= k < |after| && k != a.i ==> after[k] == before[k];
    assert before[a.i] == Normal && after[a.i] == if s.phase == Waiting then Lost else CancelledEnd;
  }

  /** The runner requests the cancellation of a begun execution only after the drain limit, unless the first wait
      ended with a failed lane or `run` itself was cancelled; a lane failing during the drain does not count. */
  lemma ExecutionsDrainUndisturbed(s: State, concurrency: nat, i: nat)
    requires Reachable(s, concurrency) && i < |s.lanes| && s.lanes[i].hit
    ensures s.timedOut || s.aborted
  {
    ReachableKeepsInv(s, concurrency);
  }

  /** Whatever the way out, also when `run` is cancelled while it waits for its lanes, no lane is left running. */
  lemma LeavesNoLaneBehind(s: State, concurrency: nat, i: nat)
    requires Reachable(s, concurrency) && s.phase.Left? && i < concurrency
    ensures IsEnded(s, i)
  {
    ReachableKeepsInv(s, concurrency);
  }

  /** After draining has begun, no later run receives one more delivery. */
  lemma {:induction false} NoNewWorkWhileDraining(s: State, concurrency: nat, actions: seq<Action>)
    requires Reachable(s, concurrency) && (s.phase == Draining || s.phase == Gathering)
    requires Play(s, actions).Some?
    ensures Play(s, actions).value.deliveries == s.deliveries
  {
    ReachableKeepsInv(s, concurrency);
    SealedRunsReceiveNothing(s, actions);
  }

  lemma {:induction false} SealedRunsReceiveNothing(s: State, actions: seq<Action>)
    requires Sealed(s) && Play(s, actions).Some?
    ensures Sealed(Play(s, actions).value) && Play(s, actions).value.deliveries == s.deliveries
    decreases |actions|
  {
    hide Sealed, Apply, Enabled;
    if actions == [] {
    } else {
      SealedRunsReceiveNothing(s, actions[..|actions| - 1]);
      StepKeepsSealed(Play(s, actions[..|actions| - 1]).value, actions[|actions| - 1]);
    }
  }

  /** `run` returns normally only after a stop signal, without having been cancelled, and with every lane ended
      normally or cancelled. */
  lemma NormalReturn(s: State, concurrency: nat, i: nat)
    requires Reachable(s, concurrency) && s.phase == Left(false) && i < concurrency
    ensures s.stop && !s.aborted
    ensures Is(s, i, Ended(Normal)) || Is(s, i, Ended(CancelledEnd))
  {
    ReachableKeepsInv(s, concurrency);
    var actions :| Play(Initial(concurrency), actions) == Some(s);
    LeftReportsItsLanes(concurrency, actions);
    RaisesIffALaneFailed(Results(s.lanes));
    assert Results(s.lanes)[i] == s.lanes[i].doing.how;
    assert Results(s.lanes)[i] in Results(s.lanes);
  }

  ghost predicate ReportsItsLanes(s: State) {
    s.phase.Left? ==> s.phase.raised == (s.aborted || Errors(Results(s.lanes)) != [])
  }

  lemma StepKeepsReport(s: State, a: Action)
    requires Enabled(s, a) && Phases(s) && ReportsItsLanes(s)
    ensures ReportsItsLanes(Apply(s, a))
  {
    hide Errors, Results;
    if s.phase.Left? {
      LeftIsFinal(s, a);
    }
  }

  lemma {:induction false} LeftReportsItsLanes(concurrency: nat, actions: seq<Action>)
    requires Play(Initial(concurrency), actions).Some?
    ensures ReportsItsLanes(Play(Initial(concurrency), actions).value)
    decreases |actions|
  {
    hide Apply, Enabled, Errors, Results;
    if actions == [] {
    } else {
      LeftReportsItsLanes(concurrency, actions[..|actions| - 1]);
      ReachableKeepsInv(Play(Initial(concurrency), actions[..|actions| - 1]).value, concurrency);
      StepKeepsReport(Play(Initial(concurrency), actions[..|actions| - 1]).value, actions[|actions| - 1]);
    }
  }

  /** After `run` has left, only the stop signal can still change. */
  lemma LeftIsFinal(s: State, a: Action)
    requires Enabled(s, a) && Phases(s) && s.phase.Left?
    ensures Apply(s, a) == s.(stop := s.stop || a == SetStop)
  {
    assert a.Wake? || a.Drained? || a.DrainLimit? || a.Gathered? || a.RunCancelled? || a.AllEnded? || a.SetStop?
        || OfALane(a);
  }

  /** Which event ends a lane how: only failing ends it as failed, only coming to the head of its loop after a stop ends
      it normally, and a cancellation before its first step ends it as cancelled, without its code having run. */
  lemma HowALaneEnds(s: State, a: Action)
    requires Enabled(s, a) && OfALane(a) && !a.DriverCancels?
    ensures var lane := Apply(s, a).lanes[a.i];
      && (lane.doing == Ended(Failed) <==> a.ReceiveFails? || a.ExecutionFails?)
      && (lane.doing == Ended(Normal) <==> s.stop && (a.Executed? || (a.StartLane? && !s.lanes[a.i].cancel)))
      && (a.StartLane? && s.lanes[a.i].cancel ==> lane.doing == Ended(CancelledEnd))
      && (lane.doing.Receiving? <==> !s.stop && (a.Executed? || (a.StartLane? && !s.lanes[a.i].cancel)))
      && (lane.doing.Executing? <==> a.Deliver?)
  {
    hide AllLanesEnded;
  }

  /** The first wait turns into the drain exactly if every lane that ended it did so normally; any other end of a lane
      at that moment cancels them all. */
  lemma WakeDrainsIff(s: State, done: set<nat>)
    requires Enabled(s, Wake(done))
    ensures Apply(s, Wake(done)).phase == Draining <==> forall i :: i in done ==> Is(s, i, Ended(Normal))
    ensures Apply(s, Wake(done)).phase == Draining ==>
      forall i: nat :: i < |s.lanes| ==>
        Apply(s, Wake(done)).lanes[i] == if i in s.receivers then Cancelled(s.lanes[i]) else s.lanes[i]
  {
    assert forall i :: i in done ==> IsEnded(s, i);
    hide AllLanesEnded, Cancelled;
  }

  /** When the drain limit is reached, and whenever the `finally` block is entered, no lane is left without a request to
      stop. */
  lemma EveryLaneIsToldToStop(s: State, a: Action, i: nat)
    requires Enabled(s, a) && (a.DrainLimit? || a.Gathered? || a.RunCancelled?) && i < |s.lanes|
    ensures i < |Apply(s, a).lanes| && Apply(s, a).lanes[i].doing == s.lanes[i].doing
    ensures s.lanes[i].doing.Ended? || Apply(s, a).lanes[i].cancel
    ensures a.DrainLimit? ==> Apply(s, a).phase == Gathering && Apply(s, a).timedOut
  {
    hide AllLanesEnded, Errors, Results;
  }

  /** A drain whose lanes have all ended brings `run` to its end in three steps; it then raises exactly if a lane failed
      or lost its delivery. */
  lemma DrainedRunEnds(s: State, concurrency: nat)
    requires Reachable(s, concurrency) && s.phase == Draining && AllLanesEnded(s)
    ensures var run := Play(s, [Drained, Gathered, AllEnded]);
      run.Some? && run.value.phase.Left?
      && (run.value.phase.raised <==> exists i: nat :: Is(s, i, Ended(Failed)) || Is(s, i, Ended(Lost)))
  {
    ReachableKeepsInv(s, concurrency);
    assert !s.aborted;
    EndStepByStep(s);
    hide Play, Reachable, Inv;
    RaisesIffALaneFailed(Results(s.lanes));
    FailuresAmongResults(s);
  }

  lemma FailuresAmongResults(s: State)
    requires AllLanesEnded(s)
    ensures Failed in Results(s.lanes) || Lost in Results(s.lanes) <==>
      exists i: nat :: Is(s, i, Ended(Failed)) || Is(s, i, Ended(Lost))
  {
    assert forall i :: 0 <= i < |s.lanes| ==> Results(s.lanes)[i] == s.lanes[i].doing.how;
    if i: nat :| Is(s, i, Ended(Failed)) || Is(s, i, Ended(Lost)) {
      assert Results(s.lanes)[i] in Results(s.lanes);
    }
    if Failed in Results(s.lanes) || Lost in Results(s.lanes) {
      var i :| 0 <= i < |s.lanes| && (Results(s.lanes)[i] == Failed || Results(s.lanes)[i] == Lost);
      assert Is(s, i, s.lanes[i].doing);
    }
  }

  lemma EndStepByStep(s: State)
    requires s.phase == Draining && AllLanesEnded(s) && !s.aborted
    ensures var run := Play(s, [Drained, Gathered, AllEnded]);
      run.Some? && run.value.phase == Left(Errors(Results(s.lanes)) != [])
  {
    hide Play;
    var later: seq<Action> := [];
    var t := NothingPlayed(s);
    later, t := Follow(s, later, t, Drained);
    later, t := Follow(s, later, t, Gathered);
    assert t.lanes == s.lanes;
    later, t := Follow(s, later, t, AllEnded);
    assert later == [Drained, Gathered, AllEnded];
  }

  /** The lane can get to receive without being told to stop: it is receiving, or can come round to it by itself or by
      swallowing its cancellation. */
  predicate MayReceive(lane: Lane, stop: bool) {
    || (lane.doing.Receiving? && !lane.cancel)
    || (!stop && (lane.doing.Executing? || (lane.doing.Starting? && !lane.cancel)))
  }

  predicate LaneMayReceive(s: State, i: nat) {
    i < |s.lanes| && MayReceive(s.lanes[i], s.stop)
  }

  ghost predicate ReceivesLater(s: State) {
    exists later :: Play(s, later).Some? && Play(s, later).value.deliveries > s.deliveries
  }

  lemma RunnerFreesNoLane(s: State, a: Action, k: nat)
    requires Enabled(s, a) && !OfALane(a) && !LaneMayReceive(s, k)
    ensures !LaneMayReceive(Apply(s, a), k)
  {
    hide Errors, Results, Raises, AllLanesEnded, CancelledEnding, LaneStep;
  }

  lemma OwnLaneIsNotFreed(s: State, a: Action)
    requires Enabled(s, a) && OfALane(a) && !LaneMayReceive(s, a.i)
    ensures !LaneMayReceive(LaneStep(s, a), a.i)
  {
    hide AllLanesEnded, Apply, CancelledEnding, Rejoined;
  }

  lemma StepFreesNoLane(s: State, a: Action, k: nat)
    requires Enabled(s, a) && !LaneMayReceive(s, k)
    ensures !LaneMayReceive(Apply(s, a), k)
  {
    if OfALane(a) {
      LaneActionsAreLaneSteps(s, a);
      LaneStepKeepsTheRest(s, a);
      LanesStayMany(s, a);
      if k == a.i {
        OwnLaneIsNotFreed(s, a);
      } else if k < |s.lanes| {
        OtherLanesStay(s, a, k);
      }
    } else {
      RunnerFreesNoLane(s, a, k);
    }
    hide Apply, Enabled, LaneStep;
  }

  lemma StepWithoutLanes(s: State, a: Action)
    requires Enabled(s, a) && forall i: nat :: !LaneMayReceive(s, i)
    ensures Apply(s, a).deliveries == s.deliveries
    ensures forall i: nat :: !LaneMayReceive(Apply(s, a), i)
  {
    forall i: nat
      ensures !LaneMayReceive(Apply(s, a), i)
    {
      StepFreesNoLane(s, a, i);
    }
    assert a.Deliver? ==> LaneMayReceive(s, a.i);
    hide LaneMayReceive, Errors, Results, Raises, AllLanesEnded;
  }

  lemma {:induction false} RunsWithoutLanes(s: State, later: seq<Action>)
    requires Play(s, later).Some? && forall i: nat :: !LaneMayReceive(s, i)
    ensures Play(s, later).value.deliveries == s.deliveries
    ensures forall i: nat :: !LaneMayReceive(Play(s, later).value, i)
    decreases |later|
  {
    hide Apply, Enabled, LaneMayReceive;
    if later == [] {
    } else {
      RunsWithoutLanes(s, later[..|later| - 1]);
      StepWithoutLanes(Play(s, later[..|later| - 1]).value, later[|later| - 1]);
    }
  }

  lemma LaneReceives(s: State, i: nat)
    requires LaneMayReceive(s, i)
    ensures ReceivesLater(s)
  {
    hide Play;
    var later: seq<Action> := [];
    var t := NothingPlayed(s);
    if s.lanes[i].doing.Executing? {
      later, t := Follow(s, later, t, Executed(i, s.lanes[i].cancel));
    } else if s.lanes[i].doing.Starting? {
      later, t := Follow(s, later, t, StartLane(i));
    }
    assert Is(t, i, Receiving) && !t.lanes[i].cancel && t.deliveries == s.deliveries;
    var longer, u := Follow(s, later, t, Deliver(i));
    assert Play(s, longer).value.deliveries > s.deliveries;
  }

  /** Exactly when more work can still be taken on, in any state: when some lane is receiving and not cancelled, or no
      stop signal has come and some lane is executing, cancelled or not, or about to start. */
  lemma ReceivesLaterIff(s: State)
    ensures ReceivesLater(s) <==> exists i: nat :: LaneMayReceive(s, i)
  {
    if i: nat :| LaneMayReceive(s, i) {
      LaneReceives(s, i);
    }
    if ReceivesLater(s) {
      var later :| Play(s, later).Some? && Play(s, later).value.deliveries > s.deliveries;
      if forall i: nat :: !LaneMayReceive(s, i) {
        RunsWithoutLanes(s, later);
      }
    }
  }

  /** On entering the `finally` block, or when cancelled inside it, every lane is cancelled; yet more work is taken on
      in some run exactly if no stop signal has come and a lane is still executing, since its handler may swallow the
      cancellation. */
  lemma FinallyReceivesIff(s: State, a: Action)
    requires Enabled(s, a) && Apply(s, a).phase == Finally && (a.Wake? || a.Gathered? || a.RunCancelled?)
    ensures ReceivesLater(Apply(s, a)) <==> !s.stop && exists i: nat :: IsExecuting(Apply(s, a), i)
  {
    var t := Apply(s, a);
    assert t.stop == s.stop && forall i: nat :: i < |t.lanes| ==> t.lanes[i].doing.Ended? || t.lanes[i].cancel;
    forall i: nat
      ensures LaneMayReceive(t, i) <==> !s.stop && IsExecuting(t, i)
    {
    }
    hide Apply, Enabled;
    ReceivesLaterIff(t);
  }

  /** Two lanes, before any stop signal. */
  ghost predicate Looks(s: State, lane0: Lane, lane1: Lane, phase: Phase, deliveries: nat) {
    !s.stop && s.lanes == [lane0, lane1] && s.phase == phase && s.deliveries == deliveries
  }

  /** Without a stop signal the end of the run does not seal the lanes: after one lane failed, a handler of another
      lane that swallows its cancellation goes back to receiving, and its next delivery is executed as usual. */
  lemma SwallowedCancellationReceivesAgain()
    ensures exists actions ::
      && Play(Initial(2), actions).Some?
      && Looks(Play(Initial(2), actions).value, Lane(Ended(Failed), false, false), Lane(Executing(2), false, true),
          Finally, 3)
  {
    hide Play;
    var starting, receiving := Lane(Starting, false, false), Lane(Receiving, false, false);
    var first, second := Lane(Executing(0), false, false), Lane(Executing(1), false, false);
    var failed := Lane(Ended(Failed), false, false);
    var s0 := NothingPlayed(Initial(2));
    assert Looks(s0, starting, starting, Waiting, 0);
    var a1, s1 := Follow(Initial(2), [], s0, StartLane(0));
    assert Looks(s1, receiving, starting, Waiting, 0);
    var a2, s2 := Follow(Initial(2), a1, s1, StartLane(1));
    assert Looks(s2, receiving, receiving, Waiting, 0);
    var a3, s3 := Follow(Initial(2), a2, s2, Deliver(0));
    assert Looks(s3, first, receiving, Waiting, 1);
    var a4, s4 := Follow(Initial(2), a3, s3, Deliver(1));
    assert Looks(s4, first, second, Waiting, 2);
    var a5, s5 := Follow(Initial(2), a4, s4, ExecutionFails(0));
    assert Looks(s5, failed, second, Waiting, 2);
    var a6, s6 := FailureEndsTheWait(Initial(2), a5, s5, failed, second);
    var a7, s7 := Follow(Initial(2), a6, s6, Executed(1, true));
    assert Looks(s7, failed, Lane(Receiving, false, true), Finally, 2);
    var a8, s8 := Follow(Initial(2), a7, s7, Deliver(1));
    assert Looks(s8, failed, Lane(Executing(2), false, true), Finally, 3);
  }

  lemma FailureEndsTheWait(s: State, actions: seq<Action>, t: State, failed: Lane, busy: Lane)
    returns (longer: seq<Action>, u: State)
    requires Play(s, actions) == Some(t) && Looks(t, failed, busy, Waiting, 2)
    requires failed.doing == Ended(Failed) && busy.doing.Executing?
    ensures Play(s, longer) == Some(u) && Looks(u, failed, Cancelled(busy), Finally, 2)
  {
    hide Play;
    var done: set<nat> := {0};
    assert IsEnded(t, 0) && 0 in done;
    longer, u := Follow(s, actions, t, Wake(done));
  }

  lemma NothingPlayed(s: State) returns (t: State)
    ensures t == s && Play(s, []) == Some(s)
  {
    t := s;
  }

  lemma Follow(s: State, actions: seq<Action>, t: State, a: Action) returns (longer: seq<Action>, u: State)
    requires Play(s, actions) == Some(t) && Enabled(t, a)
    ensures longer == actions + [a] && u == Apply(t, a) && Play(s, longer) == Some(u)
  {
    longer, u := actions + [a], Apply(t, a);
    assert longer[..|actions|] == actions;
  }
}
