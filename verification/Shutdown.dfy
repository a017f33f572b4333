/**
 Closing groups of things: `close_lazy_resources`, `QueueManager.aclose` and the application container.
 What each closer or callback does is decided by the environment: `Some(e)` means it raises `e`.
 */
module Shutdown {
  import opened Common

  type Error = nat
  type Outcomes = nat -> Option<Error>

  /** `errors` lists exactly the failures among the attempts 0..n, made from the last to the first. */
  ghost predicate ListsFailures(fails: nat -> Option<Error>, from: nat, n: nat, errors: seq<Error>, at: seq<nat>) {
    && |at| == |errors|
    && (forall k :: 0 <= k < |at| ==> from <= at[k] < n && fails(at[k]) == Some(errors[k]))
    && (forall k, l :: 0 <= k < l < |at| ==> at[k] > at[l])
    && (forall i: nat :: from <= i < n && fails(i).Some? ==> i in at)
  }

  lemma NextFailure(fails: nat -> Option<Error>, from: nat, n: nat, errors: seq<Error>, at: seq<nat>)
    requires 0 < from <= n && ListsFailures(fails, from, n, errors, at)
    ensures fails(from - 1).Some? ==>
            ListsFailures(fails, from - 1, n, errors + [fails(from - 1).value], at + [from - 1])
    ensures fails(from - 1).None? ==> ListsFailures(fails, from - 1, n, errors, at)
  {
  }

  lemma SameFirst(
    fails: nat -> Option<Error>, from: nat, n: nat, e1: seq<Error>, a1: seq<nat>, e2: seq<Error>, a2: seq<nat>)
    requires ListsFailures(fails, from, n, e1, a1) && ListsFailures(fails, from, n, e2, a2)
    ensures a1 == [] <==> a2 == []
    ensures a1 != [] ==> a1[0] == a2[0] && e1[0] == e2[0]
  {
    assert (a1 != [] ==> a1[0] in a2) && (a2 != [] ==> a2[0] in a1);
  }

  lemma SameList<T>(a: seq<T>, b: seq<T>)
    requires a != [] && b != [] && a[0] == b[0] && a[1..] == b[1..]
    ensures a == b
  {
    assert a == [a[0]] + a[1..] && b == [b[0]] + b[1..];
  }

  /** The failures are listed in one way only, so the list determines what failed. */
  lemma {:induction false} FailureListIsUnique(
    fails: nat -> Option<Error>, from: nat, n: nat, e1: seq<Error>, a1: seq<nat>, e2: seq<Error>, a2: seq<nat>)
    requires ListsFailures(fails, from, n, e1, a1) && ListsFailures(fails, from, n, e2, a2)
    ensures e1 == e2 && a1 == a2
    decreases |a1|
  {
    SameFirst(fails, from, n, e1, a1, e2, a2);
    if a1 == [] {
    } else {
      RestListsFailures(fails, from, n, e1, a1);
      RestListsFailures(fails, from, n, e2, a2);
      hide ListsFailures;
      FailureListIsUnique(fails, from, a1[0], e1[1..], a1[1..], e2[1..], a2[1..]);
      SameList(e1, e2);
      SameList(a1, a2);
    }
  }

  lemma RestListsFailures(fails: nat -> Option<Error>, from: nat, n: nat, errors: seq<Error>, at: seq<nat>)
    requires ListsFailures(fails, from, n, errors, at) && at != []
    ensures ListsFailures(fails, from, at[0], errors[1..], at[1..])
  {
    forall i: nat | from <= i < at[0] && fails(i).Some?
      ensures i in at[1..]
    {
      var k :| 0 <= k < |at| && at[k] == i;
      assert at[1..][k - 1] == i;
    }
  }

  // ---- Lazily created handles ------------------------------------------------------------------

  /** A lazily created resource as its owner sees it. */
  class Handle {
    var initialized: bool
    var sealed: bool

    constructor (initialized: bool)
      ensures this.initialized == initialized && !sealed
    {
      this.initialized, sealed := initialized, false;
    }

    method BeginClose()
      modifies this
      ensures sealed && initialized == old(initialized)
    {
      sealed := true;
    }

    /** `aclose`, the closer doing `outcome`; an unused or already closed handle does nothing. */
    method Close(outcome: Option<Error>) returns (error: Option<Error>)
      modifies this
      ensures sealed
      ensures error == if old(initialized) then outcome else None
      ensures initialized == (old(initialized) && outcome.Some?)
    {
      sealed := true;
      if !initialized {
        return None;
      }
      if outcome.Some? {
        return outcome;
      }
      initialized := false;
      error := None;
    }
  }

  datatype Event = Sealed(i: nat) | Attempted(i: nat) | Asked(i: nat)

  function Seals(n: nat): (r: seq<Event>)
    ensures |r| == n && forall k :: 0 <= k < n ==> r[k] == Sealed(k)
  {
    if n == 0 then [] else Seals(n - 1) + [Sealed(n - 1)]
  }

  /** Attempts on n-1, ..., from, in this order. */
  function Attempts(from: nat, n: nat): (r: seq<Event>)
    ensures |r| == (if from < n then n - from else 0) && forall k :: 0 <= k < |r| ==> r[k] == Attempted(n - 1 - k)
    decreases n - from
  {
    if from >= n then [] else Attempts(from + 1, n) + [Attempted(from)]
  }

  ghost function InUse(resources: seq<Handle>): set<Handle>
    reads resources
  {
    set h | h in resources && h.initialized
  }

  /** The handle was in use, and every attempt on it from position `from` on failed. */
  ghost predicate StaysInUse(resources: seq<Handle>, used: set<Handle>, outcomes: Outcomes, from: nat, h: Handle) {
    h in used && forall j :: from <= j < |resources| && resources[j] == h ==> outcomes(j).Some?
  }

  /** The failures of the attempts: an attempt fails when its handle is still in use after the attempts made
      before it, and its closer raises. */
  ghost function FailsAt(resources: seq<Handle>, used: set<Handle>, outcomes: Outcomes): nat -> Option<Error> {
    (i: nat) => if i < |resources| && StaysInUse(resources, used, outcomes, i + 1, resources[i]) then outcomes(i)
        else None
  }

  /** `close_lazy_resources`: every handle is sealed before the first attempt; every handle is attempted, in
      reverse; the errors are exactly the failures in that order; and exactly the handles that were in use and
      whose every attempt failed are still initialized. */
  method CloseLazyResources(resources: seq<Handle>, outcomes: Outcomes)
    returns (errors: seq<Error>, log: seq<Event>, ghost at: seq<nat>)
    modifies resources
    ensures log == Seals(|resources|) + Attempts(0, |resources|)
    ensures ListsFailures(FailsAt(resources, old(InUse(resources)), outcomes), 0, |resources|, errors, at)
    ensures forall h :: h in resources ==> h.sealed
    ensures forall h :: h in resources ==>
            (h.initialized <==> StaysInUse(resources, old(InUse(resources)), outcomes, 0, h))
  {
    log := SealAll(resources);
    errors, log, at := CloseSealed(resources, outcomes, old(InUse(resources)), log);
  }

  /** The first loop: the seals. */
  method SealAll(resources: seq<Handle>) returns (log: seq<Event>)
    modifies resources
    ensures log == Seals(|resources|)
    ensures forall h :: h in resources ==> h.sealed && h.initialized == old(h.initialized)
  {
    log := [];
    for i := 0 to |resources|
      invariant log == Seals(i)
      invariant forall j :: 0 <= j < i ==> resources[j].sealed
      invariant forall h :: h in resources ==> h.initialized == old(h.initialized)
    {
      resources[i].BeginClose();
      log := log + [Sealed(i)];
    }
  }

  /** The second loop: the releases. */
  method CloseSealed(resources: seq<Handle>, outcomes: Outcomes, ghost used: set<Handle>, seals: seq<Event>)
    returns (errors: seq<Error>, log: seq<Event>, ghost at: seq<nat>)
    requires forall h :: h in resources ==> h.sealed && (h.initialized <==> h in used)
    modifies resources
    ensures log == seals + Attempts(0, |resources|)
    ensures ListsFailures(FailsAt(resources, used, outcomes), 0, |resources|, errors, at)
    ensures forall h :: h in resources ==> h.sealed && (h.initialized <==> StaysInUse(resources, used, outcomes, 0, h))
  {
    log, errors, at := seals, [], [];
    for i := |resources| downto 0
      invariant log == seals + Attempts(i, |resources|)
      invariant forall h :: h in resources ==>
              h.sealed && (h.initialized <==> StaysInUse(resources, used, outcomes, i, h))
      invariant ListsFailures(FailsAt(resources, used, outcomes), i, |resources|, errors, at)
    {
      NextFailure(FailsAt(resources, used, outcomes), i + 1, |resources|, errors, at);
      OneMoreAttempt(resources, used, outcomes, i);
      var error := resources[i].Close(outcomes(i));
      log := log + [Attempted(i)];
      if error.Some? {
        errors, at := errors + [error.value], at + [i];
      }
    }
  }

  lemma OneMoreAttempt(resources: seq<Handle>, used: set<Handle>, outcomes: Outcomes, i: nat)
    requires i < |resources|
    ensures forall h :: StaysInUse(resources, used, outcomes, i, h) <==>
              StaysInUse(resources, used, outcomes, i + 1, h) && (h == resources[i] ==> outcomes(i).Some?)
  {
  }

  // ---- QueueManager.aclose ---------------------------------------------------------------------

  /** A consumer as the manager sees it: how often it was asked to close. */
  class ConsumerHandle {
    var asked: nat

    constructor ()
      ensures asked == 0
    {
      asked := 0;
    }

    method Close(outcome: Option<Error>) returns (error: Option<Error>)
      modifies this
      ensures asked == old(asked) + 1 && error == outcome
    {
      asked := asked + 1;
      error := outcome;
    }
  }

  /** Asks to close n-1, ..., from, in this order. */
  function Asks(from: nat, n: nat): (r: seq<Event>)
    ensures |r| == (if from < n then n - from else 0) && forall k :: 0 <= k < |r| ==> r[k] == Asked(n - 1 - k)
    decreases n - from
  {
    if from >= n then [] else Asks(from + 1, n) + [Asked(from)]
  }

  method AskAll(consumers: seq<ConsumerHandle>, outcomes: Outcomes)
    returns (errors: seq<Error>, log: seq<Event>, ghost at: seq<nat>)
    modifies consumers
    ensures log == Asks(0, |consumers|)
    ensures ListsFailures(outcomes, 0, |consumers|, errors, at)
    ensures forall c :: c in consumers ==> c.asked > old(c.asked)
  {
    errors, log, at := [], [], [];
    for i := |consumers| downto 0
      invariant log == Asks(i, |consumers|)
      invariant ListsFailures(outcomes, i, |consumers|, errors, at)
      invariant forall c :: c in consumers ==> c.asked >= old(c.asked)
      invariant forall j :: i <= j < |consumers| ==> consumers[j].asked > old(consumers[j].asked)
    {
      NextFailure(outcomes, i + 1, |consumers|, errors, at);
      var error := consumers[i].Close(outcomes(i));
      log := log + [Asked(i)];
      if error.Some? {
        errors, at := errors + [error.value], at + [i];
      }
    }
  }

  class QueueManager {
    var closed: bool
    var consumers: seq<ConsumerHandle>
    const resources: seq<Handle>

    constructor (resources: seq<Handle>)
      ensures this.resources == resources && !closed && consumers == []
    {
      this.resources, closed, consumers := resources, false, [];
    }

    /** Closes the manager and seals every backend, asks every registered consumer to close before any backend
        is closed, forgets the consumers, and reports the failures of the consumers and then of the backends,
        each in reverse order. */
    method Close(consumerOutcomes: Outcomes, resourceOutcomes: Outcomes)
      returns (errors: seq<Error>, log: seq<Event>, ghost split: nat, ghost atConsumers: seq<nat>,
          ghost atResources: seq<nat>)
      modifies this`closed, this`consumers, consumers, resources
      ensures closed && consumers == []
      ensures log == Seals(|resources|) + Asks(0, |old(consumers)|) + Attempts(0, |resources|)
      ensures forall c :: c in old(consumers) ==> c.asked > old(c.asked)
      ensures split <= |errors|
      ensures ListsFailures(consumerOutcomes, 0, |old(consumers)|, errors[..split], atConsumers)
      ensures ListsFailures(FailsAt(resources, old(InUse(resources)), resourceOutcomes), 0, |resources|,
          errors[split..], atResources)
      ensures forall h :: h in resources ==>
                h.sealed && (h.initialized <==> StaysInUse(resources, old(InUse(resources)), resourceOutcomes, 0, h))
    {
      closed := true;
      log := SealAll(resources);
      var asks, first;
      first, asks, atConsumers := AskAll(consumers, consumerOutcomes);
      consumers := [];
      var more;
      more, log, atResources := CloseSealed(resources, resourceOutcomes, old(InUse(resources)), log + asks);
      split := |first|;
      errors := first + more;
      hide ListsFailures, StaysInUse, FailsAt;
      assert errors[..split] == first && errors[split..] == more;
    }
  }

  // ---- The application container ---------------------------------------------------------------

  /** The synchronous callbacks, last first. */
  method CloseSync(count: nat, outcomes: Outcomes) returns (errors: seq<Error>, log: seq<Event>, ghost at: seq<nat>)
    ensures log == Attempts(0, count)
    ensures ListsFailures(outcomes, 0, count, errors, at)
  {
    errors, log, at := [], [], [];
    for i := count downto 0
      invariant log == Attempts(i, count)
      invariant ListsFailures(outcomes, i, count, errors, at)
    {
      NextFailure(outcomes, i + 1, count, errors, at);
      log := log + [Attempted(i)];
      if outcomes(i).Some? {
        errors, at := errors + [outcomes(i).value], at + [i];
      }
    }
  }

  /** `ApplicationContainer.aclose`: every asynchronous callback is run, last first, then every synchronous one,
      last first, whatever fails on the way; the errors raised are exactly the failures in that order. */
  method CloseContainer(asyncCount: nat, asyncOutcomes: Outcomes, syncCount: nat, syncOutcomes: Outcomes)
    returns (errors: seq<Error>, asyncLog: seq<Event>, syncLog: seq<Event>,
             ghost split: nat, ghost atAsync: seq<nat>, ghost atSync: seq<nat>)
    ensures asyncLog == Attempts(0, asyncCount) && syncLog == Attempts(0, syncCount)
    ensures split <= |errors|
    ensures ListsFailures(asyncOutcomes, 0, asyncCount, errors[..split], atAsync)
    ensures ListsFailures(syncOutcomes, 0, syncCount, errors[split..], atSync)
  {
    errors, asyncLog, atAsync := [], [], [];
    for i := asyncCount downto 0
      invariant asyncLog == Attempts(i, asyncCount)
      invariant ListsFailures(asyncOutcomes, i, asyncCount, errors, atAsync)
    {
      NextFailure(asyncOutcomes, i + 1, asyncCount, errors, atAsync);
      asyncLog := asyncLog + [Attempted(i)];
      if asyncOutcomes(i).Some? {
        errors, atAsync := errors + [asyncOutcomes(i).value], atAsync + [i];
      }
    }
    split := |errors|;
    var more;
    more, syncLog, atSync := CloseSync(syncCount, syncOutcomes);
    errors := errors + more;
  }
}
