/**
 The lazily created resource of `AsyncLazy`: any number of `get`, `begin_close` and `aclose` calls,
 interleaved at the two awaits under the lock.  The factory and the closer may fail or be cancelled.
 */
module AsyncLazy {
  import opened Common

  type Resource = nat

  /** The two fields; `value` is None both before creation and after a successful close. */
  datatype Fields = Fields(value: Option<Resource>, closed: bool) {
    function BeginClose(): Fields {
      this.(closed := true)
    }

    /** What `get` does once it holds the lock. */
    function OnLock(): GetStep {
      if closed then Refuse else if value.None? then Create else Give(value.value)
    }

    /** The factory's result is stored before `closed` is looked at again. */
    function Created(made: Option<Resource>): Fields {
      this.(value := made)
    }

    function Released(): Fields {
      this.(value := None)
    }
  }

  datatype GetStep = Refuse | Create | Give(resource: Resource)

  /** The object, one method per stretch of code between awaits. */
  class Lazy {
    var value: Option<Resource>
    var closed: bool

    function View(): Fields
      reads this
    {
      Fields(value, closed)
    }

    constructor ()
      ensures View() == Fields(None, false)
    {
      value, closed := None, false;
    }

    method BeginClose()
      modifies this
      ensures View() == old(View()).BeginClose()
    {
      closed := true;
    }

    /** `get` before it waits for the lock. */
    method Enter() returns (admitted: bool)
      ensures admitted <==> !closed
    {
      if closed {
        return false;
      }
      admitted := true;
    }

    /** `get` from the lock to the factory's await, or to its return. */
    method Locked() returns (step: GetStep)
      ensures step == View().OnLock()
    {
      if closed {
        return Refuse;
      }
      if value.None? {
        return Create;
      }
      if closed {
        return Refuse;
      }
      step := Give(value.value);
    }

    /** `get` after the factory's await; None stands for a Python None made by the factory. */
    method Created(made: Option<Resource>) returns (r: Outcome<Option<Resource>, ()>)
      modifies this
      ensures View() == old(View()).Created(made)
      ensures if closed then r.Raised? else r == Returned(made)
    {
      value := made;
      if closed {
        return Raised(());
      }
      r := Returned(value);
    }

    /** `aclose` from the lock to the closer's await, or to its return. */
    method CloseLocked() returns (toClose: Option<Resource>)
      ensures toClose == value
    {
      if value.None? {
        return None;
      }
      toClose := value;
    }

    /** `aclose` after the closer succeeded. */
    method Closed()
      modifies this
      ensures View() == old(View()).Released()
    {
      value := None;
    }
  }

  // ---- The protocol ----------------------------------------------------------------------------

  datatype Pc = GetWaits | Creating | CloseWaits | Closing | Over

  datatype State = State(
    fields: Fields,
    holder: Option<nat>,                 // the task holding the lock
    tasks: seq<Pc>,
    created: seq<Option<Resource>>,      // history: what the factory returned
    given: seq<Option<Resource>>,        // history: what the gets returned
    released: seq<Resource>,             // history: what the closer closed successfully
    closes: nat)                         // history: how often aclose returned normally

  datatype Action =
    | BeginClose
    | CallGet
    | CallClose
    | Lock(t: nat)
    | FactoryReturns(t: nat, made: Option<Resource>)
    | FactoryFails(t: nat)
    | CloserReturns(t: nat)
    | CloserFails(t: nat)
    | CancelWaiting(t: nat)

  function Initial(): State {
    State(Fields(None, false), None, [], [], [], [], 0)
  }

  predicate IsAt(s: State, t: nat, pc: Pc) {
    t < |s.tasks| && s.tasks[t] == pc
  }

  predicate Enabled(s: State, a: Action) {
    match a
    case BeginClose => true
    case CallGet => !s.fields.closed
    case CallClose => true
    case Lock(t) => s.holder.None? && (IsAt(s, t, GetWaits) || IsAt(s, t, CloseWaits))
    case FactoryReturns(t, _) => IsAt(s, t, Creating)
    case FactoryFails(t) => IsAt(s, t, Creating)
    case CloserReturns(t) => IsAt(s, t, Closing) && s.fields.value.Some?
    case CloserFails(t) => IsAt(s, t, Closing)
    case CancelWaiting(t) => IsAt(s, t, GetWaits) || IsAt(s, t, CloseWaits)
  }

  function Move(s: State, t: nat, pc: Pc): State
    requires t < |s.tasks|
  {
    s.(tasks := s.tasks[t := pc], holder := if pc == Creating || pc == Closing then Some(t) else None)
  }

  function Apply(s: State, a: Action): State
    requires Enabled(s, a)
  {
    match a
    case BeginClose => s.(fields := s.fields.BeginClose())
    case CallGet => s.(tasks := s.tasks + [GetWaits])
    case CallClose => s.(fields := s.fields.BeginClose(), tasks := s.tasks + [CloseWaits])
    case Lock(t) =>
      if s.tasks[t] == GetWaits then
        match s.fields.OnLock()
        case Refuse => Move(s, t, Over)
        case Create => Move(s, t, Creating)
        case Give(resource) => Move(s, t, Over).(given := s.given + [Some(resource)])
      else if s.fields.value.None? then Move(s, t, Over).(closes := s.closes + 1)
      else Move(s, t, Closing)
    case FactoryReturns(t, made) =>
      var u := Move(s, t, Over).(fields := s.fields.Created(made), created := s.created + [made]);
      if s.fields.closed then u else u.(given := s.given + [made])
    case FactoryFails(t) => Move(s, t, Over)
    case CloserReturns(t) =>
      Move(s, t, Over).(fields := s.fields.Released(), released := s.released + [s.fields.value.value],
          closes := s.closes + 1)
    case CloserFails(t) => Move(s, t, Over)
    case CancelWaiting(t) => s.(tasks := s.tasks[t := Over])
  }

  function Play(s: State, actions: seq<Action>): Option<State>
    decreases |actions|
  {
    if actions == [] then Some(s)
    else
      var t := Play(s, actions[..|actions| - 1]);
      var a := actions[|actions| - 1];
      if t.Some? && Enabled(t.value, a) then Some(Apply(t.value, a)) else None
  }

  ghost predicate Reachable(s: State) {
    exists actions :: Play(Initial(), actions) == Some(s)
  }

  /** The resource that was made, if one was. */
  function Made(s: State): Option<Resource> {
    if s.created == [] then None else s.created[|s.created| - 1]
  }

  /** At most one task is inside the factory or the closer, and it holds the lock. */
  ghost predicate LockInv(s: State) {
    && (forall t :: 0 <= t < |s.tasks| ==> (Inside(s.tasks[t]) <==> s.holder == Some(t)))
    && (s.holder.Some? ==> s.holder.value < |s.tasks|)
  }

  predicate Inside(pc: Pc) {
    pc == Creating || pc == Closing
  }

  ghost predicate TaskInv(s: State, pc: Pc) {
    && (pc == Creating ==> Made(s).None? && s.fields.value.None? && s.closes == 0)
    && (pc == Closing ==> s.fields.value.Some?)
    && (pc == Closing || pc == CloseWaits ==> s.fields.closed)
  }

  /** At most the last result of the factory is a resource; it is live or has been released, once. */
  ghost predicate ValueInv(s: State) {
    && (forall k :: 0 <= k < |s.created| - 1 ==> s.created[k].None?)
    && (if s.fields.value.Some? then Made(s) == s.fields.value && s.released == []
        else if Made(s).Some? then s.released == [Made(s).value] && s.fields.closed
        else s.released == [])
    && (s.closes > 0 ==> s.fields.closed && s.fields.value.None?)
  }

  /** Gets return what was made; a None only comes from a factory that returned None. */
  ghost predicate GivenInv(s: State) {
    && (forall k :: 0 <= k < |s.given| && s.given[k].Some? ==> s.given[k] == Made(s))
    && (forall k :: 0 <= k < |s.given| && s.given[k].None? ==> None in s.created)
  }

  ghost predicate Inv(s: State) {
    LockInv(s) && ValueInv(s) && GivenInv(s) && forall t :: 0 <= t < |s.tasks| ==> TaskInv(s, s.tasks[t])
  }

  lemma StepKeepsLock(s: State, a: Action)
    requires Enabled(s, a) && LockInv(s)
    ensures LockInv(Apply(s, a))
  {
  }

  lemma StepKeepsValue(s: State, a: Action)
    requires Enabled(s, a) && LockInv(s) && ValueInv(s)
    requires forall t :: 0 <= t < |s.tasks| ==> TaskInv(s, s.tasks[t])
    ensures ValueInv(Apply(s, a))
  {
  }

  lemma StepKeepsGiven(s: State, a: Action)
    requires Enabled(s, a) && GivenInv(s) && ValueInv(s)
    requires forall t :: 0 <= t < |s.tasks| ==> TaskInv(s, s.tasks[t])
    ensures GivenInv(Apply(s, a))
  {
  }

  lemma StepKeepsTasks(s: State, a: Action)
    requires Enabled(s, a) && LockInv(s) && ValueInv(s)
    requires forall t :: 0 <= t < |s.tasks| ==> TaskInv(s, s.tasks[t])
    ensures forall t :: 0 <= t < |Apply(s, a).tasks| ==> TaskInv(Apply(s, a), Apply(s, a).tasks[t])
  {
  }

  lemma StepKeepsInv(s: State, a: Action)
    requires Inv(s) && Enabled(s, a)
    ensures Inv(Apply(s, a))
  {
    StepKeepsLock(s, a);
    StepKeepsValue(s, a);
    StepKeepsGiven(s, a);
    StepKeepsTasks(s, a);
  }

  lemma {:induction false} RunsKeepInv(s: State, actions: seq<Action>)
    requires Inv(s) && Play(s, actions).Some?
    ensures Inv(Play(s, actions).value)
  {
    if actions != [] {
      RunsKeepInv(s, actions[..|actions| - 1]);
      StepKeepsInv(Play(s, actions[..|actions| - 1]).value, actions[|actions| - 1]);
    }
  }

  lemma ReachableInv(s: State)
    requires Reachable(s)
    ensures Inv(s)
  {
    var actions :| Play(Initial(), actions) == Some(s);
    RunsKeepInv(Initial(), actions);
  }

  // ---- Main results ----------------------------------------------------------------------------

  /** However gets and closes interleave: all results of the factory before the last are None, so at most one
      resource is ever made, and every get that returns a resource returns that one. */
  lemma AtMostOneResource(s: State)
    requires Reachable(s)
    ensures forall k :: 0 <= k < |s.created| - 1 ==> s.created[k] == None
    ensures forall k :: 0 <= k < |s.given| && s.given[k].Some? ==> s.given[k] == Made(s)
    ensures None !in s.created ==> |s.created| <= 1 && None !in s.given
  {
    ReachableInv(s);
    assert |s.created| > 1 ==> s.created[0] == None;
  }

  ghost predicate SomeCreating(s: State) {
    exists t: nat :: IsAt(s, t, Creating)
  }

  /** No resource has been made yet, and a get may still come to the factory or is inside it. */
  ghost predicate MayCreate(s: State) {
    Made(s).None? && (!s.fields.closed || SomeCreating(s))
  }

  /** In some later run the factory succeeds once more. */
  ghost predicate CreatesLater(s: State) {
    exists later :: Play(s, later).Some? && |Play(s, later).value.created| > |s.created|
  }

  lemma StepCreatesNothing(s: State, a: Action)
    requires Inv(s) && Enabled(s, a) && !MayCreate(s)
    ensures Apply(s, a).created == s.created && !MayCreate(Apply(s, a))
  {
    CreatingMeansMayCreate(s, a);
    hide Apply, MayCreate, Inv;
  }

  /** Only a state that may create can do so, or lead to one that may. */
  lemma CreatingMeansMayCreate(s: State, a: Action)
    requires Inv(s) && Enabled(s, a)
    ensures Apply(s, a).created != s.created ==> MayCreate(s)
    ensures MayCreate(Apply(s, a)) ==> MayCreate(s)
  {
    var u := Apply(s, a);
    if a.FactoryReturns? {
      assert IsAt(s, a.t, Creating) && TaskInv(s, s.tasks[a.t]);
    }
    if SomeCreating(u) {
      var t: nat :| IsAt(u, t, Creating);
      assert IsAt(s, t, Creating) || (a == Lock(t) && !s.fields.closed);
    }
  }

  lemma {:induction false} RunsCreateNothing(s: State, later: seq<Action>)
    requires Inv(s) && Play(s, later).Some? && !MayCreate(s)
    ensures Play(s, later).value.created == s.created && !MayCreate(Play(s, later).value)
    decreases |later|
  {
    hide Inv, Apply, Enabled, MayCreate;
    if later == [] {
    } else {
      RunsCreateNothing(s, later[..|later| - 1]);
      RunsKeepInv(s, later[..|later| - 1]);
      StepCreatesNothing(Play(s, later[..|later| - 1]).value, later[|later| - 1]);
    }
  }

  lemma Extend(s: State, later: seq<Action>, t: State, a: Action) returns (longer: seq<Action>, u: State)
    requires Play(s, later) == Some(t) && Enabled(t, a)
    ensures longer == later + [a] && u == Apply(t, a) && Play(s, longer) == Some(u)
  {
    longer, u := later + [a], Apply(t, a);
    assert longer[..|later|] == later;
  }

  /** Before sealing the lock is only held across the factory. */
  lemma HolderIsCreating(s: State)
    requires Inv(s) && !s.fields.closed
    ensures s.holder.Some? ==> IsAt(s, s.holder.value, Creating)
  {
    assert s.holder.Some? ==> Inside(s.tasks[s.holder.value]) && TaskInv(s, s.tasks[s.holder.value]);
  }

  lemma MayCreateCreates(s: State)
    requires Inv(s) && MayCreate(s)
    ensures CreatesLater(s)
  {
    var later: seq<Action>, u := [], s;
    assert Play(s, later) == Some(u);
    hide Play;
    if t: nat :| IsAt(s, t, Creating) {
      later, u := Extend(s, later, u, FactoryReturns(t, None));
    } else {
      var n := |s.tasks|;
      HolderIsCreating(s);
      later, u := Extend(s, later, u, CallGet);
      later, u := Extend(s, later, u, Lock(n));
      later, u := Extend(s, later, u, FactoryReturns(n, None));
    }
    assert |u.created| > |s.created|;
  }

  /** Once a resource has been made and until it is sealed, a get that gets the lock returns it at once; before that it
      goes to the factory and returns what the factory makes, unless the resource has been sealed meanwhile. */
  lemma GetsReturnWhatWasMade(s: State, t: nat)
    requires Reachable(s) && !s.fields.closed && t < |s.tasks|
    ensures s.tasks[t] == GetWaits && Enabled(s, Lock(t)) && Made(s).Some? ==>
      var u := Apply(s, Lock(t)); u.given == s.given + [Made(s)] && u.created == s.created && u.holder.None?
    ensures s.tasks[t] == GetWaits && Enabled(s, Lock(t)) && Made(s).None? ==> Apply(s, Lock(t)).tasks[t] == Creating
    ensures forall made :: s.tasks[t] == Creating ==>
      var u := Apply(s, FactoryReturns(t, made)); u.given == s.given + [made] && Made(u) == made && u.holder.None?
  {
    ReachableInv(s);
  }

  /** Exactly when the factory can succeed again: as long as all it has ever returned is None, and the resource has not
      been sealed or a get is still inside the factory. */
  lemma CreatesAgainIff(s: State)
    requires Reachable(s)
    ensures CreatesLater(s) <==> Made(s).None? && (!s.fields.closed || exists t: nat :: IsAt(s, t, Creating))
  {
    ReachableInv(s);
    if MayCreate(s) {
      MayCreateCreates(s);
    } else if CreatesLater(s) {
      var later :| Play(s, later).Some? && |Play(s, later).value.created| > |s.created|;
      RunsCreateNothing(s, later);
    }
  }

  /** A factory that returns None is indeed run again by the next get. */
  lemma NoneIsMadeAgain()
    ensures exists s :: Reachable(s) && s.created == [None, None]
  {
    var s := Initial();
    assert Play(s, []) == Some(s);
    s := Follow(s, CallGet);
    s := Follow(s, CallGet);
    s := Follow(s, Lock(0));
    s := Follow(s, FactoryReturns(0, None));
    s := Follow(s, Lock(1));
    s := Follow(s, FactoryReturns(1, None));
  }

  lemma Follow(s: State, a: Action) returns (t: State)
    requires Reachable(s) && Enabled(s, a)
    ensures t == Apply(s, a) && Reachable(t)
  {
    var actions :| Play(Initial(), actions) == Some(s);
    t := Apply(s, a);
    assert (actions + [a])[..|actions|] == actions;
    assert Play(Initial(), actions + [a]) == Some(t);
  }

  /** The factory and the closer never run at the same time, and neither runs twice at once. */
  lemma FactoryAndCloserNeverOverlap(s: State, t: nat, u: nat)
    requires Reachable(s) && t < |s.tasks| && u < |s.tasks|
    requires Inside(s.tasks[t]) && Inside(s.tasks[u])
    ensures t == u && s.holder == Some(t)
  {
    ReachableInv(s);
  }

  /** The resource that was made is live, or has been closed successfully exactly once, after sealing. */
  lemma ResourceIsNeverLost(s: State)
    requires Reachable(s)
    ensures |s.released| <= 1
    ensures Made(s).Some? ==>
              (s.fields.value == Made(s) && s.released == [])
              || (s.fields.value.None? && s.released == [Made(s).value] && s.fields.closed)
  {
    ReachableInv(s);
  }

  /** From the moment the resource is sealed, no get returns any more, whatever is still under way. */
  lemma {:induction false} NoGetReturnsAfterSealing(s: State, later: seq<Action>)
    requires s.fields.closed && Play(s, later).Some?
    ensures Play(s, later).value.fields.closed && Play(s, later).value.given == s.given
  {
    if later != [] {
      NoGetReturnsAfterSealing(s, later[..|later| - 1]);
    }
  }

  /** `begin_close` and `aclose` seal at once: from then on no get starts, and none returns, in any later run. */
  lemma SealingStopsGets(s: State, a: Action, later: seq<Action>)
    requires (a.BeginClose? || a.CallClose?) && Enabled(s, a) && Play(Apply(s, a), later).Some?
    ensures var t := Play(Apply(s, a), later).value;
      t.fields.closed && t.given == s.given && !Enabled(t, CallGet)
  {
    NoGetReturnsAfterSealing(Apply(s, a), later);
  }

  lemma PlayNothing(s: State)
    ensures Play(s, []) == Some(s)
  {
  }

  /** With the lock free an `aclose` can go through at once: the resource, if there is one, has then been closed. */
  lemma UndisturbedClose(s: State) returns (later: seq<Action>, t: State)
    requires Reachable(s) && s.holder.None?
    ensures later == [CallClose, Lock(|s.tasks|)] + if s.fields.value.Some? then [CloserReturns(|s.tasks|)] else []
    ensures Play(s, later) == Some(t) && t.holder.None? && t.tasks[|s.tasks|] == Over
    ensures t.closes == s.closes + 1 && t.fields == Fields(None, true) && t.given == s.given
    ensures t.released == s.released + if s.fields.value.Some? then [s.fields.value.value] else []
  {
    hide Play;
    var n := |s.tasks|;
    PlayNothing(s);
    later, t := Extend(s, [], s, CallClose);
    later, t := Extend(s, later, t, Lock(n));
    if s.fields.value.Some? {
      later, t := Extend(s, later, t, CloserReturns(n));
    }
  }

  /** What fails, is refused or is cancelled ends its task and nothing else; the lock, if it had it, is free again, so
      that a later close can try once more. */
  lemma FailuresOnlyEndTheirTask(s: State, a: Action)
    requires Reachable(s) && Enabled(s, a)
    requires a.FactoryFails? || a.CloserFails? || a.CancelWaiting?
      || (a.Lock? && s.tasks[a.t] == GetWaits && s.fields.closed)
    ensures Apply(s, a) ==
      s.(tasks := s.tasks[a.t := Over], holder := if s.holder == Some(a.t) then None else s.holder)
  {
    ReachableInv(s);
  }

  /** Once an `aclose` has returned normally, no resource is live, whatever was made has been closed, and none
      appears later. */
  lemma {:induction false} ClosedForGood(s: State, later: seq<Action>)
    requires Reachable(s) && s.closes > 0 && Play(s, later).Some?
    ensures var t := Play(s, later).value;
            && t.fields.value.None? && t.created == s.created && t.closes > 0
            && (Made(t).Some? ==> t.released == [Made(t).value])
  {
    ReachableInv(s);
    RunsKeepInv(s, later);
    if later != [] {
      var front := later[..|later| - 1];
      ClosedForGood(s, front);
      RunsKeepInv(s, front);
      var u := Play(s, front).value;
      var a := later[|later| - 1];
      assert a.FactoryReturns? ==> TaskInv(u, u.tasks[a.t]);
    }
  }
}
