/**
 `QueueManager.consume` racing with `QueueManager.aclose`: any number of consume calls and close calls,
 interleaved at every await.  Creating a consumer and its registration are one step, as in the code, where no
 await lies between them.
 */
module ConsumerRegistry {
  import opened Common

  type ConsumerId = nat

  /** A `consume` call: creating its consumer, inside its context, or done with it. */
  datatype Use = Creating | Inside(consumer: ConsumerId) | Leaving(consumer: ConsumerId)
      | Refused(consumer: ConsumerId) | Over

  /** A close call: still asking the consumers of its snapshot, or past them. */
  datatype Closing = Asking(rest: seq<ConsumerId>) | PastConsumers

  datatype State = State(
    closed: bool,
    consumers: seq<ConsumerId>,
    uses: seq<Use>,
    closings: seq<Closing>,
    created: set<ConsumerId>,          // history
    asked: set<ConsumerId>)            // history: consumers whose aclose was called

  datatype Action =
    | Begin
    | Created(u: nat, consumer: ConsumerId)
    | CreateFails(u: nat)
    | Leave(u: nat)
    | Left(u: nat)
    | RefusalDone(u: nat)
    | BeginClose
    | AskNext(k: nat)
    | ForgetConsumers(k: nat)

  function Initial(): State {
    State(false, [], [], [], {}, {})
  }

  function Reversed(s: seq<ConsumerId>): (r: seq<ConsumerId>)
    ensures |r| == |s| && forall c :: c in r <==> c in s
    ensures forall k :: 0 <= k < |s| ==> r[k] == s[|s| - 1 - k]
  {
    if s == [] then [] else Reversed(s[1..]) + [s[0]]
  }

  /** `list.remove`: the first occurrence goes; nothing happens if there is none. */
  function Remove(s: seq<ConsumerId>, c: ConsumerId): (r: seq<ConsumerId>)
    ensures forall x :: x in r ==> x in s
    ensures forall x :: x in s && x != c ==> x in r
  {
    if s == [] then [] else if s[0] == c then s[1..] else [s[0]] + Remove(s[1..], c)
  }

  predicate Enabled(s: State, a: Action) {
    match a
    case Begin => !s.closed
    case Created(u, c) => u < |s.uses| && s.uses[u].Creating? && c !in s.created
    case CreateFails(u) => u < |s.uses| && s.uses[u].Creating?
    case Leave(u) => u < |s.uses| && s.uses[u].Inside?
    case Left(u) => u < |s.uses| && s.uses[u].Leaving?
    case RefusalDone(u) => u < |s.uses| && s.uses[u].Refused?
    case BeginClose => true
    case AskNext(k) => k < |s.closings| && s.closings[k].Asking? && s.closings[k].rest != []
    case ForgetConsumers(k) => k < |s.closings| && s.closings[k].Asking? && s.closings[k].rest == []
  }

  function Apply(s: State, a: Action): State
    requires Enabled(s, a)
  {
    match a
    case Begin => s.(uses := s.uses + [Creating])
    case Created(u, c) =>
      var t := s.(created := s.created + {c});
      // A consumer made while the manager was being closed is closed at once and not handed out.
      if s.closed then t.(uses := s.uses[u := Refused(c)], asked := s.asked + {c})
      else t.(uses := s.uses[u := Inside(c)], consumers := s.consumers + [c])
    case CreateFails(u) => s.(uses := s.uses[u := Over])
    case Leave(u) => s.(uses := s.uses[u := Leaving(s.uses[u].consumer)], asked := s.asked + {s.uses[u].consumer})
    case Left(u) => s.(uses := s.uses[u := Over], consumers := Remove(s.consumers, s.uses[u].consumer))
    case RefusalDone(u) => s.(uses := s.uses[u := Over])
    case BeginClose => s.(closed := true, closings := s.closings + [Asking(Reversed(s.consumers))])
    case AskNext(k) =>
      s.(asked := s.asked + {s.closings[k].rest[0]}, closings := s.closings[k := Asking(s.closings[k].rest[1..])])
    case ForgetConsumers(k) => s.(consumers := [], closings := s.closings[k := PastConsumers])
  }

  function Play(s: State, actions: seq<Action>): Option<State>
    decreases |actions|
  {
    if actions == [] then Some(s)
    else
      var t := Play(s, actions[..|actions| - 1]);
      var a := actions[|actions| - 1];
      if t.Some? && Enabled(t.value, a) then Some(Apply(t.value, a)) else None
  }

  ghost predicate Reachable(s: State) {
    exists actions :: Play(Initial(), actions) == Some(s)
  }

  /** What a close call has yet to ask contains every consumer nobody has asked. */
  ghost predicate CoversUnasked(s: State, k: Closing) {
    forall c :: c in s.created && c !in s.asked ==> k.Asking? && c in k.rest
  }

  ghost predicate Inv(s: State) {
    && (s.closings != [] ==> s.closed)
    && (forall k :: 0 <= k < |s.closings| ==> CoversUnasked(s, s.closings[k]))
    && (forall c :: c in s.created && c !in s.asked ==> c in s.consumers)
    && (!s.closed ==> s.closings == [])
    && (forall u :: 0 <= u < |s.uses| ==>
          && (s.uses[u].Inside? ==> s.uses[u].consumer in s.created)
          && (s.uses[u].Leaving? || s.uses[u].Refused? ==> s.uses[u].consumer in s.asked))
  }

  lemma StepKeepsInv(s: State, a: Action)
    requires Inv(s) && Enabled(s, a)
    ensures Inv(Apply(s, a))
  {
    var t := Apply(s, a);
    forall k | 0 <= k < |t.closings|
      ensures CoversUnasked(t, t.closings[k])
    {
      if k < |s.closings| {
        assert CoversUnasked(s, s.closings[k]);
      }
    }
  }

  lemma {:induction false} RunsKeepInv(s: State, actions: seq<Action>)
    requires Inv(s) && Play(s, actions).Some?
    ensures Inv(Play(s, actions).value)
  {
    if actions != [] {
      RunsKeepInv(s, actions[..|actions| - 1]);
      StepKeepsInv(Play(s, actions[..|actions| - 1]).value, actions[|actions| - 1]);
    }
  }

  lemma ReachableInv(s: State)
    requires Reachable(s)
    ensures Inv(s)
  {
    var actions :| Play(Initial(), actions) == Some(s);
    RunsKeepInv(Initial(), actions);
  }

  lemma {:induction false} PastConsumersStays(s: State, later: seq<Action>, k: nat)
    requires Play(s, later).Some? && k < |s.closings| && s.closings[k] == PastConsumers
    ensures k < |Play(s, later).value.closings| && Play(s, later).value.closings[k] == PastConsumers
  {
    hide Apply, Enabled;
    if later != [] {
      PastConsumersStays(s, later[..|later| - 1], k);
      StepStaysPast(Play(s, later[..|later| - 1]).value, later[|later| - 1], k);
    }
  }

  lemma StepStaysPast(s: State, a: Action, k: nat)
    requires Enabled(s, a) && k < |s.closings| && s.closings[k] == PastConsumers
    ensures k < |Apply(s, a).closings| && Apply(s, a).closings[k] == PastConsumers
  {
    hide Reversed, Remove;
  }

  /** Once some close call is past the consumers, `aclose` has been called on every consumer ever created, and
      that stays true of whatever is created later: no consumer slips through, however the calls race. */
  lemma EveryConsumerIsAskedToClose(s: State, later: seq<Action>)
    requires Reachable(s) && PastConsumers in s.closings
    requires Play(s, later).Some?
    ensures Play(s, later).value.created <= Play(s, later).value.asked
  {
    ReachableInv(s);
    RunsKeepInv(s, later);
    var k :| 0 <= k < |s.closings| && s.closings[k] == PastConsumers;
    PastConsumersStays(s, later, k);
    var t := Play(s, later).value;
    assert CoversUnasked(t, t.closings[k]);
  }

  /** A consumer still inside its context is registered, or the close has already called its `aclose`; a use
      that was refused or left has had `aclose` called on its consumer. */
  lemma NoUseKeepsAnUnaskedConsumer(s: State, u: nat)
    requires Reachable(s) && u < |s.uses|
    ensures s.uses[u].Inside? ==> s.uses[u].consumer in s.consumers || s.uses[u].consumer in s.asked
    ensures s.uses[u].Leaving? || s.uses[u].Refused? ==> s.uses[u].consumer in s.asked
  {
    ReachableInv(s);
  }

  // ---- What is registered ----------------------------------------------------------------------

  /** The use has the consumer and has not given it back yet. */
  predicate Holds(use: Use, c: ConsumerId) {
    (use.Inside? || use.Leaving?) && use.consumer == c
  }

  ghost predicate HeldBySome(s: State, c: ConsumerId) {
    exists u :: 0 <= u < |s.uses| && Holds(s.uses[u], c)
  }

  predicate Distinct(consumers: seq<ConsumerId>) {
    forall i, k :: 0 <= i < k < |consumers| ==> consumers[i] != consumers[k]
  }

  ghost predicate RegisterInv(s: State) {
    && Distinct(s.consumers)
    && (forall c :: c in s.consumers ==> c in s.created && HeldBySome(s, c))
    && (forall u, c :: 0 <= u < |s.uses| && Holds(s.uses[u], c) ==> c in s.created && (s.closed || c in s.consumers))
    && (forall u, v, c :: 0 <= u < |s.uses| && 0 <= v < |s.uses| && Holds(s.uses[u], c) && Holds(s.uses[v], c) ==>
          u == v)
  }

  lemma {:induction false} RemoveTakesTheOne(s: seq<ConsumerId>, c: ConsumerId)
    requires Distinct(s)
    ensures Distinct(Remove(s, c)) && c !in Remove(s, c)
  {
    if s == [] {
    } else if s[0] == c {
      assert forall k :: 0 <= k < |s| - 1 ==> s[1..][k] == s[k + 1];
    } else {
      assert forall k :: 0 <= k < |s| - 1 ==> s[1..][k] == s[k + 1];
      RemoveTakesTheOne(s[1..], c);
      assert s[0] !in s[1..];
    }
  }

  lemma StepKeepsHolders(s: State, a: Action, c: ConsumerId)
    requires RegisterInv(s) && Enabled(s, a) && c in Apply(s, a).consumers
    ensures c in Apply(s, a).created && HeldBySome(Apply(s, a), c)
  {
    var t := Apply(s, a);
    if a.Created? && c == a.consumer {
      assert Holds(t.uses[a.u], c);
    } else {
      if a.Left? {
        RemoveTakesTheOne(s.consumers, s.uses[a.u].consumer);
      }
      assert c in s.consumers;
      var u :| 0 <= u < |s.uses| && Holds(s.uses[u], c);
      assert Holds(t.uses[u], c);
    }
  }

  lemma StepKeepsRegistered(s: State, a: Action, u: nat, c: ConsumerId)
    requires Inv(s) && RegisterInv(s) && Enabled(s, a)
    requires u < |Apply(s, a).uses| && Holds(Apply(s, a).uses[u], c)
    ensures c in Apply(s, a).created && (Apply(s, a).closed || c in Apply(s, a).consumers)
    ensures u < |s.uses| && (Holds(s.uses[u], c) || a == Created(u, c))
  {
    if u < |s.uses| && !Holds(s.uses[u], c) {
      assert a == Created(u, c);
    }
    if a.Left? {
      assert Holds(s.uses[a.u], s.uses[a.u].consumer);
    }
  }

  lemma StepKeepsRegister(s: State, a: Action)
    requires Inv(s) && RegisterInv(s) && Enabled(s, a)
    ensures RegisterInv(Apply(s, a))
  {
    var t := Apply(s, a);
    if a.Left? {
      RemoveTakesTheOne(s.consumers, s.uses[a.u].consumer);
    }
    assert Distinct(t.consumers);
    assert a.ForgetConsumers? ==> CoversUnasked(s, s.closings[a.k]);
    hide Apply, Enabled, Inv, Holds, Distinct;
    forall c | c in t.consumers
      ensures c in t.created && HeldBySome(t, c)
    {
      StepKeepsHolders(s, a, c);
    }
    forall u, c | 0 <= u < |t.uses| && Holds(t.uses[u], c)
      ensures c in t.created && (t.closed || c in t.consumers)
    {
      StepKeepsRegistered(s, a, u, c);
    }
    forall u, v, c | 0 <= u < |t.uses| && 0 <= v < |t.uses| && Holds(t.uses[u], c) && Holds(t.uses[v], c)
      ensures u == v
    {
      StepKeepsRegistered(s, a, u, c);
      StepKeepsRegistered(s, a, v, c);
      NewIsUnheld(s, a, c);
    }
  }

  lemma NewIsUnheld(s: State, a: Action, c: ConsumerId)
    requires RegisterInv(s) && Enabled(s, a)
    ensures forall u, v :: 0 <= u < |s.uses| && 0 <= v < |s.uses| && a == Created(u, c) ==> !Holds(s.uses[v], c)
  {
  }

  lemma {:induction false} RunsKeepRegister(s: State, actions: seq<Action>)
    requires Inv(s) && RegisterInv(s) && Play(s, actions).Some?
    ensures RegisterInv(Play(s, actions).value)
    decreases |actions|
  {
    hide Inv, RegisterInv, Apply, Enabled;
    if actions == [] {
    } else {
      RunsKeepRegister(s, actions[..|actions| - 1]);
      RunsKeepInv(s, actions[..|actions| - 1]);
      StepKeepsRegister(Play(s, actions[..|actions| - 1]).value, actions[|actions| - 1]);
    }
  }

  /** While the manager is open, what is registered is exactly what is in use, each consumer once; afterwards nothing
      else is registered either, so a use that is over leaves nothing behind. */
  lemma RegisteredIffInUse(s: State, c: ConsumerId)
    requires Reachable(s)
    ensures c in s.consumers ==> HeldBySome(s, c)
    ensures !s.closed ==> (c in s.consumers <==> HeldBySome(s, c))
    ensures multiset(s.consumers)[c] <= 1
  {
    var actions :| Play(Initial(), actions) == Some(s);
    RunsKeepRegister(Initial(), actions);
    DistinctOccursOnce(s.consumers, c);
  }

  lemma {:induction false} DistinctOccursOnce(consumers: seq<ConsumerId>, c: ConsumerId)
    requires Distinct(consumers)
    ensures multiset(consumers)[c] <= 1
    decreases |consumers|
  {
    if consumers == [] {
    } else {
      var front, last := consumers[..|consumers| - 1], consumers[|consumers| - 1];
      assert consumers == front + [last];
      DistinctOccursOnce(front, c);
      assert last !in front;
    }
  }

  // ---- Uses and closes that go through ---------------------------------------------------------

  lemma Extend(s: State, later: seq<Action>, t: State, a: Action) returns (longer: seq<Action>, u: State)
    requires Play(s, later) == Some(t) && Enabled(t, a)
    ensures longer == later + [a] && u == Apply(t, a) && Play(s, longer) == Some(u)
  {
    longer, u := later + [a], Apply(t, a);
    assert longer[..|later|] == later;
  }

  lemma PlayNothing(s: State)
    ensures Play(s, []) == Some(s)
  {
  }

  lemma {:induction false} RemoveTheLast(consumers: seq<ConsumerId>, c: ConsumerId)
    requires c !in consumers
    ensures Remove(consumers + [c], c) == consumers
  {
    if consumers == [] {
    } else {
      RemoveTheLast(consumers[1..], c);
      assert (consumers + [c])[1..] == consumers[1..] + [c];
    }
  }

  /** While the manager is open, a use gets its consumer, which is registered meanwhile, and leaves the registry as it
      was, with the consumer asked to close. */
  lemma UndisturbedUse(s: State, c: ConsumerId) returns (later: seq<Action>, inside: State, t: State)
    requires Reachable(s) && !s.closed && c !in s.created
    ensures later == [Begin, Created(|s.uses|, c), Leave(|s.uses|), Left(|s.uses|)]
    ensures Play(s, later[..2]) == Some(inside) && inside.consumers == s.consumers + [c]
    ensures inside.uses == s.uses + [Inside(c)]
    ensures Play(s, later) == Some(t) && t.consumers == s.consumers && t.uses == s.uses + [Over]
    ensures t.created == s.created + {c} && t.asked == s.asked + {c}
  {
    var actions :| Play(Initial(), actions) == Some(s);
    RunsKeepRegister(Initial(), actions);
    hide Play, Reversed, Remove, Inv;
    var u := |s.uses|;
    PlayNothing(s);
    later, t := Extend(s, [], s, Begin);
    later, inside := Extend(s, later, t, Created(u, c));
    var two := later;
    later, t := Extend(s, later, inside, Leave(u));
    RemoveTheLast(s.consumers, c);
    later, t := Extend(s, later, t, Left(u));
    assert later[..2] == two;
  }

  /** A consumer that comes into being only after a close has begun is asked to close at once and never registered. */
  lemma LateConsumerIsRefused(s: State, u: nat, c: ConsumerId)
    requires Enabled(s, Created(u, c)) && s.closed
    ensures var t := Apply(s, Created(u, c));
      && t.uses[u] == Refused(c) && c in t.asked && t.consumers == s.consumers
      && Enabled(t, RefusalDone(u)) && Apply(t, RefusalDone(u)) == t.(uses := t.uses[u := Over])
  {
  }

  lemma {:induction false} AskingEnds(s: State, later: seq<Action>, t: State, k: nat)
    returns (longer: seq<Action>, u: State)
    requires Play(s, later) == Some(t) && k < |t.closings| && t.closings[k].Asking? && t.closed
    ensures Play(s, longer) == Some(u) && later <= longer && u.created == t.created && u.closed
    ensures k < |u.closings| && u.closings[k] == Asking([])
    ensures forall c :: c in t.asked || c in t.closings[k].rest ==> c in u.asked
    decreases |t.closings[k].rest|
  {
    hide Play;
    if t.closings[k].rest == [] {
      longer, u := later, t;
    } else {
      var next, v := Extend(s, later, t, AskNext(k));
      assert v.closings[k].rest == t.closings[k].rest[1..];
      longer, u := AskingEnds(s, next, v, k);
    }
  }

  /** From any state a close can begin and go through: the manager is then closed, nothing is registered, and every
      consumer has been asked. */
  lemma CloseCanGoThrough(s: State) returns (later: seq<Action>, t: State)
    requires Reachable(s)
    ensures later != [] && later[0] == BeginClose
    ensures Play(s, later) == Some(t) && t.closed && t.consumers == [] && PastConsumers in t.closings
    ensures t.created == s.created && s.created <= t.asked
  {
    ReachableInv(s);
    var actions :| Play(Initial(), actions) == Some(s);
    hide Play, Reachable;
    var k := |s.closings|;
    PlayNothing(s);
    later, t := Extend(s, [], s, BeginClose);
    var begun := later;
    later, t := AskingEnds(s, later, t, k);
    var longer, u := Extend(s, later, t, ForgetConsumers(k));
    assert u.closings[k] == PastConsumers;
    assert longer[..1] == begun;
    later, t := longer, u;
  }
}
