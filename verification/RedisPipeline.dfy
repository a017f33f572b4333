/**
 The at-least-once pipeline over Redis Streams as a transition system: any number of consumers and
 deliveries, interleaved at every await.  A script's effect, its reply, a database commit and its reply
 are separate steps; replies may be lost and tasks may be cancelled anywhere (a crash cancels all tasks of
 its process), while requests already sent still take effect.
 */
module RedisPipeline {
  import opened Common
  import opened RedisStreams
  import opened JobExecution
  import opened RedisDriver
  import FailedStore

  /** A hand-out by the server: one entry given to one consumer by one read or takeover. */
  datatype HandOut = HandOut(entry: EntryId, consumer: ConsumerId, takenOver: bool)

  /** The request a delivery has in flight, if any. */
  datatype Io = Idle | Inserting | Inserted | Conflicted | AckSent | AckAnswered(accepted: bool)

  /** A delivery object together with the task executing it. */
  datatype Delivery = Delivery(handOut: nat, entry: EntryId, consumer: ConsumerId, job: Job, pc: Pc, io: Io,
      ranHandler: bool)

  datatype State = State(
    now: nat,
    server: Server<Wire>,
    consumers: map<ConsumerId, Consumer<nat>>,   // `pending` holds indices into `deliveries`
    deliveries: seq<Delivery>,
    records: map<FailureId, Record>,
    unread: set<nat>,                        // hand-outs whose reply is still under way
    strayInserts: set<Record>,               // inserts sent by tasks that are gone
    strayAcks: set<(ConsumerId, EntryId)>,       // acknowledgement scripts sent by tasks that are gone
    published: map<EntryId, Wire>,           // history: everything ever added
    handOuts: seq<HandOut>,                  // history: every hand-out by the server
    handled: set<EntryId>,                   // history: entries whose handler succeeded
    everSaved: set<FailureId>)               // history: failure ids ever recorded

  datatype Action =
    | Publish(payload: Wire)
    | Tick
    | Join(name: ConsumerId)
    | ReadNew(name: ConsumerId)
    | TakeOver(name: ConsumerId, entry: EntryId, lease: nat)
    | Receive(h: nat, clock: int)
    | LoseReply(h: nat)
    | Find(d: nat)
    | Resolve(d: nat, answer: Answer)
    | RunHandler(d: nat, result: ExecutionResult)
    | SendInsert(d: nat)
    | CommitInsert(d: nat)
    | FinishSave(d: nat)
    | SendAck(d: nat)
    | RunAck(d: nat)
    | FinishAck(d: nat)
    | Cancel(d: nat)
    | StrayInsert(record: Record)
    | StrayAck(name: ConsumerId, entry: EntryId)
    | Renew(name: ConsumerId, entries: seq<EntryId>)
    | Close(name: ConsumerId)
    | Forget(failureId: FailureId)

  function Initial(): State {
    State(0, Empty(), map[], [], map[], {}, {}, {}, map[], [], {}, {})
  }

  predicate Waits(s: State, d: nat) {
    d < |s.deliveries| && s.deliveries[d].consumer in s.consumers
  }

  predicate Enabled(s: State, a: Action) {
    match a
    case Publish(_) => true
    case Tick => true
    case Join(name) => name !in s.consumers
    case ReadNew(name) => name in s.consumers && NextNew(s.server).Some?
    case TakeOver(name, entry, lease) => name in s.consumers && Claimable(s.server, entry, lease, s.now)
    case Receive(h, _) =>
      h in s.unread && h < |s.handOuts| && s.handOuts[h].consumer in s.consumers && s.handOuts[h].entry in s.published
    case LoseReply(h) => h in s.unread
    case Find(d) => Waits(s, d) && s.deliveries[d].pc.Looking?
    case Resolve(d, answer) =>
      Waits(s, d) && s.deliveries[d].pc.Resolving? && answer in {Bound, NoSuchJob, NoSuchVersion}
    case RunHandler(d, _) => Waits(s, d) && s.deliveries[d].pc.Handling?
    case SendInsert(d) => Waits(s, d) && s.deliveries[d].pc.Saving? && s.deliveries[d].io.Idle?
    case CommitInsert(d) => Waits(s, d) && s.deliveries[d].pc.Saving? && s.deliveries[d].io.Inserting?
    case FinishSave(d) => Waits(s, d) && s.deliveries[d].pc.Saving?
        && (s.deliveries[d].io.Inserted? || s.deliveries[d].io.Conflicted?)
    case SendAck(d) => Waits(s, d) && s.deliveries[d].pc.Settling? && s.deliveries[d].io.Idle?
    case RunAck(d) => Waits(s, d) && s.deliveries[d].pc.Settling? && s.deliveries[d].io.AckSent?
    case FinishAck(d) => Waits(s, d) && s.deliveries[d].pc.Settling? && s.deliveries[d].io.AckAnswered?
    case Cancel(d) => Waits(s, d) && !s.deliveries[d].pc.Done? && !s.deliveries[d].pc.Dead?
    case StrayInsert(record) => record in s.strayInserts
    case StrayAck(name, entry) => (name, entry) in s.strayAcks
    case Renew(name, _) => name in s.consumers
    case Close(name) => name in s.consumers
    case Forget(_) => true
  }

  function At(s: State, d: nat): Delivery
    requires d < |s.deliveries|
  {
    s.deliveries[d]
  }

  /** The delivery an action moves on, if any. */
  function Subject(a: Action): Option<nat> {
    match a
    case Find(d) => Some(d)
    case Resolve(d, _) => Some(d)
    case RunHandler(d, _) => Some(d)
    case SendInsert(d) => Some(d)
    case CommitInsert(d) => Some(d)
    case FinishSave(d) => Some(d)
    case SendAck(d) => Some(d)
    case RunAck(d) => Some(d)
    case FinishAck(d) => Some(d)
    case Cancel(d) => Some(d)
    case _ => None
  }

  /** The task takes the answer and moves on; it has nothing in flight afterwards. */
  function Answered(x: Delivery, answer: Answer): Delivery {
    var pc := Next(x.job, x.pc, answer);
    x.(pc := pc, io := Idle, ranHandler := x.ranHandler || pc.Handling?)
  }

  /** The delivery as its action leaves it. */
  function Moved(s: State, a: Action): Delivery
    requires Enabled(s, a) && Subject(a).Some?
  {
    var x := At(s, Subject(a).value);
    match a
    case Find(_) => Answered(x, if FailureIdOf(x.job.payload) in s.records then Found else Missing)
    case Resolve(_, answer) => Answered(x, answer)
    case RunHandler(_, result) => Answered(x, Ran(result))
    case SendInsert(_) => x.(io := Inserting)
    case CommitInsert(_) => x.(io := if x.pc.record.failureId in s.records then Conflicted else Inserted)
    case FinishSave(_) =>
      // After a conflict the store looks the record up again and re-raises if it is gone.
      Answered(x, if x.io.Conflicted? && x.pc.record.failureId !in s.records then Failure else Stored)
    case SendAck(_) =>
      if !s.consumers[x.consumer].MayAcknowledge(x.pc.Done?) then Answered(x, Failure) else x.(io := AckSent)
    case RunAck(_) => x.(io := AckAnswered(Owns(s.server, x.consumer, x.entry)))
    case FinishAck(_) => Answered(x, if x.io.accepted then Acked else Failure)
    case Cancel(_) => x.(pc := Dead, io := Idle)
  }

  /** INSERT under the primary key: the first record for a failure id stays. */
  function Insert(s: State, record: Record): State {
    s.(records := FailedStore.InsertRow(s.records, record), everSaved := s.everSaved + {record.failureId})
  }

  function HandOutEntry(s: State, name: ConsumerId, entry: EntryId, takenOver: bool): State {
    s.(unread := s.unread + {|s.handOuts|}, handOuts := s.handOuts + [HandOut(entry, name, takenOver)])
  }

  /** What an action changes besides the delivery it moves on. */
  function Effects(s: State, a: Action): State
    requires Enabled(s, a)
  {
    match a
    case Publish(payload) =>
      s.(server := Add(s.server, payload), published := s.published[s.server.nextId := payload])
    case Tick => s.(now := s.now + 1)
    case Join(name) => s.(consumers := s.consumers[name := Consumer(false, map[])])
    case ReadNew(name) =>
      HandOutEntry(s, name, NextNew(s.server).value, false).(server := Read(s.server, name, s.now))
    case TakeOver(name, entry, lease) =>
      HandOutEntry(s, name, entry, true).(server := Claim(s.server, name, entry, lease, s.now))
    case Receive(h, clock) =>
      var out := s.handOuts[h];
      var c := s.consumers[out.consumer];
      if c.Refuses(out.entry) then s.(unread := s.unread - {h})        // refused: the driver stops the consumer
      else
        var job := Job(s.published[out.entry], out.takenOver, clock);
        s.(unread := s.unread - {h},
           deliveries := s.deliveries + [Delivery(h, out.entry, out.consumer, job, Begin(job), Idle, false)],
           consumers := s.consumers[out.consumer := c.Accept(out.entry, |s.deliveries|)])
    case LoseReply(h) => s.(unread := s.unread - {h})
    case RunHandler(d, result) => if result.failure.None? then s.(handled := s.handled + {At(s, d).entry}) else s
    case CommitInsert(d) => Insert(s, At(s, d).pc.record)
    case RunAck(d) => s.(server := OwnedAck(s.server, At(s, d).consumer, At(s, d).entry))
    case FinishAck(d) =>
      var x := At(s, d);
      var c := s.consumers[x.consumer];
      if x.io.accepted then s.(consumers := s.consumers[x.consumer := c.Settle(x.entry)]) else s
    case Cancel(d) =>
      var x := At(s, d);
      s.(strayInserts := if x.pc.Saving? && x.io.Inserting? then s.strayInserts + {x.pc.record} else s.strayInserts,
         strayAcks := if x.io.AckSent? then s.strayAcks + {(x.consumer, x.entry)} else s.strayAcks)
    case StrayInsert(record) => Insert(s, record).(strayInserts := s.strayInserts - {record})
    case StrayAck(name, entry) =>
      s.(server := OwnedAck(s.server, name, entry), strayAcks := s.strayAcks - {(name, entry)})
    case Renew(name, entries) => s.(server := OwnedRenew(s.server, name, entries, s.now))
    case Close(name) => s.(consumers := s.consumers[name := s.consumers[name].Close()])
    case Forget(failureId) => s.(records := s.records - {failureId})
    case _ => s
  }

  function Apply(s: State, a: Action): State
    requires Enabled(s, a)
  {
    var t := Effects(s, a);
    if Subject(a).Some? then t.(deliveries := s.deliveries[Subject(a).value := Moved(s, a)]) else t
  }

  /** The state a sequence of actions leads to, if each action is enabled where it is taken. */
  function Play(s: State, actions: seq<Action>): Option<State>
    decreases |actions|
  {
    if actions == [] then Some(s)
    else
      var t := Play(s, actions[..|actions| - 1]);
      var a := actions[|actions| - 1];
      if t.Some? && Enabled(t.value, a) then Some(Apply(t.value, a)) else None
  }

  // ---- The invariant --------------------------------------------------------------------------

  /** The entry's handler succeeded, or a record was stored under its failure id. */
  predicate Justified(s: State, e: EntryId) {
    e in s.published && (e in s.handled || FailureIdOf(s.published[e]) in s.everSaved)
  }

  ghost predicate ServerInv(s: State) {
    && WellFormed(s.server)
    && (forall e :: e in s.published <==> 0 < e < s.server.nextId)
    && (forall e :: e in s.server.stream ==> e in s.published && s.server.stream[e] == s.published[e])
    && (forall e :: e in s.published ==> e in s.server.stream || Justified(s, e))
    && (forall x :: x in s.strayAcks ==> Justified(s, x.1))
  }

  ghost predicate DeliveryInv(s: State, x: Delivery) {
    && x.consumer in s.consumers
    && x.entry in s.published && x.job.payload == s.published[x.entry]
    && (x.pc.Settling? || x.pc.Done? ==> Justified(s, x.entry))
    && (x.pc.Saving? ==> x.pc.record.failureId == FailureIdOf(x.job.payload))
    && (x.io.Inserting? || x.io.Inserted? || x.io.Conflicted? ==> x.pc.Saving?)
    && (x.io.Inserted? || x.io.Conflicted? ==> FailureIdOf(x.job.payload) in s.everSaved)
    && (x.io.AckSent? || x.io.AckAnswered? ==> x.pc.Settling?)
    && (x.pc == Settling(AlreadyRecorded) ==> !x.ranHandler)
    && (x.pc.Looking? || x.pc.Resolving? ==> !x.ranHandler)
    && (x.pc.Looking? ==> x.job.possiblyRedelivered)
    && (x.job.payload.Malformed? ==> !x.pc.Resolving? && !x.pc.Handling?)
  }

  ghost predicate DeliveriesInv(s: State) {
    && (forall d :: 0 <= d < |s.deliveries| ==> DeliveryInv(s, s.deliveries[d]))
    && (forall f :: f in s.records ==> f in s.everSaved && s.records[f].failureId == f)
  }

  ghost predicate StartedFor(s: State, f: FailureId) {
    exists d :: 0 <= d < |s.deliveries| && FailureIdOf(s.deliveries[d].job.payload) == f
  }

  /** Records only come from deliveries with their failure id. */
  ghost predicate OriginInv(s: State) {
    && (forall f :: f in s.everSaved ==> StartedFor(s, f))
    && (forall r :: r in s.strayInserts ==> StartedFor(s, r.failureId))
  }

  ghost predicate HandedOutBefore(s: State, e: EntryId, h: int) {
    exists g :: 0 <= g < h && g < |s.handOuts| && s.handOuts[g].entry == e
  }

  ghost predicate HandOutInv(s: State) {
    && (forall h :: 0 <= h < |s.handOuts| ==>
          var out := s.handOuts[h];
          out.entry in s.published && out.entry <= s.server.lastDelivered && out.consumer in s.consumers)
    && (forall h :: 0 <= h < |s.handOuts| ==> (s.handOuts[h].takenOver <==> HandedOutBefore(s, s.handOuts[h].entry, h)))
    && (forall e :: e in s.server.pel ==> HandedOutBefore(s, e, |s.handOuts|))
    && (forall h :: h in s.unread ==> 0 <= h < |s.handOuts|)
  }

  ghost predicate LinkInv(s: State) {
    && (forall d :: 0 <= d < |s.deliveries| ==>
          var x := s.deliveries[d];
          && 0 <= x.handOut < |s.handOuts| && x.handOut !in s.unread
          && s.handOuts[x.handOut] == HandOut(x.entry, x.consumer, x.job.possiblyRedelivered))
    && (forall d, c :: 0 <= d < c < |s.deliveries| ==> s.deliveries[d].handOut != s.deliveries[c].handOut)
  }

  ghost predicate Inv(s: State) {
    ServerInv(s) && DeliveriesInv(s) && OriginInv(s) && HandOutInv(s) && LinkInv(s)
  }

  // ---- Every step keeps it ---------------------------------------------------------------------

  /** History only grows, and what it says about an entry or a hand-out is final. */
  ghost predicate Grows(s: State, t: State) {
    && (forall e :: e in s.published ==> e in t.published && t.published[e] == s.published[e])
    && s.handled <= t.handled && s.everSaved <= t.everSaved
    && s.consumers.Keys <= t.consumers.Keys
    && s.handOuts <= t.handOuts
    && |s.deliveries| <= |t.deliveries|
  }

  lemma SubjectInRange(s: State, a: Action)
    requires Enabled(s, a) && Subject(a).Some?
    ensures Subject(a).value < |s.deliveries|
  {
    hide Moved, Effects;
  }

  lemma StepOnlyAdds(s: State, a: Action)
    requires Enabled(s, a)
    ensures s.consumers.Keys <= Apply(s, a).consumers.Keys && s.handOuts <= Apply(s, a).handOuts
    ensures |s.deliveries| <= |Apply(s, a).deliveries|
  {
    if Subject(a).Some? {
      SubjectInRange(s, a);
    }
    hide Enabled, Moved, Read, Claim, OwnedAck, OwnedRenew, Add, FailedStore.InsertRow;
  }

  lemma StepGrows(s: State, a: Action)
    requires ServerInv(s) && Enabled(s, a)
    ensures Grows(s, Apply(s, a))
  {
    StepOnlyAdds(s, a);
    hide Enabled, Moved, Read, Claim, OwnedAck, OwnedRenew, Add, FailedStore.InsertRow;
  }

  /** The server command an action amounts to, if it reaches the server. */
  function CommandOf(s: State, a: Action): Option<Command<Wire>>
    requires Enabled(s, a)
  {
    match a
    case Publish(payload) => Some(CAdd(payload))
    case ReadNew(name) => Some(CRead(name, s.now))
    case TakeOver(name, entry, lease) => Some(CClaim(name, entry, lease, s.now))
    case RunAck(d) => Some(CAck(At(s, d).consumer, At(s, d).entry))
    case StrayAck(name, entry) => Some(CAck(name, entry))
    case Renew(name, entries) => Some(CRenew(name, entries, s.now))
    case _ => None
  }

  lemma StepAtServer(s: State, a: Action)
    requires Enabled(s, a)
    ensures var c := CommandOf(s, a);
            Apply(s, a).server == if c.Some? then RedisStreams.Execute(s.server, c.value) else s.server
  {
    hide Enabled, Moved, FirstIn, FailedStore.InsertRow, Add, Read, Claim, OwnedAck, OwnedRenew;
  }

  lemma StepPublishes(s: State, a: Action)
    requires Enabled(s, a)
    ensures Apply(s, a).published == if a.Publish? then s.published[s.server.nextId := a.payload] else s.published
    ensures forall x :: x in Apply(s, a).strayAcks ==>
              x in s.strayAcks || (a.Cancel? && x == (At(s, a.d).consumer, At(s, a.d).entry) && At(s, a.d).io.AckSent?)
  {
    hide Enabled, Moved, Read, Claim, OwnedAck, OwnedRenew, Add, FailedStore.InsertRow;
  }

  lemma RemovalIsJustified(s: State, a: Action, e: EntryId)
    requires Inv(s) && Enabled(s, a)
    requires e in s.server.stream && e !in Apply(s, a).server.stream
    ensures Justified(s, e)
  {
    StepAtServer(s, a);
    hide Apply, HandOutInv, LinkInv, OriginInv, RedisStreams.Execute, WellFormed, Enabled;
    var c := CommandOf(s, a);
    OnlyTheOwnerRemoves(s.server, c.value, e);
    if a.RunAck? {
      assert DeliveryInv(s, s.deliveries[a.d]);
    } else {
      assert (a.name, e) in s.strayAcks;
    }
  }

  lemma StepKeepsStrayAcks(s: State, a: Action)
    requires Inv(s) && Enabled(s, a)
    ensures forall x :: x in Apply(s, a).strayAcks ==> Justified(Apply(s, a), x.1)
  {
    StepGrows(s, a);
    StepPublishes(s, a);
    hide Apply, HandOutInv, LinkInv, OriginInv, WellFormed, Enabled;
    if a.Cancel? {
      assert DeliveryInv(s, s.deliveries[a.d]);
    }
  }

  lemma StepKeepsPublished(s: State, a: Action)
    requires ServerInv(s) && Enabled(s, a)
    ensures var t := Apply(s, a);
            && WellFormed(t.server)
            && (forall e :: e in t.published <==> 0 < e < t.server.nextId)
            && (forall e :: e in t.server.stream ==> e in t.published && t.server.stream[e] == t.published[e])
    ensures forall e :: e in Apply(s, a).published ==> e in s.published || e in Apply(s, a).server.stream
  {
    StepAtServer(s, a);
    StepPublishes(s, a);
    hide Apply, Enabled, Justified;
    var c := CommandOf(s, a);
    if c.Some? {
      CommandKeepsWellFormed(s.server, c.value);
    }
  }

  lemma StepKeepsServerInv(s: State, a: Action)
    requires Inv(s) && Enabled(s, a)
    ensures ServerInv(Apply(s, a))
  {
    StepGrows(s, a);
    StepKeepsPublished(s, a);
    StepKeepsStrayAcks(s, a);
    var t := Apply(s, a);
    forall e | e in t.published && e !in t.server.stream
      ensures Justified(t, e)
    {
      if e in s.server.stream {
        RemovalIsJustified(s, a, e);
      }
    }
    hide Apply, DeliveriesInv, HandOutInv, LinkInv, OriginInv, Enabled, WellFormed, Justified;
  }

  /** An action moves at most one delivery on; only an accepted reply creates one. */
  lemma StepMovesOne(s: State, a: Action)
    requires Enabled(s, a)
    ensures var t := Apply(s, a);
            && |s.deliveries| <= |t.deliveries| <= |s.deliveries| + 1
            && (|t.deliveries| == |s.deliveries| + 1 ==> a.Receive? && a.h !in t.unread)
            && (forall d :: 0 <= d < |s.deliveries| && Subject(a) != Some(d) ==> t.deliveries[d] == s.deliveries[d])
            && (Subject(a).Some? ==> t.deliveries[Subject(a).value] == Moved(s, a))
    ensures Subject(a).Some? ==> SameDelivery(s.deliveries[Subject(a).value], Moved(s, a))
  {
    if Subject(a).Some? { MovedIsTheSame(s, a); }
    hide Moved, Read, Claim, OwnedAck, OwnedRenew, Add, FailedStore.InsertRow;
  }

  predicate SameDelivery(x: Delivery, y: Delivery) {
    && y.handOut == x.handOut && y.entry == x.entry && y.consumer == x.consumer && y.job == x.job
    && (x.ranHandler ==> y.ranHandler)
  }

  lemma MovedIsTheSame(s: State, a: Action)
    requires Enabled(s, a) && Subject(a).Some?
    ensures SameDelivery(s.deliveries[Subject(a).value], Moved(s, a))
  {
  }

  /** What a delivery's new state must satisfy, given what the step has already secured. */
  lemma MovedInv(s: State, a: Action)
    requires Enabled(s, a) && Subject(a).Some? && Inv(s)
    ensures var x, y := At(s, Subject(a).value), Moved(s, a);
            && (y.pc.Saving? ==> y.pc.record.failureId == FailureIdOf(y.job.payload))
            && (y.io.Inserting? || y.io.Inserted? || y.io.Conflicted? ==> y.pc.Saving?)
            && (y.io.AckSent? || y.io.AckAnswered? ==> y.pc.Settling?)
            && (y.pc == Settling(AlreadyRecorded) ==> !y.ranHandler)
            && (y.pc.Looking? || y.pc.Resolving? ==> !y.ranHandler)
            && (y.pc.Looking? ==> y.job.possiblyRedelivered)
            && (y.job.payload.Malformed? ==> !y.pc.Resolving? && !y.pc.Handling?)
  {
    hide ServerInv, HandOutInv, LinkInv, OriginInv;
    assert DeliveryInv(s, At(s, Subject(a).value));
  }

  lemma SubjectKeepsInv(s: State, a: Action)
    requires Inv(s) && Enabled(s, a) && Subject(a).Some?
    ensures DeliveryInv(Apply(s, a), Moved(s, a))
  {
    StepGrows(s, a);
    MovedIsTheSame(s, a);
    MovedInv(s, a);
    MovedIsJustified(s, a);
    InsertedIsSaved(s, a);
    assert DeliveryInv(s, At(s, Subject(a).value));
    hide Apply, Moved, HandOutInv, LinkInv, OriginInv, ServerInv, Enabled;
  }

  lemma FoundIsJustified(s: State, d: nat)
    requires Inv(s) && Enabled(s, Find(d))
    ensures Moved(s, Find(d)).pc.Settling? ==> Justified(Apply(s, Find(d)), At(s, d).entry)
  {
    hide HandOutInv, LinkInv, OriginInv, ServerInv;
    assert DeliveryInv(s, At(s, d));
  }

  lemma HandledIsJustified(s: State, d: nat, result: ExecutionResult)
    requires Inv(s) && Enabled(s, RunHandler(d, result))
    ensures Moved(s, RunHandler(d, result)).pc.Settling? ==> Justified(Apply(s, RunHandler(d, result)), At(s, d).entry)
  {
    hide HandOutInv, LinkInv, OriginInv, ServerInv;
    assert DeliveryInv(s, At(s, d));
  }

  lemma SettledIsJustified(s: State, a: Action)
    requires Inv(s) && Enabled(s, a) && Subject(a).Some? && !a.Find? && !a.RunHandler?
    ensures Moved(s, a).pc.Settling? || Moved(s, a).pc.Done? ==> Justified(s, Moved(s, a).entry)
  {
    hide Apply, Effects, HandOutInv, LinkInv, OriginInv, ServerInv;
    assert DeliveryInv(s, At(s, Subject(a).value));
  }

  lemma MovedIsJustified(s: State, a: Action)
    requires Inv(s) && Enabled(s, a) && Subject(a).Some?
    ensures Moved(s, a).pc.Settling? || Moved(s, a).pc.Done? ==> Justified(Apply(s, a), Moved(s, a).entry)
  {
    StepGrows(s, a);
    MovedIsTheSame(s, a);
    match a
    case Find(d) => FoundIsJustified(s, d);
    case RunHandler(d, result) => HandledIsJustified(s, d, result);
    case _ => SettledIsJustified(s, a);
    hide Apply, Effects, Moved, Enabled, HandOutInv, LinkInv, OriginInv, ServerInv, DeliveriesInv;
  }

  lemma InsertedIsSaved(s: State, a: Action)
    requires Inv(s) && Enabled(s, a) && Subject(a).Some?
    ensures Moved(s, a).io.Inserted? || Moved(s, a).io.Conflicted? ==>
              FailureIdOf(Moved(s, a).job.payload) in Apply(s, a).everSaved
  {
    StepGrows(s, a);
    StepAtRecords(s, a);
    hide Apply, Effects, Next, HandOutInv, LinkInv, OriginInv, ServerInv;
    assert DeliveryInv(s, At(s, Subject(a).value));
  }

  lemma NewcomerInv(s: State, a: Action)
    requires Inv(s) && Enabled(s, a) && |Apply(s, a).deliveries| > |s.deliveries|
    ensures DeliveryInv(Apply(s, a), Apply(s, a).deliveries[|s.deliveries|])
    ensures Apply(s, a).deliveries[|s.deliveries|].pc == Begin(Apply(s, a).deliveries[|s.deliveries|].job)
    ensures !Apply(s, a).deliveries[|s.deliveries|].ranHandler
    ensures var x := Apply(s, a).deliveries[|s.deliveries|];
            a.Receive? && x.handOut == a.h && s.handOuts[a.h] == HandOut(x.entry, x.consumer, x.job.possiblyRedelivered)
  {
    StepMovesOne(s, a);
  }

  lemma StepKeepsDeliveriesInv(s: State, a: Action)
    requires Inv(s) && Enabled(s, a)
    ensures forall d :: 0 <= d < |Apply(s, a).deliveries| ==> DeliveryInv(Apply(s, a), Apply(s, a).deliveries[d])
  {
    StepGrows(s, a);
    StepMovesOne(s, a);
    var t := Apply(s, a);
    forall d | 0 <= d < |t.deliveries|
      ensures DeliveryInv(t, t.deliveries[d])
    {
      if Subject(a) == Some(d) {
        SubjectKeepsInv(s, a);
      } else if d == |s.deliveries| {
        NewcomerInv(s, a);
      } else {
        assert DeliveryInv(s, s.deliveries[d]);
        Unmoved(s, t, s.deliveries[d]);
      }
    }
  }

  lemma Unmoved(s: State, t: State, x: Delivery)
    requires DeliveryInv(s, x) && Grows(s, t)
    ensures DeliveryInv(t, x)
  {
  }

  lemma StepAtRecords(s: State, a: Action)
    requires Enabled(s, a)
    ensures var t := Apply(s, a);
            match a
            case CommitInsert(d) =>
              var u := Insert(s, At(s, d).pc.record);
              t.records == u.records && t.everSaved == u.everSaved
            case StrayInsert(r) => var u := Insert(s, r); t.records == u.records && t.everSaved == u.everSaved
            case Forget(f) => t.records == s.records - {f} && t.everSaved == s.everSaved
            case _ => t.records == s.records && t.everSaved == s.everSaved
  {
    hide Enabled, Moved, Read, Claim, OwnedAck, OwnedRenew, Add, FailedStore.InsertRow;
  }

  lemma StepKeepsRecords(s: State, a: Action)
    requires Inv(s) && Enabled(s, a)
    ensures forall f :: f in Apply(s, a).records ==> f in Apply(s, a).everSaved && Apply(s, a).records[f].failureId == f
    ensures forall f :: f in Apply(s, a).everSaved ==>
              || f in s.everSaved
              || (a.CommitInsert? && f == FailureIdOf(s.deliveries[a.d].job.payload))
              || (a.StrayInsert? && f == a.record.failureId)
  {
    hide Apply, ServerInv, HandOutInv, LinkInv, OriginInv;
    StepAtRecords(s, a);
    if a.CommitInsert? {
      assert DeliveryInv(s, s.deliveries[a.d]);
    }
  }

  lemma StepAtStrays(s: State, a: Action)
    requires Inv(s) && Enabled(s, a)
    ensures forall r :: r in Apply(s, a).strayInserts ==>
              r in s.strayInserts || (a.Cancel? && r.failureId == FailureIdOf(s.deliveries[a.d].job.payload))
  {
    hide Moved, Read, Claim, OwnedAck, OwnedRenew, Add;
    if a.Cancel? {
      assert DeliveryInv(s, s.deliveries[a.d]);
    }
  }

  lemma StepKeepsOriginInv(s: State, a: Action)
    requires Inv(s) && Enabled(s, a)
    ensures OriginInv(Apply(s, a))
  {
    hide Apply, ServerInv, HandOutInv, LinkInv, DeliveryInv;
    StepKeepsRecords(s, a);
    StepAtStrays(s, a);
    StepMovesOne(s, a);
    var t := Apply(s, a);
    forall f | StartedFor(s, f)
      ensures StartedFor(t, f)
    {
      var d :| 0 <= d < |s.deliveries| && FailureIdOf(s.deliveries[d].job.payload) == f;
      assert FailureIdOf(t.deliveries[d].job.payload) == f;
    }
    if a.CommitInsert? || a.Cancel? {
      assert FailureIdOf(t.deliveries[a.d].job.payload) == FailureIdOf(s.deliveries[a.d].job.payload);
    }
  }

  lemma StepAtHandOuts(s: State, a: Action)
    requires Enabled(s, a)
    ensures var t := Apply(s, a);
            if a.ReadNew? then
              t.handOuts == s.handOuts + [HandOut(NextNew(s.server).value, a.name, false)]
                  && t.unread == s.unread + {|s.handOuts|}
            else if a.TakeOver? then
              t.handOuts == s.handOuts + [HandOut(a.entry, a.name, true)] && t.unread == s.unread + {|s.handOuts|}
            else t.handOuts == s.handOuts && t.unread <= s.unread
    ensures forall e :: e in Apply(s, a).server.pel ==>
            e in s.server.pel || (a.ReadNew? && NextNew(s.server) == Some(e))
  {
  }

  lemma HandedOutBeforeIsFinal(s: State, t: State, e: EntryId, h: int)
    requires s.handOuts <= t.handOuts && 0 <= h <= |s.handOuts|
    ensures HandedOutBefore(t, e, h) <==> HandedOutBefore(s, e, h)
  {
    assert forall g :: 0 <= g < h ==> t.handOuts[g] == s.handOuts[g];
  }

  lemma StepKeepsFlags(s: State, a: Action)
    requires Inv(s) && Enabled(s, a)
    ensures var t := Apply(s, a);
            forall h :: 0 <= h < |t.handOuts| ==>
                (t.handOuts[h].takenOver <==> HandedOutBefore(t, t.handOuts[h].entry, h))
  {
    StepAtHandOuts(s, a);
    var t := Apply(s, a);
    forall h | 0 <= h < |t.handOuts|
      ensures t.handOuts[h].takenOver <==> HandedOutBefore(t, t.handOuts[h].entry, h)
    {
      HandedOutBeforeIsFinal(s, t, t.handOuts[h].entry, if h < |s.handOuts| then h else |s.handOuts|);
    }
  }

  lemma StepKeepsPelHandedOut(s: State, a: Action)
    requires Inv(s) && Enabled(s, a)
    ensures forall e :: e in Apply(s, a).server.pel ==> HandedOutBefore(Apply(s, a), e, |Apply(s, a).handOuts|)
  {
    StepAtHandOuts(s, a);
    var t := Apply(s, a);
    forall e | e in t.server.pel
      ensures HandedOutBefore(t, e, |t.handOuts|)
    {
      if e in s.server.pel {
        HandedOutBeforeIsFinal(s, t, e, |s.handOuts|);
      } else {
        assert t.handOuts[|s.handOuts|].entry == e;
      }
    }
  }

  predicate InRange(s: State, out: HandOut) {
    out.entry in s.published && out.entry <= s.server.lastDelivered && out.consumer in s.consumers
  }

  lemma NewestHandOutInRange(s: State, a: Action)
    requires Inv(s) && Enabled(s, a) && (a.ReadNew? || a.TakeOver?)
    ensures |Apply(s, a).handOuts| == |s.handOuts| + 1 && InRange(Apply(s, a), Apply(s, a).handOuts[|s.handOuts|])
  {
    hide Apply, OriginInv, DeliveryInv, DeliveriesInv, LinkInv;
    StepGrows(s, a);
    StepAtServer(s, a);
    StepAtHandOuts(s, a);
    CommandKeepsWellFormed(s.server, CommandOf(s, a).value);
  }

  lemma DeliveryPositionAdvances(s: State, a: Action)
    requires ServerInv(s) && Enabled(s, a)
    ensures s.server.lastDelivered <= Apply(s, a).server.lastDelivered
  {
    hide Apply;
    StepAtServer(s, a);
    var c := CommandOf(s, a);
    if c.Some? {
      CommandKeepsWellFormed(s.server, c.value);
    }
  }

  lemma StepKeepsHandOutRange(s: State, a: Action)
    requires Inv(s) && Enabled(s, a)
    ensures forall h :: 0 <= h < |Apply(s, a).handOuts| ==> InRange(Apply(s, a), Apply(s, a).handOuts[h])
    ensures forall h :: h in Apply(s, a).unread ==> 0 <= h < |Apply(s, a).handOuts|
  {
    hide Apply, OriginInv, DeliveryInv, DeliveriesInv, LinkInv;
    StepGrows(s, a);
    StepAtHandOuts(s, a);
    if a.ReadNew? || a.TakeOver? {
      NewestHandOutInRange(s, a);
    }
    DeliveryPositionAdvances(s, a);
  }

  lemma StepKeepsLinkInv(s: State, a: Action)
    requires Inv(s) && Enabled(s, a)
    ensures LinkInv(Apply(s, a))
  {
    hide Apply, ServerInv, OriginInv, DeliveryInv, DeliveriesInv;
    StepAtHandOuts(s, a);
    StepMovesOne(s, a);
    if |Apply(s, a).deliveries| > |s.deliveries| {
      NewcomerInv(s, a);
    }
  }

  lemma StepKeepsInv(s: State, a: Action)
    requires Inv(s) && Enabled(s, a)
    ensures Inv(Apply(s, a))
  {
    StepKeepsServerInv(s, a);
    StepKeepsDeliveriesInv(s, a);
    StepKeepsRecords(s, a);
    StepKeepsOriginInv(s, a);
    StepKeepsFlags(s, a);
    StepKeepsPelHandedOut(s, a);
    StepKeepsHandOutRange(s, a);
    StepKeepsLinkInv(s, a);
  }

  lemma {:induction false} RunsKeepInv(s: State, actions: seq<Action>)
    requires Inv(s) && Play(s, actions).Some?
    ensures Inv(Play(s, actions).value) && Grows(s, Play(s, actions).value)
  {
    if actions != [] {
      RunsKeepInv(s, actions[..|actions| - 1]);
      var t := Play(s, actions[..|actions| - 1]).value;
      StepKeepsInv(t, actions[|actions| - 1]);
      StepGrows(t, actions[|actions| - 1]);
    }
  }

  // ---- Main results ----------------------------------------------------------------------------

  /** The entry is still to be handed out, by XREADGROUP or by XAUTOCLAIM. */
  predicate Deliverable(s: State, e: EntryId) {
    e in s.server.stream && (s.server.lastDelivered < e || e in s.server.pel)
  }

  ghost predicate Reachable(s: State) {
    exists actions :: Play(Initial(), actions) == Some(s)
  }

  lemma ReachableInv(s: State)
    requires Reachable(s)
    ensures Inv(s)
  {
    var actions :| Play(Initial(), actions) == Some(s);
    RunsKeepInv(Initial(), actions);
  }

  /** Conservation: in every run, whatever has been published up to some point is, at every later point,
      either still deliverable, or gone from the stream after its handler succeeded or a failure record was
      stored under its failure id. */
  lemma NoJobVanishes(s: State, later: seq<Action>, e: EntryId)
    requires Reachable(s) && e in s.published
    requires Play(s, later).Some?
    ensures var t := Play(s, later).value;
            && e in t.published && t.published[e] == s.published[e]
            && (Deliverable(t, e) || (e !in t.server.stream && Justified(t, e)))
  {
    ReachableInv(s);
    RunsKeepInv(s, later);
  }

  /** The step that removes an entry is an acknowledgement script sent for a consumer that owns the entry at
      that instant, and the cause is already there before the step. */
  lemma RemovedOnlyByItsOwnerWithCause(s: State, a: Action, e: EntryId)
    requires Reachable(s) && Enabled(s, a)
    requires e in s.server.stream && e !in Apply(s, a).server.stream
    ensures Justified(s, e)
    ensures (a.RunAck? && At(s, a.d).entry == e && Owns(s.server, At(s, a.d).consumer, e))
            || (a.StrayAck? && a.entry == e && Owns(s.server, a.name, e))
  {
    ReachableInv(s);
    StepAtServer(s, a);
    var c := CommandOf(s, a);
    OnlyTheOwnerRemoves(s.server, c.value, e);
    if a.RunAck? {
      assert DeliveryInv(s, s.deliveries[a.d]);
    }
  }

  // ---- Deliveries in flight --------------------------------------------------------------------

  /** The consumer's `pending` names the delivery as the one of the entry. */
  predicate Registered(s: State, name: ConsumerId, e: EntryId, d: nat) {
    name in s.consumers && e in s.consumers[name].pending && s.consumers[name].pending[e] == d
  }

  /** Received by the consumer and not settled, whether its task is still there or not. */
  predicate InFlight(s: State, name: ConsumerId, e: EntryId, d: nat) {
    name in s.consumers && d < |s.deliveries|
    && s.deliveries[d].consumer == name && s.deliveries[d].entry == e && !s.deliveries[d].pc.Done?
  }

  ghost predicate RegisterInv(s: State) {
    forall name, e, d: nat :: Registered(s, name, e, d) <==> InFlight(s, name, e, d)
  }

  /** A settled delivery's entry has left the stream, and no other delivery has had it acknowledged. */
  predicate IsAcknowledged(x: Delivery) {
    x.pc.Done? || x.io == AckAnswered(true)
  }

  ghost predicate AcknowledgedInv(s: State) {
    && (forall d :: 0 <= d < |s.deliveries| && IsAcknowledged(s.deliveries[d]) ==>
          s.deliveries[d].entry in s.published && s.deliveries[d].entry !in s.server.stream)
    && (forall c, d ::
          0 <= c < d < |s.deliveries| && IsAcknowledged(s.deliveries[c]) && IsAcknowledged(s.deliveries[d]) ==>
            s.deliveries[c].entry != s.deliveries[d].entry)
  }

  /** What a step does to the consumers. */
  lemma StepAtConsumers(s: State, a: Action)
    requires Enabled(s, a)
    ensures Apply(s, a).consumers ==
      match a
      case Join(name) => s.consumers[name := Consumer(false, map[])]
      case Receive(h, _) =>
        var out := s.handOuts[h];
        if s.consumers[out.consumer].Refuses(out.entry) then s.consumers
        else s.consumers[out.consumer := s.consumers[out.consumer].Accept(out.entry, |s.deliveries|)]
      case FinishAck(d) =>
        var x := At(s, d);
        if x.io.accepted then s.consumers[x.consumer := s.consumers[x.consumer].Settle(x.entry)] else s.consumers
      case Close(name) => s.consumers[name := s.consumers[name].Close()]
      case _ => s.consumers
  {
    hide Moved, Read, Claim, OwnedAck, OwnedRenew, Add, FailedStore.InsertRow;
  }

  /** Only an accepted acknowledgement makes an execution return. */
  lemma StepSettles(s: State, a: Action)
    requires Enabled(s, a) && Subject(a).Some?
    ensures !At(s, Subject(a).value).pc.Done?
    ensures Moved(s, a).pc.Done? <==> a.FinishAck? && At(s, a.d).io.accepted
    ensures Moved(s, a).io == AckAnswered(true) <==>
      a.RunAck? && Owns(s.server, At(s, a.d).consumer, At(s, a.d).entry)
  {
  }

  lemma ReceiveKeepsRegister(s: State, a: Action, name: ConsumerId, e: EntryId, d: nat)
    requires Inv(s) && RegisterInv(s) && Enabled(s, a) && a.Receive?
    ensures Registered(Apply(s, a), name, e, d) <==> InFlight(Apply(s, a), name, e, d)
  {
    StepAtConsumers(s, a);
    StepMovesOne(s, a);
    if |Apply(s, a).deliveries| > |s.deliveries| {
      NewcomerInv(s, a);
    }
    hide ServerInv, OriginInv, HandOutInv, LinkInv, DeliveriesInv, DeliveryInv;
    assert Registered(s, name, e, d) <==> InFlight(s, name, e, d);
  }

  lemma FinishKeepsRegister(s: State, a: Action, name: ConsumerId, e: EntryId, d: nat)
    requires Inv(s) && RegisterInv(s) && Enabled(s, a) && a.FinishAck?
    ensures Registered(Apply(s, a), name, e, d) <==> InFlight(Apply(s, a), name, e, d)
  {
    StepAtConsumers(s, a);
    StepMovesOne(s, a);
    StepSettles(s, a);
    hide Apply, Moved, ServerInv, OriginInv, HandOutInv, LinkInv, DeliveriesInv;
    assert Registered(s, name, e, d) <==> InFlight(s, name, e, d);
    assert InFlight(s, name, e, a.d) <==> Registered(s, name, e, a.d);
  }

  lemma QuietKeepsRegister(s: State, a: Action, name: ConsumerId, e: EntryId, d: nat)
    requires Inv(s) && RegisterInv(s) && Enabled(s, a) && !a.Receive? && Subject(a).None?
    ensures Registered(Apply(s, a), name, e, d) <==> InFlight(Apply(s, a), name, e, d)
  {
    StepAtConsumers(s, a);
    StepMovesOne(s, a);
    hide Apply, Moved, ServerInv, OriginInv, HandOutInv, LinkInv;
    assert Registered(s, name, e, d) <==> InFlight(s, name, e, d);
    if d < |s.deliveries| {
      assert DeliveryInv(s, s.deliveries[d]);
    }
  }

  lemma TaskKeepsRegister(s: State, a: Action, name: ConsumerId, e: EntryId, d: nat)
    requires RegisterInv(s) && Enabled(s, a) && !a.FinishAck? && Subject(a).Some?
    ensures Registered(Apply(s, a), name, e, d) <==> InFlight(Apply(s, a), name, e, d)
  {
    StepAtConsumers(s, a);
    StepMovesOne(s, a);
    StepSettles(s, a);
    hide Apply, Moved;
    assert Registered(s, name, e, d) <==> InFlight(s, name, e, d);
  }

  lemma StepKeepsRegister(s: State, a: Action)
    requires Inv(s) && RegisterInv(s) && Enabled(s, a)
    ensures RegisterInv(Apply(s, a))
  {
    hide Inv, Enabled, Apply, Registered, InFlight;
    forall name, e, d: nat
      ensures Registered(Apply(s, a), name, e, d) <==> InFlight(Apply(s, a), name, e, d)
    {
      if a.Receive? {
        ReceiveKeepsRegister(s, a, name, e, d);
      } else if a.FinishAck? {
        FinishKeepsRegister(s, a, name, e, d);
      } else if Subject(a).Some? {
        TaskKeepsRegister(s, a, name, e, d);
      } else {
        QuietKeepsRegister(s, a, name, e, d);
      }
    }
  }

  lemma RemovedStaysRemoved(s: State, a: Action, e: EntryId)
    requires ServerInv(s) && Enabled(s, a) && e in s.published && e !in s.server.stream
    ensures e in Apply(s, a).published && e !in Apply(s, a).server.stream
  {
    StepAtServer(s, a);
    StepPublishes(s, a);
    hide Apply, Enabled, Justified;
  }

  lemma AcknowledgedIsOldOrRemoved(s: State, a: Action, d: nat)
    requires Inv(s) && AcknowledgedInv(s) && Enabled(s, a) && d < |Apply(s, a).deliveries|
    requires IsAcknowledged(Apply(s, a).deliveries[d])
    ensures d < |s.deliveries| && Apply(s, a).deliveries[d].entry == s.deliveries[d].entry
    ensures IsAcknowledged(s.deliveries[d]) || (a == RunAck(d) && Owns(s.server, At(s, d).consumer, At(s, d).entry))
  {
    StepMovesOne(s, a);
    if d == |s.deliveries| {
      NewcomerInv(s, a);
    } else if Subject(a) == Some(d) {
      StepSettles(s, a);
      assert At(s, d) == s.deliveries[d];
    }
    hide Apply, Moved, Inv;
  }

  lemma AcceptedRemoves(s: State, d: nat)
    requires Inv(s) && Enabled(s, RunAck(d)) && Owns(s.server, At(s, d).consumer, At(s, d).entry)
    ensures At(s, d).entry in s.server.stream && At(s, d).entry in s.published
    ensures At(s, d).entry !in Apply(s, RunAck(d)).server.stream
    ensures Apply(s, RunAck(d)).published == s.published
  {
    StepAtServer(s, RunAck(d));
    StepPublishes(s, RunAck(d));
    hide Apply, DeliveriesInv, OriginInv, HandOutInv, LinkInv;
  }

  lemma StepKeepsAcknowledged(s: State, a: Action)
    requires Inv(s) && AcknowledgedInv(s) && Enabled(s, a)
    ensures AcknowledgedInv(Apply(s, a))
  {
    hide Inv, Enabled, Apply, IsAcknowledged;
    var t := Apply(s, a);
    forall d: nat | d < |t.deliveries| && IsAcknowledged(t.deliveries[d])
      ensures t.deliveries[d].entry in t.published && t.deliveries[d].entry !in t.server.stream
    {
      AcknowledgedIsOldOrRemoved(s, a, d);
      ServerOf(s);
      if IsAcknowledged(s.deliveries[d]) {
        RemovedStaysRemoved(s, a, s.deliveries[d].entry);
      } else {
        AcceptedRemoves(s, d);
      }
    }
    forall c: nat, d: nat | c < d < |t.deliveries| && IsAcknowledged(t.deliveries[c]) && IsAcknowledged(t.deliveries[d])
      ensures t.deliveries[c].entry != t.deliveries[d].entry
    {
      AcknowledgedIsOldOrRemoved(s, a, c);
      AcknowledgedIsOldOrRemoved(s, a, d);
      if !IsAcknowledged(s.deliveries[c]) {
        AcceptedRemoves(s, c);
      } else if !IsAcknowledged(s.deliveries[d]) {
        AcceptedRemoves(s, d);
      }
    }
  }

  lemma ServerOf(s: State)
    requires Inv(s)
    ensures ServerInv(s)
  {
  }

  lemma {:induction false} RunsKeepRegister(s: State, actions: seq<Action>)
    requires Inv(s) && RegisterInv(s) && AcknowledgedInv(s) && Play(s, actions).Some?
    ensures RegisterInv(Play(s, actions).value) && AcknowledgedInv(Play(s, actions).value)
    decreases |actions|
  {
    hide Inv, RegisterInv, AcknowledgedInv, Apply, Enabled;
    if actions == [] {
    } else {
      RunsKeepRegister(s, actions[..|actions| - 1]);
      RunsKeepInv(s, actions[..|actions| - 1]);
      StepKeepsRegister(Play(s, actions[..|actions| - 1]).value, actions[|actions| - 1]);
      StepKeepsAcknowledged(Play(s, actions[..|actions| - 1]).value, actions[|actions| - 1]);
    }
  }

  lemma ReachableRegister(s: State)
    requires Reachable(s)
    ensures RegisterInv(s) && AcknowledgedInv(s)
  {
    var actions :| Play(Initial(), actions) == Some(s);
    RunsKeepRegister(Initial(), actions);
  }

  /** What is renewed is what is in flight: a consumer's `pending` names for each entry exactly the delivery of it that
      the consumer has received and not settled; there is never a second one. */
  lemma PendingIsWhatIsInFlight(s: State, name: ConsumerId, e: EntryId, d: nat)
    requires Reachable(s)
    ensures Registered(s, name, e, d) <==> InFlight(s, name, e, d)
  {
    ReachableRegister(s);
  }

  /** `execute` returns only for an entry that has left the stream, and for each entry at most once, over all
      consumers. */
  lemma ReturnsOncePerEntry(s: State, d: nat)
    requires Reachable(s) && d < |s.deliveries| && s.deliveries[d].pc.Done?
    ensures s.deliveries[d].entry in s.published && s.deliveries[d].entry !in s.server.stream
    ensures forall c :: 0 <= c < |s.deliveries| && c != d && s.deliveries[c].entry == s.deliveries[d].entry ==>
      !s.deliveries[c].pc.Done?
  {
    ReachableRegister(s);
    assert IsAcknowledged(s.deliveries[d]);
  }

  /** A renewal of all that `pending` names protects every delivery in flight at once for a whole lease, or changes
      nothing because one of them has been lost. */
  lemma RenewalProtects(s: State, name: ConsumerId, entries: seq<EntryId>, lease: nat, later: nat)
    requires Reachable(s) && Enabled(s, Renew(name, entries))
    requires forall e :: e in entries <==> e in s.consumers[name].pending
    ensures var t := Apply(s, Renew(name, entries));
      if forall e, d: nat :: InFlight(s, name, e, d) ==> Owns(s.server, name, e) then
        forall e, d: nat :: InFlight(s, name, e, d) ==>
          (Claimable(t.server, e, lease, later) <==> s.now + lease <= later)
      else t.server == s.server
  {
    ReachableRegister(s);
    hide Reachable;
    RenewalIsAllOrNothing(s.server, name, entries, s.now);
    var t := Apply(s, Renew(name, entries));
    forall e, d: nat | InFlight(s, name, e, d)
      ensures e in entries
    {
      assert Registered(s, name, e, d);
    }
    forall e | e in entries
      ensures exists d: nat :: InFlight(s, name, e, d)
    {
      assert Registered(s, name, e, s.consumers[name].pending[e]);
    }
    assert OwnsAll(s.server, name, entries) <==>
        forall e, d: nat :: InFlight(s, name, e, d) ==> Owns(s.server, name, e);
  }

  /** The whole of an acknowledgement nothing comes between: it goes its way exactly for an open consumer, and then the
      execution returns, with its entry out of stream and `pending`, exactly if the consumer still owns the entry. */
  lemma UndisturbedAcknowledge(s: State, d: nat)
    requires Reachable(s) && Enabled(s, SendAck(d))
    ensures var x := s.deliveries[d];
      var run := Play(s, [SendAck(d), RunAck(d), FinishAck(d)]);
      && (run.Some? <==> !s.consumers[x.consumer].closed)
      && (run.Some? ==>
        && d < |run.value.deliveries| && (run.value.deliveries[d].pc.Done? <==> Owns(s.server, x.consumer, x.entry))
        && (Owns(s.server, x.consumer, x.entry) ==>
              x.entry !in run.value.server.stream && !Registered(run.value, x.consumer, x.entry, d))
        && (!Owns(s.server, x.consumer, x.entry) ==> run.value.server == s.server))
  {
    PlayThree(s, SendAck(d), RunAck(d), FinishAck(d));
    SentAlone(s, d);
    hide Play, Reachable;
    var t := Apply(s, SendAck(d));
    if Enabled(t, RunAck(d)) {
      AnsweredAlone(t, d);
      FinishedAlone(Apply(t, RunAck(d)), d);
    }
    hide Apply, Enabled;
  }

  lemma SentAlone(s: State, d: nat)
    requires Enabled(s, SendAck(d))
    ensures var t, x := Apply(s, SendAck(d)), s.deliveries[d];
      && (Enabled(t, RunAck(d)) <==> !s.consumers[x.consumer].closed)
      && (Enabled(t, RunAck(d)) ==> t == s.(deliveries := s.deliveries[d := x.(io := AckSent)]))
  {
  }

  lemma AnsweredAlone(t: State, d: nat)
    requires Enabled(t, RunAck(d))
    ensures var u, x := Apply(t, RunAck(d)), t.deliveries[d];
      && Enabled(u, FinishAck(d)) && u.server == OwnedAck(t.server, x.consumer, x.entry)
      && d < |u.deliveries| && u.deliveries[d] == x.(io := AckAnswered(Owns(t.server, x.consumer, x.entry)))
  {
    hide OwnedAck, Owns;
  }

  lemma FinishedAlone(u: State, d: nat)
    requires Enabled(u, FinishAck(d))
    ensures var v, x := Apply(u, FinishAck(d)), u.deliveries[d];
      && v.server == u.server && d < |v.deliveries| && (v.deliveries[d].pc.Done? <==> x.io.accepted)
      && (x.io.accepted ==> !Registered(v, x.consumer, x.entry, d))
  {
  }

  lemma PlayThree(s: State, a: Action, b: Action, c: Action)
    requires Enabled(s, a)
    ensures var t := Apply(s, a);
      Play(s, [a, b, c]) == if Enabled(t, b) && Enabled(Apply(t, b), c) then Some(Apply(Apply(t, b), c)) else None
  {
    hide Apply, Enabled;
    assert [a, b, c][..2] == [a, b] && [a, b][..1] == [a] && [a][..0] == [];
    assert Play(s, []) == Some(s);
    assert Play(s, [a]) == Some(Apply(s, a));
  }

  lemma Extend(s: State, later: seq<Action>, t: State, a: Action) returns (longer: seq<Action>, u: State)
    requires Play(s, later) == Some(t) && Enabled(t, a)
    ensures longer == later + [a] && u == Apply(t, a) && Play(s, longer) == Some(u)
  {
    hide Apply, Enabled;
    longer, u := later + [a], Apply(t, a);
    assert longer[..|later|] == later;
  }

  lemma PlayNothing(s: State)
    ensures Play(s, []) == Some(s)
  {
  }

  /** The task of an open consumer that still owns the entry has nothing in flight. */
  predicate Rests(s: State, d: nat, pc: Pc) {
    && Waits(s, d) && s.deliveries[d].pc == pc && s.deliveries[d].io == Idle
    && Owns(s.server, s.deliveries[d].consumer, s.deliveries[d].entry)
    && !s.consumers[s.deliveries[d].consumer].closed
  }

  /** The steps that save a failure. */
  function Saving3(d: nat): seq<Action> {
    [SendInsert(d), CommitInsert(d), FinishSave(d)]
  }

  function Acknowledging3(d: nat): seq<Action> {
    [SendAck(d), RunAck(d), FinishAck(d)]
  }

  lemma InsertSent(t: State, d: nat, record: Record)
    requires Rests(t, d, Saving(record))
    ensures Enabled(t, SendInsert(d))
    ensures Apply(t, SendInsert(d)) == t.(deliveries := t.deliveries[d := t.deliveries[d].(io := Inserting)])
  {
  }

  lemma InsertCommitted(t: State, d: nat, record: Record)
    requires Waits(t, d) && t.deliveries[d].pc == Saving(record) && t.deliveries[d].io == Inserting
    ensures Enabled(t, CommitInsert(d))
    ensures var io := if record.failureId in t.records then Conflicted else Inserted;
      Apply(t, CommitInsert(d)) ==
        Insert(t, record).(deliveries := t.deliveries[d := t.deliveries[d].(io := io)])
    ensures record.failureId in Insert(t, record).records
  {
  }

  lemma SaveFinished(t: State, d: nat, record: Record)
    requires Waits(t, d) && t.deliveries[d].pc == Saving(record) && record.failureId in t.records
    requires t.deliveries[d].io == Inserted || t.deliveries[d].io == Conflicted
    ensures Enabled(t, FinishSave(d))
    ensures Apply(t, FinishSave(d)) ==
      t.(deliveries := t.deliveries[d := t.deliveries[d].(pc := Settling(Cause.Recorded), io := Idle)])
  {
  }

  lemma SavedUndisturbed(s: State, later: seq<Action>, t: State, d: nat, record: Record)
    returns (longer: seq<Action>, u: State)
    requires Play(s, later) == Some(t) && Rests(t, d, Saving(record))
    ensures longer == later + Saving3(d) && Play(s, longer) == Some(u) && Rests(u, d, Settling(Cause.Recorded))
    ensures u.records == if record.failureId in t.records then t.records else t.records[record.failureId := record]
    ensures u.deliveries[d].entry == t.deliveries[d].entry && u.handled == t.handled && u.server == t.server
  {
    InsertSent(t, d, record);
    var l1, u1 := Extend(s, later, t, SendInsert(d));
    InsertCommitted(u1, d, record);
    var l2, u2 := Extend(s, l1, u1, CommitInsert(d));
    SaveFinished(u2, d, record);
    longer, u := Extend(s, l2, u2, FinishSave(d));
    hide Play, Apply, Enabled;
    assert longer == later + Saving3(d);
  }

  lemma AcknowledgedUndisturbed(s: State, later: seq<Action>, t: State, d: nat, cause: Cause)
    returns (longer: seq<Action>, u: State)
    requires Play(s, later) == Some(t) && Rests(t, d, Settling(cause))
    ensures longer == later + Acknowledging3(d) && Play(s, longer) == Some(u)
    ensures d < |u.deliveries| && u.deliveries[d].pc == Done && u.records == t.records && u.handled == t.handled
    ensures t.deliveries[d].entry !in u.server.stream
  {
    SentAlone(t, d);
    var l1, u1 := Extend(s, later, t, SendAck(d));
    AnsweredAlone(u1, d);
    var l2, u2 := Extend(s, l1, u1, RunAck(d));
    FinishedAlone(u2, d);
    AcknowledgingSavesNothing(u1, d);
    longer, u := Extend(s, l2, u2, FinishAck(d));
    hide Play, Apply, Enabled;
    assert longer == later + Acknowledging3(d);
  }

  lemma AcknowledgingSavesNothing(t: State, d: nat)
    requires Enabled(t, RunAck(d)) && Enabled(Apply(t, RunAck(d)), FinishAck(d))
    ensures var u := Apply(Apply(t, RunAck(d)), FinishAck(d)); u.records == t.records && u.handled == t.handled
  {
    hide OwnedAck, Owns, Moved;
  }

  lemma HandlerReturned(t: State, d: nat, result: ExecutionResult)
    requires Rests(t, d, Handling)
    ensures Enabled(t, RunHandler(d, result))
    ensures var u := Apply(t, RunHandler(d, result));
      && u.records == t.records && u.server == t.server && u.deliveries[d].entry == t.deliveries[d].entry
      && u.handled == (if result.failure.None? then t.handled + {t.deliveries[d].entry} else t.handled)
      && (result.failure.None? ==> Rests(u, d, Settling(Succeeded)))
      && (result.failure.Some? ==> Rests(u, d, Saving(RecordFor(t.deliveries[d].job, result))))
  {
    hide Owns;
  }

  /** The whole of an execution nothing comes between, from the handler on: with the entry still owned by an open
      consumer, a success is acknowledged, and a failure is first recorded, unless its job has a record already. */
  lemma UndisturbedExecution(s: State, d: nat, result: ExecutionResult)
    requires Rests(s, d, Handling)
    ensures var run := Play(s, [RunHandler(d, result)] + (if result.failure.Some? then Saving3(d) else [])
                              + Acknowledging3(d));
      && run.Some? && d < |run.value.deliveries| && run.value.deliveries[d].pc == Done
      && s.deliveries[d].entry !in run.value.server.stream
      && (result.failure.None? ==>
            s.deliveries[d].entry in run.value.handled && run.value.records == s.records)
      && (result.failure.Some? ==>
            var record := RecordFor(s.deliveries[d].job, result);
            run.value.handled == s.handled && run.value.records ==
              if record.failureId in s.records then s.records else s.records[record.failureId := record])
  {
    hide Apply, Play, Enabled, Saving3, Acknowledging3;
    PlayNothing(s);
    HandlerReturned(s, d, result);
    var later, t := Extend(s, [], s, RunHandler(d, result));
    if result.failure.Some? {
      var record := RecordFor(s.deliveries[d].job, result);
      later, t := SavedUndisturbed(s, later, t, d, record);
      later, t := AcknowledgedUndisturbed(s, later, t, d, Cause.Recorded);
    } else {
      later, t := AcknowledgedUndisturbed(s, later, t, d, Succeeded);
    }
    assert later == [RunHandler(d, result)] + (if result.failure.Some? then Saving3(d) else []) + Acknowledging3(d);
  }

  /** A flagged delivery whose job has a failure record is acknowledged at once: its handler is not run, and records and
      history stay as they are. */
  lemma DuplicateIsOnlyAcknowledged(s: State, d: nat)
    requires Rests(s, d, Looking) && FailureIdOf(s.deliveries[d].job.payload) in s.records
    ensures var run := Play(s, [Find(d)] + Acknowledging3(d));
      && run.Some? && d < |run.value.deliveries| && run.value.deliveries[d].pc == Done
      && run.value.records == s.records && run.value.handled == s.handled
      && s.deliveries[d].entry !in run.value.server.stream
  {
    hide Apply, Play, Enabled, Acknowledging3;
    PlayNothing(s);
    Checked(s, d);
    var later, t := Extend(s, [], s, Find(d));
    later, t := AcknowledgedUndisturbed(s, later, t, d, AlreadyRecorded);
    assert later == [Find(d)] + Acknowledging3(d);
  }

  lemma Checked(s: State, d: nat)
    requires Rests(s, d, Looking)
    ensures Enabled(s, Find(d))
    ensures var u := Apply(s, Find(d));
      && u.records == s.records && u.handled == s.handled && u.deliveries[d].entry == s.deliveries[d].entry
      && (FailureIdOf(s.deliveries[d].job.payload) in s.records ==> Rests(u, d, Settling(AlreadyRecorded)))
      && (FailureIdOf(s.deliveries[d].job.payload) !in s.records ==> Rests(u, d, Proceed(s.deliveries[d].job)))
  {
    hide Owns;
  }

  /** One whose job has none goes on: a malformed envelope to its record, and any other, once it is bound, to its
      handler. */
  lemma NewJobGoesOn(s: State, d: nat)
    requires Rests(s, d, Looking) && FailureIdOf(s.deliveries[d].job.payload) !in s.records
    ensures s.deliveries[d].job.payload.Malformed? ==>
      var run := Play(s, [Find(d)]);
      run.Some? && d < |run.value.deliveries| && run.value.deliveries[d].pc ==
        Saving(RecordFor(s.deliveries[d].job, ExecutionResult(0, Some(InvalidEnvelope))))
    ensures s.deliveries[d].job.payload.Envelope? ==>
      var run := Play(s, [Find(d), Resolve(d, Bound)]);
      run.Some? && d < |run.value.deliveries| && run.value.deliveries[d].pc == Handling
  {
    hide Play;
    PlayNothing(s);
    Checked(s, d);
    var later, t := Extend(s, [], s, Find(d));
    if s.deliveries[d].job.payload.Envelope? {
      later, t := Extend(s, later, t, Resolve(d, Bound));
      assert later == [Find(d), Resolve(d, Bound)];
    } else {
      assert later == [Find(d)];
    }
  }

  /** A record that is deleted while it is being saved: the save notices exactly if it had found the record there, and
      the execution then ends without an acknowledgement; otherwise it goes on to acknowledge. */
  lemma DeletionDuringSave(s: State, d: nat)
    requires Enabled(s, CommitInsert(d))
    ensures var f := s.deliveries[d].pc.record.failureId;
      var run := Play(s, [CommitInsert(d), Forget(f), FinishSave(d)]);
      && run.Some? && d < |run.value.deliveries| && f !in run.value.records
      && run.value.deliveries[d].pc == if f in s.records then Dead else Settling(Cause.Recorded)
  {
    hide Play;
    var record := s.deliveries[d].pc.record;
    PlayNothing(s);
    InsertCommitted(s, d, record);
    var later, t := Extend(s, [], s, CommitInsert(d));
    ForgetsOnly(t, record.failureId);
    later, t := Extend(s, later, t, Forget(record.failureId));
    VanishedIsNoticed(t, d, record);
    later, t := Extend(s, later, t, FinishSave(d));
    hide Apply, Enabled;
    assert later == [CommitInsert(d), Forget(record.failureId), FinishSave(d)];
  }

  lemma ForgetsOnly(t: State, f: FailureId)
    ensures Enabled(t, Forget(f)) && Apply(t, Forget(f)) == t.(records := t.records - {f})
  {
  }

  lemma VanishedIsNoticed(t: State, d: nat, record: Record)
    requires Waits(t, d) && t.deliveries[d].pc == Saving(record) && record.failureId !in t.records
    requires t.deliveries[d].io == Inserted || t.deliveries[d].io == Conflicted
    ensures Enabled(t, FinishSave(d))
    ensures var u := Apply(t, FinishSave(d));
      && d < |u.deliveries| && u.records == t.records
      && u.deliveries[d].pc == if t.deliveries[d].io == Conflicted then Dead else Settling(Cause.Recorded)
  {
  }

  /** A cancelled task does nothing more, in any later run. */
  lemma {:induction false} CancelledForGood(s: State, d: nat, later: seq<Action>)
    requires Enabled(s, Cancel(d)) && Play(Apply(s, Cancel(d)), later).Some?
    ensures var t := Play(Apply(s, Cancel(d)), later).value; d < |t.deliveries| && t.deliveries[d].pc == Dead
  {
    DeadForGood(Apply(s, Cancel(d)), d, later);
  }

  lemma {:induction false} DeadForGood(s: State, d: nat, later: seq<Action>)
    requires d < |s.deliveries| && s.deliveries[d].pc == Dead && Play(s, later).Some?
    ensures d < |Play(s, later).value.deliveries| && Play(s, later).value.deliveries[d].pc == Dead
    decreases |later|
  {
    hide Apply, Enabled;
    if later == [] {
    } else {
      DeadForGood(s, d, later[..|later| - 1]);
      DeadIsLeftAlone(Play(s, later[..|later| - 1]).value, later[|later| - 1], d);
    }
  }

  lemma DeadIsLeftAlone(s: State, a: Action, d: nat)
    requires Enabled(s, a) && d < |s.deliveries| && s.deliveries[d].pc == Dead
    ensures d < |Apply(s, a).deliveries| && Apply(s, a).deliveries[d].pc == Dead
  {
    StepMovesOne(s, a);
    hide Apply;
  }

  lemma PlayTwo(s: State, a: Action, b: Action)
    requires Enabled(s, a) && Enabled(Apply(s, a), b)
    ensures Play(s, [a, b]) == Some(Apply(Apply(s, a), b))
  {
    hide Apply, Enabled;
    assert [a, b][..1] == [a] && [a][..0] == [];
    PlayNothing(s);
    assert Play(s, [a]) == Some(Apply(s, a));
  }

  /** An acknowledgement that a task has sent before it is cancelled still takes effect, once: the script removes the
      entry if its consumer owns it then.  Without one in flight nothing is left behind. */
  lemma CancelledAckTakesEffect(s: State, d: nat)
    requires Enabled(s, Cancel(d))
    ensures var x := s.deliveries[d];
      x.io.AckSent? ==>
        var run := Play(s, [Cancel(d), StrayAck(x.consumer, x.entry)]);
        && run.Some? && run.value.server == OwnedAck(s.server, x.consumer, x.entry)
        && (x.consumer, x.entry) !in run.value.strayAcks && d < |run.value.deliveries|
        && run.value.deliveries[d].pc == Dead
    ensures !s.deliveries[d].io.AckSent? ==> Apply(s, Cancel(d)).strayAcks == s.strayAcks
  {
    hide Play, OwnedAck;
    var x := s.deliveries[d];
    if x.io.AckSent? {
      PlayTwo(s, Cancel(d), StrayAck(x.consumer, x.entry));
    }
  }

  /** So does an insert, whose record is stored then. */
  lemma CancelledInsertTakesEffect(s: State, d: nat)
    requires Enabled(s, Cancel(d))
    ensures s.deliveries[d].pc.Saving? && s.deliveries[d].io.Inserting? ==>
      var record := s.deliveries[d].pc.record;
      var run := Play(s, [Cancel(d), StrayInsert(record)]);
      run.Some? && record.failureId in run.value.records && record !in run.value.strayInserts
    ensures !(s.deliveries[d].pc.Saving? && s.deliveries[d].io.Inserting?) ==>
      Apply(s, Cancel(d)).strayInserts == s.strayInserts
  {
    hide Play, OwnedAck;
    if s.deliveries[d].pc.Saving? && s.deliveries[d].io.Inserting? {
      PlayTwo(s, Cancel(d), StrayInsert(s.deliveries[d].pc.record));
    }
  }

  /** A reply is read or lost once: whether it was received, refused or lost, it is not there again in any later run. */
  lemma RepliesAreReadOnce(s: State, a: Action, h: nat, later: seq<Action>)
    requires Reachable(s) && Enabled(s, a) && ((a.Receive? && a.h == h) || a == LoseReply(h))
    requires Play(Apply(s, a), later).Some?
    ensures h !in Play(Apply(s, a), later).value.unread
  {
    ReachableInv(s);
    StepAtHandOuts(s, a);
    assert h !in Apply(s, a).unread;
    hide Apply, Enabled, Inv;
    ReadForGood(Apply(s, a), h, later);
  }

  lemma {:induction false} ReadForGood(s: State, h: nat, later: seq<Action>)
    requires h < |s.handOuts| && h !in s.unread && Play(s, later).Some?
    ensures h < |Play(s, later).value.handOuts| && h !in Play(s, later).value.unread
    decreases |later|
  {
    hide Apply, Enabled;
    if later == [] {
    } else {
      ReadForGood(s, h, later[..|later| - 1]);
      StepAtHandOuts(Play(s, later[..|later| - 1]).value, later[|later| - 1]);
    }
  }

  /** A delivery of a closed consumer whose acknowledgement has not been sent. */
  predicate CutOff(s: State, d: nat) {
    d < |s.deliveries| && s.deliveries[d].consumer in s.consumers && s.consumers[s.deliveries[d].consumer].closed
    && !s.deliveries[d].io.AckSent? && !s.deliveries[d].io.AckAnswered? && !s.deliveries[d].pc.Done?
  }

  lemma StepKeepsCutOff(s: State, a: Action, d: nat)
    requires Enabled(s, a) && CutOff(s, d)
    ensures CutOff(Apply(s, a), d)
  {
    StepAtConsumers(s, a);
    StepMovesOne(s, a);
    if Subject(a) == Some(d) {
      CutOffMoves(s, a);
    }
    hide Apply, Moved, Enabled;
  }

  lemma CutOffMoves(s: State, a: Action)
    requires Enabled(s, a) && Subject(a).Some? && CutOff(s, Subject(a).value)
    ensures !Moved(s, a).io.AckSent? && !Moved(s, a).io.AckAnswered? && !Moved(s, a).pc.Done?
  {
  }

  /** After `aclose` nothing more is acknowledged: a delivery whose acknowledgement has not been sent by then never
      returns, in any later run. */
  lemma {:induction false} ClosedAcknowledgesNothing(s: State, name: ConsumerId, d: nat, later: seq<Action>)
    requires Enabled(s, Close(name)) && d < |s.deliveries| && s.deliveries[d].consumer == name
    requires !s.deliveries[d].io.AckSent? && !s.deliveries[d].io.AckAnswered? && !s.deliveries[d].pc.Done?
    requires Play(Apply(s, Close(name)), later).Some?
    ensures var t := Play(Apply(s, Close(name)), later).value;
      d < |t.deliveries| && !t.deliveries[d].pc.Done? && !t.deliveries[d].io.AckSent?
  {
    CutOffForGood(Apply(s, Close(name)), later, d);
  }

  lemma {:induction false} CutOffForGood(s: State, later: seq<Action>, d: nat)
    requires CutOff(s, d) && Play(s, later).Some?
    ensures CutOff(Play(s, later).value, d)
    decreases |later|
  {
    hide CutOff, Apply, Enabled;
    if later == [] {
    } else {
      CutOffForGood(s, later[..|later| - 1], d);
      StepKeepsCutOff(Play(s, later[..|later| - 1]).value, later[|later| - 1], d);
    }
  }

  // ---- Flags and records -----------------------------------------------------------------------

  /** Every entry has at most one delivery that is not flagged as possibly redelivered, and the hand-out it
      came from precedes every other hand-out of the entry. */
  lemma UnflaggedDeliveryIsTheFirstHandOut(s: State, d: nat)
    requires Reachable(s) && d < |s.deliveries| && !s.deliveries[d].job.possiblyRedelivered
    ensures forall c :: 0 <= c < |s.deliveries| && c != d && s.deliveries[c].entry == s.deliveries[d].entry ==>
              s.deliveries[c].job.possiblyRedelivered && s.deliveries[d].handOut < s.deliveries[c].handOut
    ensures forall h :: 0 <= h < |s.handOuts| && s.handOuts[h].entry == s.deliveries[d].entry ==>
            s.deliveries[d].handOut <= h
  {
    ReachableInv(s);
    var x := s.deliveries[d];
    assert !HandedOutBefore(s, x.entry, x.handOut);
    forall c | 0 <= c < |s.deliveries| && c != d && s.deliveries[c].entry == x.entry
      ensures s.deliveries[c].job.possiblyRedelivered && x.handOut < s.deliveries[c].handOut
    {
      var y := s.deliveries[c];
      assert y.handOut != x.handOut;
      assert x.handOut < y.handOut;
      assert s.handOuts[x.handOut].entry == y.entry;
      assert HandedOutBefore(s, y.entry, y.handOut);
    }
  }

  /** The flagged delivery has not passed its duplicate check in `s`, or does not exist there yet. */
  predicate ChecksLater(s: State, d: nat) {
    d < |s.deliveries| ==> s.deliveries[d].pc.Looking?
  }

  predicate OnlyAcknowledges(x: Delivery) {
    !x.ranHandler && (x.pc in {Looking, Settling(AlreadyRecorded), Done, Dead})
  }

  /** Seen from `s`, where the record of `f` is stored: in `t` the record is as it was, and no flagged delivery
      of that failure id whose duplicate check was still to come in `s` has run the handler. */
  ghost predicate Suppressed(s: State, t: State, f: FailureId)
    requires f in s.records
  {
    && f in t.records && t.records[f] == s.records[f]
    && |s.deliveries| <= |t.deliveries|
    && forall d :: 0 <= d < |t.deliveries| && ChecksLater(s, d)
                   && t.deliveries[d].job.possiblyRedelivered && FailureIdOf(t.deliveries[d].job.payload) == f ==>
         OnlyAcknowledges(t.deliveries[d])
  }

  /** Once a failure record is stored it stays as it is until it is deleted, and until then every flagged
      delivery of that failure id whose duplicate check is still to come never runs the handler: it only
      acknowledges. */
  lemma {:induction false} SuppressedOnceRecorded(s: State, later: seq<Action>, f: FailureId)
    requires Reachable(s) && f in s.records
    requires Play(s, later).Some?
    requires forall k :: 0 <= k < |later| ==> later[k] != Forget(f)
    ensures Suppressed(s, Play(s, later).value, f)
  {
    ReachableInv(s);
    if later == [] {
      forall d | 0 <= d < |s.deliveries| && ChecksLater(s, d)
        ensures OnlyAcknowledges(s.deliveries[d])
      {
        assert DeliveryInv(s, s.deliveries[d]);
      }
    } else {
      var front := later[..|later| - 1];
      SuppressedOnceRecorded(s, front, f);
      RunsKeepInv(s, front);
      SuppressedStays(s, Play(s, front).value, later[|later| - 1], f);
    }
  }

  lemma SuppressedStays(s: State, t: State, a: Action, f: FailureId)
    requires f in s.records && Suppressed(s, t, f)
    requires Inv(t) && Enabled(t, a) && a != Forget(f)
    ensures Suppressed(s, Apply(t, a), f)
  {
    hide Apply, HandOutInv, LinkInv, OriginInv, ServerInv, DeliveryInv;
    var u := Apply(t, a);
    StepAtRecords(t, a);
    StepMovesOne(t, a);
    forall d | 0 <= d < |u.deliveries| && ChecksLater(s, d)
               && u.deliveries[d].job.possiblyRedelivered && FailureIdOf(u.deliveries[d].job.payload) == f
      ensures OnlyAcknowledges(u.deliveries[d])
    {
      SuppressionIsKept(t, a, f, d);
    }
  }

  lemma SuppressionIsKept(t: State, a: Action, f: FailureId, d: nat)
    requires Inv(t) && Enabled(t, a) && f in t.records
    requires d < |Apply(t, a).deliveries|
    requires var x := Apply(t, a).deliveries[d]; x.job.possiblyRedelivered && FailureIdOf(x.job.payload) == f
    requires (d < |t.deliveries| && t.deliveries[d].job.possiblyRedelivered
              && FailureIdOf(t.deliveries[d].job.payload) == f) ==> OnlyAcknowledges(t.deliveries[d])
    ensures OnlyAcknowledges(Apply(t, a).deliveries[d])
  {
    StepMovesOne(t, a);
    if d == |t.deliveries| {
      NewcomerInv(t, a);
    } else if Subject(a) == Some(d) {
      SuppressedStep(t, a);
    }
  }

  lemma SuppressedStep(t: State, a: Action)
    requires Enabled(t, a) && Subject(a).Some?
    requires var x := At(t, Subject(a).value);
             OnlyAcknowledges(x) && x.job.possiblyRedelivered && FailureIdOf(x.job.payload) in t.records
    ensures OnlyAcknowledges(Moved(t, a))
  {
  }

  /** Different entries carry different jobs: every dispatch makes a fresh job id. */
  ghost predicate FreshJobs(s: State) {
    forall e, g :: e in s.published && g in s.published && e != g ==>
        FailureIdOf(s.published[e]) != FailureIdOf(s.published[g])
  }

  lemma {:induction false} JobsStay(s: State, later: seq<Action>, d: nat)
    requires d < |s.deliveries| && Play(s, later).Some?
    ensures d < |Play(s, later).value.deliveries| && Play(s, later).value.deliveries[d].job == s.deliveries[d].job
  {
    hide Apply, Enabled;
    if later != [] {
      JobsStay(s, later[..|later| - 1], d);
      StepMovesOne(Play(s, later[..|later| - 1]).value, later[|later| - 1]);
    }
  }

  /** In some run in which the record of `f` is not deleted, delivery `d` gets to run its handler. */
  ghost predicate CanRunHandler(s: State, d: nat, f: FailureId) {
    exists later ::
      && Play(s, later).Some? && (forall k :: 0 <= k < |later| ==> later[k] != Forget(f))
      && d < |Play(s, later).value.deliveries| && Play(s, later).value.deliveries[d].pc.Handling?
  }

  /** Exactly which deliveries escape the duplicate check: when a reply arrives and the record of its job exists,
      the delivery can run its handler beside that record if and only if it is not flagged and its payload
      decodes. */
  lemma HandlerRunsBesideRecordIff(s: State, h: nat, clock: int, f: FailureId)
    requires Reachable(s) && Enabled(s, Receive(h, clock)) && f in s.records
    requires FailureIdOf(s.published[s.handOuts[h].entry]) == f
    requires !s.consumers[s.handOuts[h].consumer].Refuses(s.handOuts[h].entry)
    ensures CanRunHandler(Apply(s, Receive(h, clock)), |s.deliveries|, f) <==>
              !s.handOuts[h].takenOver && s.published[s.handOuts[h].entry].Envelope?
  {
    var t := Follow(s, Receive(h, clock));
    var d := |s.deliveries|;
    var x := t.deliveries[d];
    assert x.job == Job(s.published[s.handOuts[h].entry], s.handOuts[h].takenOver, clock) && x.pc == Begin(x.job);
    assert f in t.records;
    hide Apply, Enabled;
    if !x.job.possiblyRedelivered && x.job.payload.Envelope? {
      ResolvedRunsHandler(t, d, f);
    }
    if CanRunHandler(t, d, f) {
      var later :| Play(t, later).Some? && (forall k :: 0 <= k < |later| ==> later[k] != Forget(f))
                   && d < |Play(t, later).value.deliveries| && Play(t, later).value.deliveries[d].pc.Handling?;
      HandlerNeedsUnflaggedEnvelope(t, later, d, f);
    }
  }

  lemma ResolvedRunsHandler(t: State, d: nat, f: FailureId)
    requires Waits(t, d) && t.deliveries[d].pc.Resolving?
    ensures CanRunHandler(t, d, f)
  {
    var later := [Resolve(d, Bound)];
    assert later[..0] == [] && Play(t, []) == Some(t);
    assert Play(t, later) == Some(Apply(t, Resolve(d, Bound)));
    assert forall k :: 0 <= k < |later| ==> later[k] != Forget(f);
  }

  lemma HandlingMeansEnvelope(t: State, d: nat)
    requires Inv(t) && d < |t.deliveries| && t.deliveries[d].pc.Handling?
    ensures t.deliveries[d].job.payload.Envelope?
  {
    hide ServerInv, OriginInv, HandOutInv, LinkInv;
    assert DeliveryInv(t, t.deliveries[d]);
  }

  lemma FlaggedNeverHandles(t: State, later: seq<Action>, d: nat, f: FailureId)
    requires Reachable(t) && f in t.records && d < |t.deliveries| && FailureIdOf(t.deliveries[d].job.payload) == f
    requires t.deliveries[d].job.possiblyRedelivered && t.deliveries[d].pc.Looking?
    requires Play(t, later).Some? && forall k :: 0 <= k < |later| ==> later[k] != Forget(f)
    ensures d < |Play(t, later).value.deliveries| && !Play(t, later).value.deliveries[d].pc.Handling?
  {
    JobsStay(t, later, d);
    SuppressedOnceRecorded(t, later, f);
    hide Play, Reachable;
  }

  lemma HandlerNeedsUnflaggedEnvelope(t: State, later: seq<Action>, d: nat, f: FailureId)
    requires Reachable(t) && f in t.records && d < |t.deliveries| && FailureIdOf(t.deliveries[d].job.payload) == f
    requires t.deliveries[d].pc == Begin(t.deliveries[d].job)
    requires Play(t, later).Some? && forall k :: 0 <= k < |later| ==> later[k] != Forget(f)
    requires d < |Play(t, later).value.deliveries| && Play(t, later).value.deliveries[d].pc.Handling?
    ensures !t.deliveries[d].job.possiblyRedelivered && t.deliveries[d].job.payload.Envelope?
  {
    hide Inv, Play;
    JobsStay(t, later, d);
    ReachableInv(t);
    RunsKeepInv(t, later);
    HandlingMeansEnvelope(Play(t, later).value, d);
    if t.deliveries[d].job.possiblyRedelivered {
      FlaggedNeverHandles(t, later, d, f);
    }
  }

  /** With fresh job ids, an unflagged reply that arrives when a record for its job has been stored belongs to an
      entry that was taken over while that very reply was under way. */
  lemma UnflaggedAfterSaveWasTakenOver(s: State, h: nat, clock: int)
    requires Reachable(s) && FreshJobs(s) && Enabled(s, Receive(h, clock)) && !s.handOuts[h].takenOver
    requires FailureIdOf(s.published[s.handOuts[h].entry]) in s.everSaved
    ensures h in s.unread
    ensures exists g :: h < g < |s.handOuts| && s.handOuts[g].takenOver && s.handOuts[g].entry == s.handOuts[h].entry
  {
    ReachableInv(s);
    var e := s.handOuts[h].entry;
    assert !HandedOutBefore(s, e, h);
    assert StartedFor(s, FailureIdOf(s.published[e]));
    var c :| 0 <= c < |s.deliveries| && FailureIdOf(s.deliveries[c].job.payload) == FailureIdOf(s.published[e]);
    assert DeliveryInv(s, s.deliveries[c]);
    assert s.deliveries[c].entry == e;
    var g := s.deliveries[c].handOut;
    assert s.handOuts[g].entry == e && g != h;
    assert HandedOutBefore(s, e, g);
  }

  /** And that does happen: consumer 2 takes the entry over and records its failure while the reply to
      consumer 1 is still under way; consumer 1 then runs the handler although the record exists. */
  lemma LateReplyRunsHandlerAgain()
    ensures exists t :: Reachable(t) && FreshJobs(t) && RunsHandlerAfterSave(t)
  {
    ReadIsUnread();
    TakenOverWhileUnread();
    OtherReceives();
    OtherHandles();
    RecordedByTheOther();
    var s := Recorded();
    var t := s;
    t := Follow(t, Receive(0, 0));
    t := Follow(t, Resolve(1, Bound));
    assert FreshJobs(t) && RunsHandlerAfterSave(t);
  }

  predicate RunsHandlerAfterSave(t: State) {
    && |t.deliveries| == 2
    && !t.deliveries[1].job.possiblyRedelivered && t.deliveries[1].pc == Handling
    && FailureIdOf(t.deliveries[1].job.payload) in t.records
  }

  const SAMPLE := Envelope(7, "r", 1, [])

  /** One entry, read by consumer 1 and then taken over by consumer 2; neither has seen its reply. */
  function BothUnread(): State {
    State(1, Server(map[1 := SAMPLE], 2, 1, map[1 := Pending(2, 1)]),
          map[1 := Consumer(false, map[]), 2 := Consumer(false, map[])],
          [], map[], {0, 1}, {}, {}, map[1 := SAMPLE], [HandOut(1, 1, false), HandOut(1, 2, true)], {}, {})
  }

  /** Consumer 2 has received the entry, run its handler in vain and stored the record. */
  function Recorded(): State {
    var job := Job(SAMPLE, true, 0);
    var record := RecordFor(job, ExecutionResult(1, Some(HandlerError)));
    BothUnread().(
      consumers := map[1 := Consumer(false, map[]), 2 := Consumer(false, map[1 := 0])],
      unread := {0},
      deliveries := [Delivery(1, 1, 2, job, Saving(record), Inserted, true)],
      records := map[OfJob(7) := record],
      everSaved := {OfJob(7)})
  }

  lemma Follow(s: State, a: Action) returns (t: State)
    requires Reachable(s) && Enabled(s, a)
    ensures t == Apply(s, a) && Reachable(t)
  {
    var actions :| Play(Initial(), actions) == Some(s);
    t := Apply(s, a);
    assert (actions + [a])[..|actions|] == actions;
    assert Play(Initial(), actions + [a]) == Some(t);
  }

  /** Consumer 1 has been handed the entry and has not seen the reply. */
  function OneUnread(): State {
    BothUnread().(now := 0, server := Server(map[1 := SAMPLE], 2, 1, map[1 := Pending(1, 0)]), unread := {0},
        handOuts := [HandOut(1, 1, false)])
  }

  lemma ReadIsUnread()
    ensures Reachable(OneUnread())
  {
    var t := Initial();
    assert Play(t, []) == Some(t);
    t := Follow(t, Join(1));
    t := Follow(t, Join(2));
    t := Follow(t, Publish(SAMPLE));
    assert NextNew(t.server) == Some(1);
    t := Follow(t, ReadNew(1));
    assert t == OneUnread();
  }

  lemma TakenOverWhileUnread()
    requires Reachable(OneUnread())
    ensures Reachable(BothUnread())
  {
    var t := Follow(OneUnread(), Tick);
    t := Follow(t, TakeOver(2, 1, 1));
    assert t == BothUnread();
  }

  /** Consumer 2 is running the handler. */
  function OtherIsHandling(): State {
    Recorded().(deliveries := [Delivery(1, 1, 2, Job(SAMPLE, true, 0), Handling, Idle, true)], records := map[],
        everSaved := {})
  }

  /** Consumer 2 has received the entry. */
  function OtherHasReceived(): State {
    OtherIsHandling().(deliveries := [Delivery(1, 1, 2, Job(SAMPLE, true, 0), Looking, Idle, false)])
  }

  lemma OtherReceives()
    requires Reachable(BothUnread())
    ensures Reachable(OtherHasReceived())
  {
    var t := Follow(BothUnread(), Receive(1, 0));
    assert t == OtherHasReceived();
  }

  lemma OtherHandles()
    requires Reachable(OtherHasReceived())
    ensures Reachable(OtherIsHandling())
  {
    var t := OtherHasReceived();
    t := Follow(t, Find(0));
    t := Follow(t, Resolve(0, Bound));
    assert t == OtherIsHandling();
  }

  lemma RecordedByTheOther()
    requires Reachable(OtherIsHandling())
    ensures Reachable(Recorded())
  {
    var t := OtherIsHandling();
    t := Follow(t, RunHandler(0, ExecutionResult(1, Some(HandlerError))));
    t := Follow(t, SendInsert(0));
    t := Follow(t, CommitInsert(0));
    assert t == Recorded();
  }
}
