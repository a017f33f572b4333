/**
 The at-least-once pipeline over Kafka: the consumer group together with the executor and the failure store.  The
 group moves by its own steps; a commit is sent only by a task whose execution has come to that point.
 */
module KafkaPipeline {
  import opened Common
  import opened JobExecution
  import opened KafkaDriver
  import FailedStore
  import G = KafkaGroup

  /** A record of the log. */
  type Key = (Partition, Offset)

  /** The insert a task has in flight, if any. */
  datatype Insert = NoInsert | Inserting | Inserted(conflict: bool)

  /** The task executing a delivery of the group, which has the same index. */
  datatype Task = Task(job: Job, pc: Pc, io: Insert)

  datatype State = State(
    group: G.State,
    payloads: map<Key, Wire>,
    tasks: seq<Task>,
    records: FailedStore.Rows,
    strays: set<Record>,             // inserts sent by tasks that are gone
    handled: set<Key>,               // history: records whose handler succeeded
    everSaved: set<FailureId>)       // history: failure ids ever recorded

  datatype Action =
    | Publish(p: Partition, gap: nat, payload: Wire)
    | Group(step: G.Action)
    | Receive(m: G.MemberId, p: Partition, offset: Offset, clock: int)
    | Find(d: nat)
    | Resolve(d: nat, answer: Answer)
    | RunHandler(d: nat, result: ExecutionResult)
    | SendInsert(d: nat)
    | CommitInsert(d: nat)
    | FinishSave(d: nat)
    | SendCommit(d: nat)
    | FinishCommit(d: nat)
    | Cancel(d: nat)
    | StrayInsert(record: Record)
    | Forget(failureId: FailureId)

  function Initial(partitions: set<Partition>): State {
    State(G.Initial(partitions), map[], [], map[], {}, {}, {})
  }

  /** The group steps that concern no task. */
  predicate OfTheGroup(step: G.Action) {
    step.NewMember? || step.Revoke? || step.Rebalance? || step.Assign? || step.AcceptCommit? || step.Close?
  }

  /** The step of the group an action contains, if any. */
  function StepOf(a: Action): Option<G.Action> {
    match a
    case Publish(p, gap, _) => Some(G.Produce(p, gap))
    case Group(step) => Some(step)
    case Receive(m, p, offset, _) => Some(G.Fetch(m, p, offset))
    case SendCommit(d) => Some(G.SendCommit(d))
    case FinishCommit(d) => Some(G.FinishCommit(d))
    case Cancel(d) => Some(G.Cancel(d))
    case _ => None
  }

  /** The task an action moves on, if any. */
  function Subject(a: Action): Option<nat> {
    match a
    case Find(d) => Some(d)
    case Resolve(d, _) => Some(d)
    case RunHandler(d, _) => Some(d)
    case SendInsert(d) => Some(d)
    case CommitInsert(d) => Some(d)
    case FinishSave(d) => Some(d)
    case SendCommit(d) => Some(d)
    case FinishCommit(d) => Some(d)
    case Cancel(d) => Some(d)
    case _ => None
  }

  /** The program point at which a task takes the action. */
  predicate Ready(s: State, x: Task, a: Action) {
    match a
    case Find(_) => x.pc.Looking?
    case Resolve(_, answer) => x.pc.Resolving? && answer in {Bound, NoSuchJob, NoSuchVersion}
    case RunHandler(_, _) => x.pc.Handling?
    case SendInsert(_) => x.pc.Saving? && x.io.NoInsert?
    case CommitInsert(_) => x.pc.Saving? && x.io.Inserting?
    case FinishSave(_) => x.pc.Saving? && x.io.Inserted?
    case SendCommit(_) => x.pc.Settling?
    case FinishCommit(_) => x.pc.Settling?
    case Cancel(_) => !x.pc.Done? && !x.pc.Dead?
    case _ => true
  }

  function KeyOf(s: State, d: nat): Key
    requires d < |s.group.deliveries|
  {
    (s.group.deliveries[d].partition, s.group.deliveries[d].offset)
  }

  ghost predicate Enabled(s: State, a: Action) {
    && (StepOf(a).Some? ==> G.Enabled(s.group, StepOf(a).value))
    && (Subject(a).Some? ==>
          var d := Subject(a).value;
          d < |s.tasks| && d < |s.group.deliveries| && Ready(s, s.tasks[d], a))
    && match a
       case Group(step) => OfTheGroup(step)
       case Receive(_, p, offset, _) => (p, offset) in s.payloads
       case StrayInsert(record) => record in s.strays
       case _ => true
  }

  function Answered(x: Task, answer: Answer): Task {
    Task(x.job, Next(x.job, x.pc, answer), NoInsert)
  }

  /** The task as its action leaves it. */
  ghost function Moved(s: State, a: Action): Task
    requires Enabled(s, a) && Subject(a).Some?
  {
    var x := s.tasks[Subject(a).value];
    match a
    case Find(_) => Answered(x, if FailureIdOf(x.job.payload) in s.records then Found else Missing)
    case Resolve(_, answer) => Answered(x, answer)
    case RunHandler(_, result) => Answered(x, Ran(result))
    case SendInsert(_) => x.(io := Inserting)
    case CommitInsert(_) => x.(io := Inserted(x.pc.record.failureId in s.records))
    case FinishSave(_) => Answered(x, if x.io.conflict && x.pc.record.failureId !in s.records then Failure else Stored)
    case SendCommit(d) =>
      // An outdated delivery raises at once.
      if G.Moved(s.group, G.SendCommit(d)).gone then Answered(x, Failure) else x
    case FinishCommit(d) => Answered(x, if G.Settles(s.group, d) then Acked else Failure)
    case Cancel(_) => x.(pc := Dead, io := NoInsert)
  }

  ghost function TasksAfter(s: State, a: Action): seq<Task>
    requires Enabled(s, a)
  {
    if Subject(a).Some? then s.tasks[Subject(a).value := Moved(s, a)]
    else if a.Receive? && G.Delivers(s.group, G.Fetch(a.m, a.p, a.offset)) then
      var job := Job(s.payloads[(a.p, a.offset)], a.p !in s.group.members[a.m].driver.trusted, a.clock);
      s.tasks + [Task(job, Begin(job), NoInsert)]
    else s.tasks
  }

  function Save(s: State, record: Record): State {
    s.(records := FailedStore.InsertRow(s.records, record), everSaved := s.everSaved + {record.failureId})
  }

  /** What an action changes at the store and in the history. */
  ghost function StoreAfter(s: State, a: Action): State
    requires Enabled(s, a)
  {
    match a
    case Publish(p, gap, payload) => s.(payloads := s.payloads[(p, s.group.ends[p] + gap) := payload])
    case RunHandler(d, result) => if result.failure.None? then s.(handled := s.handled + {KeyOf(s, d)}) else s
    case CommitInsert(d) => Save(s, s.tasks[d].pc.record)
    case Cancel(d) =>
      var x := s.tasks[d];
      if x.io.Inserting? && x.pc.Saving? then s.(strays := s.strays + {x.pc.record}) else s
    case StrayInsert(record) => Save(s, record).(strays := s.strays - {record})
    case Forget(failureId) => s.(records := s.records - {failureId})
    case _ => s
  }

  ghost function GroupAfter(s: State, a: Action): G.State
    requires Enabled(s, a)
  {
    if StepOf(a).Some? then G.Apply(s.group, StepOf(a).value) else s.group
  }

  ghost function Apply(s: State, a: Action): State
    requires Enabled(s, a)
  {
    StoreAfter(s, a).(group := GroupAfter(s, a), tasks := TasksAfter(s, a))
  }

  ghost function Play(s: State, actions: seq<Action>): Option<State>
    decreases |actions|
  {
    if actions == [] then Some(s)
    else
      var t := Play(s, actions[..|actions| - 1]);
      var a := actions[|actions| - 1];
      if t.Some? && Enabled(t.value, a) then Some(Apply(t.value, a)) else None
  }

  ghost predicate Reachable(s: State) {
    exists partitions, actions :: Play(Initial(partitions), actions) == Some(s)
  }

  // ---- The invariant ---------------------------------------------------------------------------

  /** The record's handler succeeded, or a failure record was stored under its failure id. */
  predicate Justified(s: State, x: Key) {
    x in s.payloads && (x in s.handled || FailureIdOf(s.payloads[x]) in s.everSaved)
  }

  ghost predicate PayloadsInv(s: State) {
    && (forall x :: x in s.payloads ==> x.0 in s.group.ends && x.1 < s.group.ends[x.0])
    && (forall p: Partition, o: Offset :: G.HasRecord(s.group, p, o) ==> (p, o) in s.payloads)
  }

  predicate TaskInv(s: State, x: Task, key: Key, sent: bool) {
    && key in s.payloads && x.job.payload == s.payloads[key]
    && (x.pc.Settling? || x.pc.Done? || sent ==> Justified(s, key))
    && (x.pc.Saving? ==> x.pc.record.failureId == FailureIdOf(x.job.payload))
    && (!x.io.NoInsert? ==> x.pc.Saving?)
    && (x.io.Inserted? ==> FailureIdOf(x.job.payload) in s.everSaved)
    && (x.job.payload.Malformed? ==> !x.pc.Resolving? && !x.pc.Handling?)
  }

  predicate TaskHolds(s: State, d: nat)
    requires |s.tasks| == |s.group.deliveries| && d < |s.tasks|
  {
    TaskInv(s, s.tasks[d], KeyOf(s, d), !s.group.deliveries[d].commit.NotSent?)
  }

  ghost predicate TasksInv(s: State) {
    |s.tasks| == |s.group.deliveries| && forall d :: 0 <= d < |s.tasks| ==> TaskHolds(s, d)
  }

  ghost predicate HistoryInv(s: State) {
    && (forall f :: f in s.records ==> f in s.everSaved)
    && (forall x :: x in s.group.acknowledged ==> Justified(s, x))
  }

  ghost predicate Inv(s: State) {
    G.Inv(s.group) && PayloadsInv(s) && TasksInv(s) && HistoryInv(s)
  }

  /** History only grows. */
  ghost predicate Grows(s: State, t: State) {
    && (forall x :: x in s.payloads ==> x in t.payloads && t.payloads[x] == s.payloads[x])
    && s.handled <= t.handled && s.everSaved <= t.everSaved
  }

  lemma JustifiedStays(s: State, t: State, x: Key)
    requires Grows(s, t) && Justified(s, x)
    ensures Justified(t, x)
  {
  }

  lemma StepGrows(s: State, a: Action)
    requires Enabled(s, a) && PayloadsInv(s)
    ensures Grows(s, Apply(s, a))
  {
    hide G.Apply, G.Enabled, G.HasRecord, TasksAfter, FailedStore.InsertRow;
  }

  /** What a step of the group does to its log and its history. */
  lemma GroupStepAtLog(g: G.State, step: G.Action)
    requires G.Enabled(g, step)
    ensures var h := G.Apply(g, step);
      if step.Produce? then
        h.log == g.log[step.p := g.log[step.p] + {g.ends[step.p] + step.gap}]
            && h.ends == g.ends[step.p := g.ends[step.p] + step.gap + 1]
      else h.log == g.log && h.ends == g.ends
    ensures forall x :: x in G.Apply(g, step).acknowledged ==>
      x in g.acknowledged || (step.AcceptCommit? && x == (g.deliveries[step.d].partition, g.deliveries[step.d].offset))
  {
    hide G.NoneBetween, G.ActorAfter, G.DeliveriesAfter;
  }

  /** What a step of the group does to the deliveries that exist. */
  lemma GroupStepAtDelivery(g: G.State, step: G.Action, k: nat)
    requires G.Enabled(g, step) && k < |g.deliveries|
    ensures k < |G.Apply(g, step).deliveries|
    ensures var x, y := g.deliveries[k], G.Apply(g, step).deliveries[k];
      y.partition == x.partition && y.offset == x.offset
          && (!y.commit.NotSent? ==> !x.commit.NotSent? || step == G.SendCommit(k))
  {
    hide G.NoneBetween, G.ActorAfter, G.BrokerAfter;
  }

  lemma GroupStepCounts(g: G.State, step: G.Action)
    requires G.Enabled(g, step)
    ensures |G.Apply(g, step).deliveries| == |g.deliveries| + if G.Delivers(g, step) then 1 else 0
    ensures G.Delivers(g, step) ==>
      var y := G.Apply(g, step).deliveries[|g.deliveries|];
      y.partition == step.p && y.offset == step.offset && y.commit.NotSent?
  {
    hide G.NoneBetween, G.ActorAfter, G.BrokerAfter;
  }

  /** Publishing adds one record, at the end of its partition; nothing else touches log or payloads. */
  lemma StepAtLog(s: State, a: Action)
    requires Enabled(s, a)
    ensures var g, h := s.group, Apply(s, a).group;
      if a.Publish? then
        && a.p in g.ends && a.p in g.log
        && h.log == g.log[a.p := g.log[a.p] + {g.ends[a.p] + a.gap}] && h.ends == g.ends[a.p := g.ends[a.p] + a.gap + 1]
        && Apply(s, a).payloads == s.payloads[(a.p, g.ends[a.p] + a.gap) := a.payload]
      else h.log == g.log && h.ends == g.ends && Apply(s, a).payloads == s.payloads
  {
    assert a.Publish? ==> a.p in s.group.ends && a.p in s.group.log;
    hide G.Apply, G.Enabled, TasksAfter, FailedStore.InsertRow;
    if StepOf(a).Some? {
      GroupStepAtLog(s.group, StepOf(a).value);
    }
  }

  lemma StepKeepsPayloads(s: State, a: Action)
    requires Enabled(s, a) && PayloadsInv(s)
    ensures PayloadsInv(Apply(s, a))
  {
    StepAtLog(s, a);
    hide Apply, Enabled;
    var t := Apply(s, a);
    forall p: Partition, o: Offset | G.HasRecord(t.group, p, o)
      ensures (p, o) in t.payloads
    {
      if !a.Publish? || a.p != p || o != s.group.ends[p] + a.gap {
        assert G.HasRecord(s.group, p, o);
      }
    }
  }

  lemma StepKeepsHistory(s: State, a: Action)
    requires Enabled(s, a) && Inv(s)
    ensures HistoryInv(Apply(s, a))
  {
    StepGrows(s, a);
    RecordsAreSaved(s, a);
    var t := Apply(s, a);
    forall x | x in t.group.acknowledged
      ensures Justified(t, x)
    {
      AcknowledgedIsOldOrSent(s, a, x);
      JustifiedStays(s, t, x);
    }
  }

  lemma RecordsAreSaved(s: State, a: Action)
    requires Enabled(s, a) && HistoryInv(s)
    ensures forall f :: f in Apply(s, a).records ==> f in Apply(s, a).everSaved
  {
    hide G.Apply, G.Enabled, TasksAfter, Justified;
  }

  lemma AcknowledgedIsOldOrSent(s: State, a: Action, x: Key)
    requires Enabled(s, a) && Inv(s) && x in Apply(s, a).group.acknowledged
    ensures Justified(s, x)
  {
    hide G.Apply, G.Inv, TasksAfter, StoreAfter, Justified, PayloadsInv;
    if StepOf(a).Some? && x !in s.group.acknowledged {
      GroupStepAtLog(s.group, StepOf(a).value);
      assert TaskHolds(s, StepOf(a).value.d);
    }
  }

  /** The task's own part of its invariant after its step. */
  lemma MovedTask(s: State, a: Action)
    requires Enabled(s, a) && Inv(s) && Subject(a).Some?
    ensures var d := Subject(a).value;
      && (Moved(s, a).job == s.tasks[d].job)
      && (Moved(s, a).pc.Saving? ==> Moved(s, a).pc.record.failureId == FailureIdOf(Moved(s, a).job.payload))
      && (!Moved(s, a).io.NoInsert? ==> Moved(s, a).pc.Saving?)
      && (Moved(s, a).job.payload.Malformed? ==> !Moved(s, a).pc.Resolving? && !Moved(s, a).pc.Handling?)
  {
    hide G.Apply, G.Inv, G.Enabled, PayloadsInv, HistoryInv;
    assert TaskHolds(s, Subject(a).value);
  }

  lemma FoundIsJustified(s: State, d: nat)
    requires Enabled(s, Find(d)) && Inv(s)
    ensures Moved(s, Find(d)).pc.Settling? || Moved(s, Find(d)).pc.Done? ==> Justified(s, KeyOf(s, d))
  {
    hide G.Apply, G.Inv, G.Enabled, PayloadsInv, TasksAfter, StoreAfter;
    assert TaskHolds(s, d);
  }

  lemma HandledIsJustified(s: State, d: nat, result: ExecutionResult)
    requires Enabled(s, RunHandler(d, result)) && Inv(s)
    ensures Moved(s, RunHandler(d, result)).pc.Settling? || Moved(s, RunHandler(d, result)).pc.Done? ==>
      Justified(Apply(s, RunHandler(d, result)), KeyOf(s, d))
  {
    hide G.Apply, G.Inv, G.Enabled, PayloadsInv, HistoryInv, TasksAfter;
    assert TaskHolds(s, d);
  }

  lemma SettledIsJustified(s: State, a: Action)
    requires Enabled(s, a) && Inv(s) && Subject(a).Some? && !a.Find? && !a.RunHandler?
    ensures Moved(s, a).pc.Settling? || Moved(s, a).pc.Done? ==> Justified(s, KeyOf(s, Subject(a).value))
  {
    hide G.Apply, G.Inv, G.Enabled, PayloadsInv, HistoryInv, TasksAfter, StoreAfter;
    assert TaskHolds(s, Subject(a).value);
  }

  /** Whatever lets the task settle has been secured by the same step or before. */
  lemma MovedIsJustified(s: State, a: Action)
    requires Enabled(s, a) && Inv(s) && Subject(a).Some?
    ensures Moved(s, a).pc.Settling? || Moved(s, a).pc.Done? ==> Justified(Apply(s, a), KeyOf(s, Subject(a).value))
  {
    StepGrows(s, a);
    match a
    case Find(d) => FoundIsJustified(s, d);
    case RunHandler(d, result) => HandledIsJustified(s, d, result);
    case _ => SettledIsJustified(s, a);
    hide Apply, Inv, Enabled, Moved;
  }

  lemma InsertedIsSaved(s: State, a: Action)
    requires Enabled(s, a) && Inv(s) && Subject(a).Some?
    ensures Moved(s, a).io.Inserted? ==> FailureIdOf(s.tasks[Subject(a).value].job.payload) in Apply(s, a).everSaved
  {
    hide G.Apply, G.Inv, G.Enabled, PayloadsInv, HistoryInv, TasksAfter, FailedStore.InsertRow, Next, Justified;
    assert TaskHolds(s, Subject(a).value);
  }

  lemma SubjectKeepsInv(s: State, a: Action)
    requires Enabled(s, a) && Inv(s) && Subject(a).Some?
    ensures var d := Subject(a).value;
      |Apply(s, a).tasks| == |Apply(s, a).group.deliveries| ==> TaskHolds(Apply(s, a), d)
  {
    var d := Subject(a).value;
    StepGrows(s, a);
    MovedTask(s, a);
    MovedIsJustified(s, a);
    InsertedIsSaved(s, a);
    assert TaskHolds(s, d);
    if StepOf(a).Some? {
      GroupStepAtDelivery(s.group, StepOf(a).value, d);
    }
    hide G.Apply, G.Inv, G.Enabled, PayloadsInv, HistoryInv, StoreAfter, Moved;
    assert a.SendCommit? ==> s.tasks[d].pc.Settling?;
  }

  lemma TaskInvStays(s: State, t: State, x: Task, key: Key, before: bool, after: bool)
    requires Grows(s, t) && TaskInv(s, x, key, before) && (after ==> before)
    ensures TaskInv(t, x, key, after)
  {
  }

  lemma OtherTasksStay(s: State, a: Action, d: nat)
    requires Enabled(s, a) && d < |s.tasks| && Subject(a) != Some(d)
    ensures d < |Apply(s, a).tasks| && Apply(s, a).tasks[d] == s.tasks[d]
  {
    hide G.Apply, G.Enabled, StoreAfter, Moved;
  }

  lemma StepAtDelivery(s: State, a: Action, d: nat)
    requires Enabled(s, a) && d < |s.group.deliveries|
    ensures d < |Apply(s, a).group.deliveries| && KeyOf(Apply(s, a), d) == KeyOf(s, d)
    ensures !Apply(s, a).group.deliveries[d].commit.NotSent? ==>
            !s.group.deliveries[d].commit.NotSent? || a == SendCommit(d)
  {
    hide G.Apply, TasksAfter, StoreAfter;
    if StepOf(a).Some? {
      GroupStepAtDelivery(s.group, StepOf(a).value, d);
    }
  }

  lemma OthersKeepInv(s: State, a: Action, d: nat)
    requires Enabled(s, a) && Inv(s) && d < |s.tasks| && Subject(a) != Some(d)
    requires |Apply(s, a).tasks| == |Apply(s, a).group.deliveries|
    ensures d < |Apply(s, a).tasks| && TaskHolds(Apply(s, a), d)
  {
    StepGrows(s, a);
    OtherTasksStay(s, a, d);
    StepAtDelivery(s, a, d);
    assert TaskHolds(s, d);
    hide Apply, Enabled, G.Inv, PayloadsInv, HistoryInv, TaskInv, Grows;
    TaskInvStays(s, Apply(s, a), s.tasks[d], KeyOf(s, d),
                 !s.group.deliveries[d].commit.NotSent?, !Apply(s, a).group.deliveries[d].commit.NotSent?);
  }

  lemma NewTaskHolds(s: State, a: Action)
    requires Enabled(s, a) && Inv(s)
    requires |Apply(s, a).tasks| == |Apply(s, a).group.deliveries| == |s.tasks| + 1
    ensures TaskHolds(Apply(s, a), |s.tasks|)
  {
    hide G.Apply, G.Inv, G.Enabled, HistoryInv, Moved;
    GroupStepCounts(s.group, StepOf(a).value);
  }

  lemma StepKeepsCount(s: State, a: Action)
    requires Enabled(s, a) && Inv(s)
    ensures |Apply(s, a).tasks| == |Apply(s, a).group.deliveries|
    ensures |s.tasks| <= |Apply(s, a).tasks| <= |s.tasks| + 1
  {
    hide G.Apply, G.Inv, G.Enabled, HistoryInv, PayloadsInv, Moved, StoreAfter;
    if StepOf(a).Some? {
      GroupStepCounts(s.group, StepOf(a).value);
    }
  }

  lemma EachTaskHolds(s: State, a: Action, d: nat)
    requires Enabled(s, a) && Inv(s) && |Apply(s, a).tasks| == |Apply(s, a).group.deliveries|
    requires |s.tasks| <= |Apply(s, a).tasks| <= |s.tasks| + 1 && d < |Apply(s, a).tasks|
    ensures TaskHolds(Apply(s, a), d)
  {
    hide Apply, Enabled, Inv, TaskHolds;
    if Subject(a) == Some(d) {
      SubjectKeepsInv(s, a);
    } else if d < |s.tasks| {
      OthersKeepInv(s, a, d);
    } else {
      NewTaskHolds(s, a);
    }
  }

  lemma StepKeepsTasks(s: State, a: Action)
    requires Enabled(s, a) && Inv(s)
    ensures TasksInv(Apply(s, a))
  {
    StepKeepsCount(s, a);
    hide Apply, Enabled, Inv, TaskHolds;
    forall d | 0 <= d < |Apply(s, a).tasks|
      ensures TaskHolds(Apply(s, a), d)
    {
      EachTaskHolds(s, a, d);
    }
  }

  lemma StepKeepsGroup(s: State, a: Action)
    requires Enabled(s, a) && G.Inv(s.group)
    ensures G.Inv(Apply(s, a).group)
  {
    hide G.Apply, G.Inv, TasksAfter, StoreAfter;
    if StepOf(a).Some? {
      G.StepKeepsInv(s.group, StepOf(a).value);
    }
  }

  lemma StepKeepsInv(s: State, a: Action)
    requires Enabled(s, a) && Inv(s)
    ensures Inv(Apply(s, a))
  {
    StepKeepsGroup(s, a);
    StepKeepsPayloads(s, a);
    StepKeepsTasks(s, a);
    StepKeepsHistory(s, a);
  }

  lemma {:induction false} RunsKeepInv(s: State, actions: seq<Action>)
    requires Inv(s) && Play(s, actions).Some?
    ensures Inv(Play(s, actions).value)
    decreases |actions|
  {
    hide Inv, Apply, Enabled;
    if actions == [] {
    } else {
      RunsKeepInv(s, actions[..|actions| - 1]);
      StepKeepsInv(Play(s, actions[..|actions| - 1]).value, actions[|actions| - 1]);
    }
  }

  lemma ReachableKeepsInv(s: State)
    requires Reachable(s)
    ensures Inv(s)
  {
    var partitions, actions :| Play(Initial(partitions), actions) == Some(s);
    assert Inv(Initial(partitions));
    RunsKeepInv(Initial(partitions), actions);
  }

  // ---- Main results ----------------------------------------------------------------------------

  /** Nothing is acknowledged without cause: whenever a commit has been accepted for a record, the record's handler
      had succeeded, or a failure record had been stored under its failure id. */
  lemma AcknowledgedWithCause(s: State, p: Partition, o: Offset)
    requires Reachable(s) && (p, o) in s.group.acknowledged
    ensures Justified(s, (p, o))
  {
    ReachableKeepsInv(s);
  }

  lemma StepKeepsLog(s: State, a: Action, p: Partition, o: Offset)
    requires Enabled(s, a) && Inv(s) && G.HasRecord(s.group, p, o)
    ensures G.HasRecord(Apply(s, a).group, p, o)
  {
    hide G.Apply, G.Inv, TasksAfter, StoreAfter;
    if StepOf(a).Some? {
      GroupStepAtLog(s.group, StepOf(a).value);
    }
  }

  lemma {:induction false} LogStays(s: State, later: seq<Action>, p: Partition, o: Offset)
    requires Inv(s) && G.HasRecord(s.group, p, o) && Play(s, later).Some?
    ensures G.HasRecord(Play(s, later).value.group, p, o) && Grows(s, Play(s, later).value)
    decreases |later|
  {
    hide Inv, Apply, Enabled, G.HasRecord;
    if later == [] {
    } else {
      var t, a := Play(s, later[..|later| - 1]).value, later[|later| - 1];
      LogStays(s, later[..|later| - 1], p, o);
      RunsKeepInv(s, later[..|later| - 1]);
      StepKeepsLog(t, a, p, o);
      PayloadsOf(t);
      StepGrows(t, a);
    }
  }

  lemma PayloadsOf(s: State)
    requires Inv(s)
    ensures PayloadsInv(s)
  {
  }

  /** Conservation: in every run, with any number of members, rebalances, lost replies, cancellations and failed saves,
      a record ever published is, at every later point, still ahead of the committed offset, or its handler has
      succeeded or its failure has been recorded. */
  lemma NoJobVanishes(s: State, later: seq<Action>, p: Partition, o: Offset)
    requires Reachable(s) && G.HasRecord(s.group, p, o) && Play(s, later).Some?
    ensures var t := Play(s, later).value;
      && (p, o) in s.payloads && (p, o) in t.payloads && t.payloads[(p, o)] == s.payloads[(p, o)]
      && p in t.group.committed && (t.group.committed[p] <= o || Justified(t, (p, o)))
  {
    ReachableKeepsInv(s);
    RunsKeepInv(s, later);
    LogStays(s, later, p, o);
    assert G.PartitionInv(Play(s, later).value.group, p);
  }

  /** The flagged task has not passed its duplicate check, or does not exist yet. */
  predicate ChecksLater(s: State, d: nat) {
    d < |s.tasks| ==> s.tasks[d].pc.Looking?
  }

  predicate OnlyAcknowledges(x: Task) {
    x.pc in {Looking, Settling(AlreadyRecorded), Done, Dead}
  }

  /** Seen from `s`: in `t` the record of `f` is as it was, and no flagged task of that failure id whose duplicate check
      was still to come has come to its handler. */
  ghost predicate Suppressed(s: State, t: State, f: FailureId)
    requires f in s.records
  {
    && f in t.records && t.records[f] == s.records[f] && |s.tasks| <= |t.tasks|
    && forall d :: 0 <= d < |t.tasks| && ChecksLater(s, d)
                   && t.tasks[d].job.possiblyRedelivered && FailureIdOf(t.tasks[d].job.payload) == f ==>
         OnlyAcknowledges(t.tasks[d])
  }

  lemma SuppressedTask(t: State, a: Action, f: FailureId)
    requires Enabled(t, a) && Subject(a).Some? && f in t.records
    requires OnlyAcknowledges(t.tasks[Subject(a).value]) && FailureIdOf(t.tasks[Subject(a).value].job.payload) == f
    ensures OnlyAcknowledges(Moved(t, a))
  {
    hide G.Apply, G.Enabled;
  }

  lemma RecordStays(t: State, a: Action, f: FailureId)
    requires Enabled(t, a) && f in t.records && a != Forget(f)
    ensures f in Apply(t, a).records && Apply(t, a).records[f] == t.records[f]
  {
    hide G.Apply, G.Enabled, TasksAfter;
  }

  lemma NewTaskBegins(t: State, a: Action)
    requires Enabled(t, a) && |Apply(t, a).tasks| > |t.tasks|
    ensures var x := Apply(t, a).tasks[|t.tasks|]; x.job.possiblyRedelivered ==> x.pc.Looking?
  {
    hide G.Apply, G.Enabled, StoreAfter, Moved;
  }

  lemma SuppressedStays(s: State, t: State, a: Action, f: FailureId)
    requires f in s.records && Suppressed(s, t, f) && Inv(t) && Enabled(t, a) && a != Forget(f)
    ensures Suppressed(s, Apply(t, a), f)
  {
    RecordStays(t, a, f);
    StepKeepsCount(t, a);
    var u := Apply(t, a);
    forall d | 0 <= d < |u.tasks| && ChecksLater(s, d)
               && u.tasks[d].job.possiblyRedelivered && FailureIdOf(u.tasks[d].job.payload) == f
      ensures OnlyAcknowledges(u.tasks[d])
    {
      if d == |t.tasks| {
        NewTaskBegins(t, a);
      } else if Subject(a) == Some(d) {
        MovedTask(t, a);
        SubjectMoves(t, a);
        SuppressedTask(t, a, f);
      } else {
        OtherTasksStay(t, a, d);
      }
    }
    hide Apply, Inv, Enabled, OnlyAcknowledges, ChecksLater;
  }

  lemma SubjectMoves(s: State, a: Action)
    requires Enabled(s, a) && Subject(a).Some?
    ensures Subject(a).value < |Apply(s, a).tasks| && Apply(s, a).tasks[Subject(a).value] == Moved(s, a)
  {
    hide G.Apply, G.Enabled, StoreAfter, Moved;
  }

  /** While a failure record exists it never changes, and no flagged delivery of its job whose duplicate check comes
      later runs the handler: it only acknowledges. */
  lemma {:induction false} SuppressedOnceRecorded(s: State, later: seq<Action>, f: FailureId)
    requires Reachable(s) && f in s.records && Play(s, later).Some?
    requires forall k :: 0 <= k < |later| ==> later[k] != Forget(f)
    ensures Suppressed(s, Play(s, later).value, f)
    decreases |later|
  {
    hide Inv, Apply, Enabled;
    if later == [] {
    } else {
      ReachableKeepsInv(s);
      SuppressedOnceRecorded(s, later[..|later| - 1], f);
      RunsKeepInv(s, later[..|later| - 1]);
      SuppressedStays(s, Play(s, later[..|later| - 1]).value, later[|later| - 1], f);
    }
  }

  /** The execution has returned exactly if its delivery is settled, and then its commit was accepted. */
  predicate ReturnHolds(x: Task, y: G.Delivery) {
    (x.pc.Done? <==> y.settled) && (y.settled ==> y.gone && y.commit == G.Answered(true))
  }

  ghost predicate ReturnInv(s: State) {
    && |s.tasks| == |s.group.deliveries|
    && forall d :: 0 <= d < |s.tasks| ==> ReturnHolds(s.tasks[d], s.group.deliveries[d])
  }

  lemma NewReturnHolds(s: State, a: Action)
    requires Enabled(s, a) && Inv(s) && ReturnInv(s)
    requires |Apply(s, a).tasks| == |Apply(s, a).group.deliveries| == |s.tasks| + 1
    ensures ReturnHolds(Apply(s, a).tasks[|s.tasks|], Apply(s, a).group.deliveries[|s.tasks|])
  {
    hide G.Inv, G.NoneBetween, G.BrokerAfter, G.ActorAfter, PayloadsInv, HistoryInv, TasksInv, Moved, G.Moved,
        StoreAfter;
  }

  lemma GroupStepAtReturn(g: G.State, step: G.Action, k: nat)
    requires G.Enabled(g, step) && k < |g.deliveries|
    ensures k < |G.Apply(g, step).deliveries|
    ensures var x, y := g.deliveries[k], G.Apply(g, step).deliveries[k];
      if step == G.FinishCommit(k) then y == x.(settled := G.Settles(g, k), gone := true)
      else
        && y.settled == x.settled && (x.gone ==> y.gone)
        && (x.commit.Answered? ==> y.commit == x.commit)
  {
    hide G.NoneBetween, G.ActorAfter, G.BrokerAfter;
  }

  lemma SubjectReturns(s: State, a: Action)
    requires Enabled(s, a) && Subject(a).Some?
    ensures Moved(s, a).pc.Done? <==> a.FinishCommit? && G.Settles(s.group, Subject(a).value)
  {
    hide G.Enabled, G.Moved, G.NoneBetween;
  }

  lemma OldReturnHolds(s: State, a: Action, d: nat)
    requires Enabled(s, a) && ReturnInv(s) && d < |s.tasks|
    ensures d < |Apply(s, a).tasks| && d < |Apply(s, a).group.deliveries|
    ensures ReturnHolds(Apply(s, a).tasks[d], Apply(s, a).group.deliveries[d])
  {
    DeliveryAtReturn(s, a, d);
    assert ReturnHolds(s.tasks[d], s.group.deliveries[d]);
    if Subject(a) == Some(d) {
      SubjectMoves(s, a);
      SubjectReturns(s, a);
      ReadyTaskIsOpen(s, a);
    } else {
      OtherTasksStay(s, a, d);
    }
    hide Apply, Enabled, Moved;
  }

  lemma DeliveryAtReturn(s: State, a: Action, d: nat)
    requires Enabled(s, a) && d < |s.group.deliveries|
    ensures d < |Apply(s, a).group.deliveries|
    ensures var x, y := s.group.deliveries[d], Apply(s, a).group.deliveries[d];
      if a == FinishCommit(d) then y == x.(settled := G.Settles(s.group, d), gone := true)
      else y.settled == x.settled && (x.gone ==> y.gone) && (x.commit.Answered? ==> y.commit == x.commit)
  {
    if StepOf(a).Some? {
      GroupStepAtReturn(s.group, StepOf(a).value, d);
    }
    hide G.Apply, G.Enabled, TasksAfter, StoreAfter;
  }

  lemma ReadyTaskIsOpen(s: State, a: Action)
    requires Enabled(s, a) && Subject(a).Some?
    ensures !s.tasks[Subject(a).value].pc.Done?
  {
    hide G.Enabled;
  }

  lemma StepKeepsReturns(s: State, a: Action)
    requires Enabled(s, a) && Inv(s) && ReturnInv(s)
    ensures ReturnInv(Apply(s, a))
  {
    StepKeepsCount(s, a);
    hide Apply, Enabled, Inv, ReturnHolds;
    forall d | 0 <= d < |Apply(s, a).tasks|
      ensures ReturnHolds(Apply(s, a).tasks[d], Apply(s, a).group.deliveries[d])
    {
      EachReturnHolds(s, a, d);
    }
  }

  lemma EachReturnHolds(s: State, a: Action, d: nat)
    requires Enabled(s, a) && Inv(s) && ReturnInv(s) && |Apply(s, a).tasks| == |Apply(s, a).group.deliveries|
    requires |s.tasks| <= |Apply(s, a).tasks| <= |s.tasks| + 1 && d < |Apply(s, a).tasks|
    ensures ReturnHolds(Apply(s, a).tasks[d], Apply(s, a).group.deliveries[d])
  {
    hide Apply, Enabled, Inv, ReturnInv, ReturnHolds;
    if d < |s.tasks| {
      OldReturnHolds(s, a, d);
    } else {
      NewReturnHolds(s, a);
    }
  }

  lemma {:induction false} RunsKeepReturns(s: State, actions: seq<Action>)
    requires Inv(s) && ReturnInv(s) && Play(s, actions).Some?
    ensures ReturnInv(Play(s, actions).value)
    decreases |actions|
  {
    hide Inv, ReturnInv, Apply, Enabled;
    if actions == [] {
    } else {
      RunsKeepReturns(s, actions[..|actions| - 1]);
      RunsKeepInv(s, actions[..|actions| - 1]);
      StepKeepsReturns(Play(s, actions[..|actions| - 1]).value, actions[|actions| - 1]);
    }
  }

  lemma InitialReturns(partitions: set<Partition>)
    ensures Inv(Initial(partitions)) && ReturnInv(Initial(partitions))
  {
  }

  /** `execute` returns exactly for settled deliveries, and whatever it has returned for is behind the committed offset,
      acknowledged, and not delivered to anyone who joins from then on. */
  lemma ReturnMeansAcknowledged(s: State, d: nat)
    requires Reachable(s) && d < |s.tasks|
    ensures d < |s.group.deliveries| && (s.tasks[d].pc.Done? <==> s.group.deliveries[d].settled)
    ensures var x := s.group.deliveries[d];
      s.tasks[d].pc.Done? ==>
        KeyOf(s, d) in s.group.acknowledged && x.partition in s.group.committed
        && x.offset < s.group.committed[x.partition]
  {
    var partitions, actions :| Play(Initial(partitions), actions) == Some(s);
    InitialReturns(partitions);
    RunsKeepReturns(Initial(partitions), actions);
    ReachableKeepsInv(s);
    assert ReturnHolds(s.tasks[d], s.group.deliveries[d]);
    assert G.DeliveryInv(s.group, s.group.deliveries[d]);
    assert G.PartitionInv(s.group, s.group.deliveries[d].partition);
    hide Play, Reachable, TasksInv, PayloadsInv, HistoryInv, G.MemberInv, G.PairInv;
  }

  // ---- An execution nothing comes between ------------------------------------------------------

  lemma Extend(s: State, later: seq<Action>, t: State, a: Action) returns (longer: seq<Action>, u: State)
    requires Play(s, later) == Some(t) && Enabled(t, a)
    ensures longer == later + [a] && u == Apply(t, a) && Play(s, longer) == Some(u)
  {
    hide Apply, Enabled;
    longer, u := later + [a], Apply(t, a);
    assert longer[..|later|] == later;
  }

  lemma PlayNothing(s: State)
    ensures Play(s, []) == Some(s)
  {
  }

  /** The delivery can be acknowledged: its member is open, has had no revocation since and is up to date. */
  predicate IsAcknowledgeable(g: G.State, x: G.Delivery) {
    && !x.gone && !x.settled && x.commit.NotSent? && x.member in g.members && x.partition in g.committed
    && !g.members[x.member].driver.closed && x.generation == g.members[x.member].driver.generation
    && g.members[x.member].joined == g.generation
  }

  /** Its task has nothing in flight. */
  predicate Rests(s: State, d: nat, pc: Pc) {
    && d < |s.tasks| && d < |s.group.deliveries| && s.tasks[d].pc == pc && s.tasks[d].io == NoInsert
    && IsAcknowledgeable(s.group, s.group.deliveries[d])
  }

  function Saving3(d: nat): seq<Action> {
    [SendInsert(d), CommitInsert(d), FinishSave(d)]
  }

  function Acknowledging3(d: nat): seq<Action> {
    [SendCommit(d), Group(G.AcceptCommit(d)), FinishCommit(d)]
  }

  lemma InsertSent(t: State, d: nat, record: Record)
    requires Rests(t, d, Saving(record))
    ensures Enabled(t, SendInsert(d))
    ensures Apply(t, SendInsert(d)) == t.(tasks := t.tasks[d := t.tasks[d].(io := Inserting)])
  {
  }

  lemma InsertCommitted(t: State, d: nat, record: Record)
    requires d < |t.tasks| && d < |t.group.deliveries| && t.tasks[d].pc == Saving(record) && t.tasks[d].io == Inserting
    ensures Enabled(t, CommitInsert(d))
    ensures Apply(t, CommitInsert(d)) ==
      Save(t, record).(tasks := t.tasks[d := t.tasks[d].(io := Inserted(record.failureId in t.records))])
    ensures record.failureId in Save(t, record).records
  {
  }

  lemma SaveFinished(t: State, d: nat, record: Record)
    requires d < |t.tasks| && d < |t.group.deliveries| && t.tasks[d].pc == Saving(record) && t.tasks[d].io.Inserted?
    requires record.failureId in t.records
    ensures Enabled(t, FinishSave(d))
    ensures Apply(t, FinishSave(d)) ==
      t.(tasks := t.tasks[d := t.tasks[d].(pc := Settling(Recorded), io := NoInsert)])
  {
  }

  lemma SavedUndisturbed(s: State, later: seq<Action>, t: State, d: nat, record: Record)
    returns (longer: seq<Action>, u: State)
    requires Play(s, later) == Some(t) && Rests(t, d, Saving(record))
    ensures longer == later + Saving3(d) && Play(s, longer) == Some(u) && Rests(u, d, Settling(Recorded))
    ensures u.records == if record.failureId in t.records then t.records else t.records[record.failureId := record]
    ensures u.handled == t.handled && u.group == t.group
  {
    InsertSent(t, d, record);
    var l1, u1 := Extend(s, later, t, SendInsert(d));
    InsertCommitted(u1, d, record);
    var l2, u2 := Extend(s, l1, u1, CommitInsert(d));
    SaveFinished(u2, d, record);
    longer, u := Extend(s, l2, u2, FinishSave(d));
    hide Play, Apply, Enabled;
    assert longer == later + Saving3(d);
  }

  lemma CommitSent(t: State, d: nat, cause: Cause)
    requires Rests(t, d, Settling(cause))
    ensures Enabled(t, SendCommit(d))
    ensures var x, u := t.group.deliveries[d], Apply(t, SendCommit(d));
      && u == t.(group := u.group) && u.group == t.group.(deliveries := u.group.deliveries)
      && d < |u.group.deliveries|
      && u.group.deliveries[d] == x.(commit := G.Sent(t.group.members[x.member].joined, x.offset + 1))
  {
    G.SendOnlyMarks(t.group, d);
    G.SendMoves(t.group, d);
    hide G.Apply, G.Moved;
    assert t.tasks[d := t.tasks[d]] == t.tasks;
  }

  lemma CommitAccepted(t: State, u: State, d: nat, cause: Cause)
    requires Rests(t, d, Settling(cause)) && u == t.(group := u.group)
    requires u.group == t.group.(deliveries := u.group.deliveries) && d < |u.group.deliveries|
    requires var x := t.group.deliveries[d];
      u.group.deliveries[d] == x.(commit := G.Sent(t.group.members[x.member].joined, x.offset + 1))
    ensures Enabled(u, Group(G.AcceptCommit(d)))
    ensures var x, v := t.group.deliveries[d], Apply(u, Group(G.AcceptCommit(d)));
      && v == u.(group := v.group) && d < |v.group.deliveries| && v.group.members == t.group.members
      && v.group.deliveries[d] == x.(commit := G.Answered(true))
      && v.group.committed == t.group.committed[x.partition := x.offset + 1]
      && (x.partition, x.offset) in v.group.acknowledged
  {
    G.AcceptedAlone(t.group, d, u.group);
    hide G.Apply;
  }

  lemma CommitFinished(v: State, d: nat)
    requires d < |v.tasks| && d < |v.group.deliveries| && v.tasks[d].pc.Settling?
    requires var x := v.group.deliveries[d];
      !x.gone && x.commit == G.Answered(true) && x.member in v.group.members
      && x.generation == v.group.members[x.member].driver.generation
    ensures Enabled(v, FinishCommit(d))
    ensures var w := Apply(v, FinishCommit(d));
      && d < |w.tasks| && w.tasks[d].pc == Done && w.records == v.records && w.handled == v.handled
      && w.group.committed == v.group.committed && w.group.acknowledged == v.group.acknowledged
  {
    G.FinishedAlone(v.group, d);
    hide G.Apply;
  }

  lemma AcknowledgedUndisturbed(s: State, later: seq<Action>, t: State, d: nat, cause: Cause)
    returns (longer: seq<Action>, u: State)
    requires Play(s, later) == Some(t) && Rests(t, d, Settling(cause))
    ensures longer == later + Acknowledging3(d) && Play(s, longer) == Some(u)
    ensures d < |u.tasks| && u.tasks[d].pc == Done && u.records == t.records && u.handled == t.handled
    ensures KeyOf(t, d) in u.group.acknowledged
    ensures u.group.committed == t.group.committed[KeyOf(t, d).0 := KeyOf(t, d).1 + 1]
  {
    hide Play, Apply, Enabled;
    CommitSent(t, d, cause);
    var l1, u1 := Extend(s, later, t, SendCommit(d));
    CommitAccepted(t, u1, d, cause);
    var l2, u2 := Extend(s, l1, u1, Group(G.AcceptCommit(d)));
    CommitFinished(u2, d);
    longer, u := Extend(s, l2, u2, FinishCommit(d));
    assert longer == later + Acknowledging3(d);
  }

  lemma HandlerReturned(t: State, d: nat, result: ExecutionResult)
    requires Rests(t, d, Handling)
    ensures Enabled(t, RunHandler(d, result))
    ensures var u := Apply(t, RunHandler(d, result));
      && u.records == t.records && u.group == t.group
      && u.handled == (if result.failure.None? then t.handled + {KeyOf(t, d)} else t.handled)
      && (result.failure.None? ==> Rests(u, d, Settling(Succeeded)))
      && (result.failure.Some? ==> Rests(u, d, Saving(RecordFor(t.tasks[d].job, result))))
  {
  }

  /** The whole of an execution nothing comes between, from the handler on: with an open member that is up to date, a
      success is acknowledged, and a failure is first recorded, unless its job has a record already; the committed
      offset is then the next one. */
  lemma UndisturbedExecution(s: State, d: nat, result: ExecutionResult)
    requires Rests(s, d, Handling)
    ensures var run := Play(s, [RunHandler(d, result)] + (if result.failure.Some? then Saving3(d) else [])
                              + Acknowledging3(d));
      && run.Some? && d < |run.value.tasks| && run.value.tasks[d].pc == Done
      && KeyOf(s, d) in run.value.group.acknowledged
      && run.value.group.committed == s.group.committed[KeyOf(s, d).0 := KeyOf(s, d).1 + 1]
      && (result.failure.None? ==> KeyOf(s, d) in run.value.handled && run.value.records == s.records)
      && (result.failure.Some? ==>
            var record := RecordFor(s.tasks[d].job, result);
            run.value.handled == s.handled && run.value.records ==
              if record.failureId in s.records then s.records else s.records[record.failureId := record])
  {
    hide Apply, Play, Enabled, IsAcknowledgeable, Saving3, Acknowledging3;
    PlayNothing(s);
    HandlerReturned(s, d, result);
    var later, t := Extend(s, [], s, RunHandler(d, result));
    assert KeyOf(t, d) == KeyOf(s, d);
    if result.failure.Some? {
      var record := RecordFor(s.tasks[d].job, result);
      later, t := SavedUndisturbed(s, later, t, d, record);
      later, t := AcknowledgedUndisturbed(s, later, t, d, Recorded);
    } else {
      later, t := AcknowledgedUndisturbed(s, later, t, d, Succeeded);
    }
    assert later == [RunHandler(d, result)] + (if result.failure.Some? then Saving3(d) else []) + Acknowledging3(d);
  }

  /** A flagged delivery whose job has a failure record is acknowledged at once: its handler is not run, and records and
      history stay as they are. */
  lemma DuplicateIsOnlyAcknowledged(s: State, d: nat)
    requires Rests(s, d, Looking) && FailureIdOf(s.tasks[d].job.payload) in s.records
    ensures var run := Play(s, [Find(d)] + Acknowledging3(d));
      && run.Some? && d < |run.value.tasks| && run.value.tasks[d].pc == Done
      && run.value.records == s.records && run.value.handled == s.handled
      && KeyOf(s, d) in run.value.group.acknowledged
  {
    hide Apply, Play, Enabled, Acknowledging3;
    PlayNothing(s);
    Checked(s, d);
    var later, t := Extend(s, [], s, Find(d));
    later, t := AcknowledgedUndisturbed(s, later, t, d, AlreadyRecorded);
    assert later == [Find(d)] + Acknowledging3(d);
  }

  lemma Checked(s: State, d: nat)
    requires Rests(s, d, Looking)
    ensures Enabled(s, Find(d))
    ensures var u := Apply(s, Find(d));
      && u.records == s.records && u.handled == s.handled && u.group == s.group
      && (FailureIdOf(s.tasks[d].job.payload) in s.records ==> Rests(u, d, Settling(AlreadyRecorded)))
      && (FailureIdOf(s.tasks[d].job.payload) !in s.records ==> Rests(u, d, Proceed(s.tasks[d].job)))
  {
  }

  /** One whose job has none goes on: a malformed envelope to its record, and any other, once it is bound, to its
      handler. */
  lemma NewJobGoesOn(s: State, d: nat)
    requires Rests(s, d, Looking) && FailureIdOf(s.tasks[d].job.payload) !in s.records
    ensures s.tasks[d].job.payload.Malformed? ==>
      var run := Play(s, [Find(d)]);
      run.Some? && d < |run.value.tasks| && run.value.tasks[d].pc ==
        Saving(RecordFor(s.tasks[d].job, ExecutionResult(0, Some(InvalidEnvelope))))
    ensures s.tasks[d].job.payload.Envelope? ==>
      var run := Play(s, [Find(d), Resolve(d, Bound)]);
      run.Some? && d < |run.value.tasks| && run.value.tasks[d].pc == Handling
  {
    hide Play;
    PlayNothing(s);
    Checked(s, d);
    var later, t := Extend(s, [], s, Find(d));
    if s.tasks[d].job.payload.Envelope? {
      later, t := Extend(s, later, t, Resolve(d, Bound));
      assert later == [Find(d), Resolve(d, Bound)];
    } else {
      assert later == [Find(d)];
    }
  }

  /** An acknowledgement raises at once exactly for a closed member or one that has had a revocation since; otherwise
      the task waits for the answer to its commit. */
  lemma RefusedAcknowledgeRaises(s: State, d: nat)
    requires Enabled(s, SendCommit(d)) && !s.group.deliveries[d].settled
    ensures var x, m := s.group.deliveries[d], s.group.members[s.group.deliveries[d].member];
      Apply(s, SendCommit(d)).tasks[d].pc ==
        if m.driver.closed || x.generation != m.driver.generation then Dead else s.tasks[d].pc
  {
    G.SendMoves(s.group, d);
    hide G.Apply, G.Moved;
  }

  /** An insert that a task has sent before it is cancelled still stores its record; without one nothing is left. */
  lemma CancelledInsertTakesEffect(s: State, d: nat)
    requires Enabled(s, Cancel(d))
    ensures s.tasks[d].io.Inserting? && s.tasks[d].pc.Saving? ==>
      var run := Play(s, [Cancel(d), StrayInsert(s.tasks[d].pc.record)]);
      && run.Some? && s.tasks[d].pc.record.failureId in run.value.records
      && s.tasks[d].pc.record !in run.value.strays
    ensures !(s.tasks[d].io.Inserting? && s.tasks[d].pc.Saving?) ==> Apply(s, Cancel(d)).strays == s.strays
  {
    hide G.Apply, Play;
    if s.tasks[d].io.Inserting? && s.tasks[d].pc.Saving? {
      PlayNothing(s);
      var later, t := Extend(s, [], s, Cancel(d));
      later, t := Extend(s, later, t, StrayInsert(s.tasks[d].pc.record));
      assert later == [Cancel(d), StrayInsert(s.tasks[d].pc.record)];
    }
  }

  /** A record that is deleted while it is being saved: the save notices exactly if it had found the record there, and
      the execution then ends without an acknowledgement; otherwise it goes on to acknowledge. */
  lemma DeletionDuringSave(s: State, d: nat)
    requires Enabled(s, CommitInsert(d))
    ensures var f := s.tasks[d].pc.record.failureId;
      var run := Play(s, [CommitInsert(d), Forget(f), FinishSave(d)]);
      && run.Some? && d < |run.value.tasks| && f !in run.value.records
      && run.value.tasks[d].pc == if f in s.records then Dead else Settling(Cause.Recorded)
  {
    hide Play;
    var record := s.tasks[d].pc.record;
    PlayNothing(s);
    InsertCommitted(s, d, record);
    var later, t := Extend(s, [], s, CommitInsert(d));
    ForgetsOnly(t, record.failureId);
    later, t := Extend(s, later, t, Forget(record.failureId));
    VanishedIsNoticed(t, d, record);
    later, t := Extend(s, later, t, FinishSave(d));
    hide Apply, Enabled;
    assert later == [CommitInsert(d), Forget(record.failureId), FinishSave(d)];
  }

  lemma ForgetsOnly(t: State, f: FailureId)
    ensures Enabled(t, Forget(f)) && Apply(t, Forget(f)) == t.(records := t.records - {f})
  {
  }

  lemma VanishedIsNoticed(t: State, d: nat, record: Record)
    requires d < |t.tasks| && d < |t.group.deliveries| && t.tasks[d].pc == Saving(record)
    requires record.failureId !in t.records
    requires t.tasks[d].io.Inserted?
    ensures Enabled(t, FinishSave(d))
    ensures var u := Apply(t, FinishSave(d));
      && d < |u.tasks| && u.records == t.records
      && u.tasks[d].pc == if t.tasks[d].io.conflict then Dead else Settling(Cause.Recorded)
  {
  }

  /** A cancelled task does nothing more, in any later run. */
  lemma {:induction false} CancelledForGood(s: State, d: nat, later: seq<Action>)
    requires Enabled(s, Cancel(d)) && Play(Apply(s, Cancel(d)), later).Some?
    ensures var t := Play(Apply(s, Cancel(d)), later).value; d < |t.tasks| && t.tasks[d].pc == Dead
  {
    SubjectMoves(s, Cancel(d));
    DeadForGood(Apply(s, Cancel(d)), d, later);
  }

  lemma {:induction false} DeadForGood(s: State, d: nat, later: seq<Action>)
    requires d < |s.tasks| && s.tasks[d].pc == Dead && Play(s, later).Some?
    ensures d < |Play(s, later).value.tasks| && Play(s, later).value.tasks[d].pc == Dead
    decreases |later|
  {
    hide Apply, Enabled;
    if later == [] {
    } else {
      DeadForGood(s, d, later[..|later| - 1]);
      DeadIsLeftAlone(Play(s, later[..|later| - 1]).value, later[|later| - 1], d);
    }
  }

  lemma DeadIsLeftAlone(s: State, a: Action, d: nat)
    requires Enabled(s, a) && d < |s.tasks| && s.tasks[d].pc == Dead
    ensures d < |Apply(s, a).tasks| && Apply(s, a).tasks[d].pc == Dead
  {
    NoActionOfTheDead(s, a, d);
    OtherTasksStay(s, a, d);
    hide Apply, Enabled;
  }

  lemma NoActionOfTheDead(s: State, a: Action, d: nat)
    requires Enabled(s, a) && d < |s.tasks| && s.tasks[d].pc == Dead
    ensures Subject(a) != Some(d)
  {
    hide G.Enabled;
  }

  // ---- Unflagged deliveries and records --------------------------------------------------------

  lemma {:induction false} JobsStay(s: State, later: seq<Action>, d: nat)
    requires Inv(s) && d < |s.tasks| && Play(s, later).Some?
    ensures d < |Play(s, later).value.tasks| && Play(s, later).value.tasks[d].job == s.tasks[d].job
    decreases |later|
  {
    hide Inv, Apply, Enabled;
    if later == [] {
    } else {
      JobsStay(s, later[..|later| - 1], d);
      RunsKeepInv(s, later[..|later| - 1]);
      JobStays(Play(s, later[..|later| - 1]).value, later[|later| - 1], d);
    }
  }

  lemma JobStays(s: State, a: Action, d: nat)
    requires Inv(s) && Enabled(s, a) && d < |s.tasks|
    ensures d < |Apply(s, a).tasks| && Apply(s, a).tasks[d].job == s.tasks[d].job
  {
    if Subject(a) == Some(d) {
      MovedTask(s, a);
      SubjectMoves(s, a);
    } else {
      OtherTasksStay(s, a, d);
    }
    hide Apply, Enabled, Inv;
  }

  /** In some run in which the record of `f` is not deleted, task `d` gets to run its handler. */
  ghost predicate CanRunHandler(s: State, d: nat, f: FailureId) {
    exists later: seq<Action> ::
      && Play(s, later).Some? && (forall k :: 0 <= k < |later| ==> later[k] != Forget(f))
      && d < |Play(s, later).value.tasks| && Play(s, later).value.tasks[d].pc.Handling?
  }

  lemma ResolvedRunsHandler(t: State, d: nat, f: FailureId)
    requires d < |t.tasks| && d < |t.group.deliveries| && t.tasks[d].pc.Resolving?
    ensures CanRunHandler(t, d, f)
  {
    var later := [Resolve(d, Bound)];
    assert later[..0] == [] && Play(t, []) == Some(t);
    assert Enabled(t, Resolve(d, Bound));
    SubjectMoves(t, Resolve(d, Bound));
    assert Play(t, later) == Some(Apply(t, Resolve(d, Bound)));
    assert forall k :: 0 <= k < |later| ==> later[k] != Forget(f);
  }

  lemma HandlingMeansEnvelope(s: State, d: nat)
    requires Inv(s) && d < |s.tasks| && s.tasks[d].pc.Handling?
    ensures s.tasks[d].job.payload.Envelope?
  {
    hide G.Inv, PayloadsInv, HistoryInv;
    assert TaskHolds(s, d);
  }

  lemma FlaggedNeverHandles(s: State, later: seq<Action>, d: nat, f: FailureId)
    requires Reachable(s) && f in s.records && d < |s.tasks| && FailureIdOf(s.tasks[d].job.payload) == f
    requires s.tasks[d].job.possiblyRedelivered && s.tasks[d].pc.Looking?
    requires Play(s, later).Some? && forall k :: 0 <= k < |later| ==> later[k] != Forget(f)
    ensures d < |Play(s, later).value.tasks| && !Play(s, later).value.tasks[d].pc.Handling?
  {
    ReachableKeepsInv(s);
    JobsStay(s, later, d);
    SuppressedOnceRecorded(s, later, f);
    hide Play, Reachable, Inv;
  }

  lemma HandlerNeedsUnflaggedEnvelope(s: State, d: nat, f: FailureId)
    requires Reachable(s) && f in s.records && d < |s.tasks| && FailureIdOf(s.tasks[d].job.payload) == f
    requires s.tasks[d].pc == Begin(s.tasks[d].job) && CanRunHandler(s, d, f)
    ensures !s.tasks[d].job.possiblyRedelivered && s.tasks[d].job.payload.Envelope?
  {
    hide Inv, Play;
    var later: seq<Action> :|
      && Play(s, later).Some? && (forall k :: 0 <= k < |later| ==> later[k] != Forget(f))
      && d < |Play(s, later).value.tasks| && Play(s, later).value.tasks[d].pc.Handling?;
    ReachableKeepsInv(s);
    JobsStay(s, later, d);
    RunsKeepInv(s, later);
    HandlingMeansEnvelope(Play(s, later).value, d);
    if s.tasks[d].job.possiblyRedelivered {
      FlaggedNeverHandles(s, later, d, f);
    }
  }

  lemma Follow(s: State, a: Action) returns (t: State)
    requires Reachable(s) && Enabled(s, a)
    ensures t == Apply(s, a) && Reachable(t)
  {
    hide Apply, Enabled;
    var partitions, actions :| Play(Initial(partitions), actions) == Some(s);
    t := Apply(s, a);
    assert (actions + [a])[..|actions|] == actions;
    assert Play(Initial(partitions), actions + [a]) == Some(t);
  }

  lemma {:induction false} PlayedGroupIsReachable(partitions: set<Partition>, actions: seq<Action>)
    requires Play(Initial(partitions), actions).Some?
    ensures G.Reachable(Play(Initial(partitions), actions).value.group)
    decreases |actions|
  {
    hide G.Apply, G.Enabled, TasksAfter, StoreAfter, G.Reachable;
    if actions == [] {
      G.PlayNothing(G.Initial(partitions));
      InitialGroupIsReachable(partitions);
    } else {
      var s, a := Play(Initial(partitions), actions[..|actions| - 1]).value, actions[|actions| - 1];
      PlayedGroupIsReachable(partitions, actions[..|actions| - 1]);
      if StepOf(a).Some? {
        var g := G.Follow(s.group, StepOf(a).value);
      }
    }
  }

  lemma InitialGroupIsReachable(partitions: set<Partition>)
    ensures G.Reachable(G.Initial(partitions))
  {
    G.PlayNothing(G.Initial(partitions));
  }

  /** What the received task looks like. */
  lemma ReceivedTask(s: State, m: G.MemberId, p: Partition, offset: Offset, clock: int)
    requires Enabled(s, Receive(m, p, offset, clock)) && |s.tasks| == |s.group.deliveries|
    requires G.Reachable(s.group)
    ensures var t := Apply(s, Receive(m, p, offset, clock));
      && |t.tasks| == |t.group.deliveries| == |s.tasks| + 1 && t.records == s.records
      && t.tasks[|s.tasks|].job == Job(s.payloads[(p, offset)], p !in s.group.members[m].driver.trusted, clock)
      && t.tasks[|s.tasks|].pc == Begin(t.tasks[|s.tasks|].job)
  {
    G.ReceiveNeverRefuses(s.group, m, p, offset);
    GroupStepCounts(s.group, G.Fetch(m, p, offset));
    hide G.Apply, Moved;
  }

  lemma GroupIsReachable(s: State)
    requires Reachable(s)
    ensures G.Reachable(s.group)
  {
    var partitions, actions :| Play(Initial(partitions), actions) == Some(s);
    PlayedGroupIsReachable(partitions, actions);
  }

  /** Exactly which deliveries escape the duplicate check: when a record of the log is received whose job has a failure
      record, its handler can run beside that record if and only if the partition is trusted and the payload decodes. */
  lemma HandlerRunsBesideRecordIff(s: State, m: G.MemberId, p: Partition, offset: Offset, clock: int, f: FailureId)
    requires Reachable(s) && Enabled(s, Receive(m, p, offset, clock)) && f in s.records
    requires FailureIdOf(s.payloads[(p, offset)]) == f
    ensures CanRunHandler(Apply(s, Receive(m, p, offset, clock)), |s.tasks|, f) <==>
      p in s.group.members[m].driver.trusted && s.payloads[(p, offset)].Envelope?
  {
    ReachableKeepsInv(s);
    GroupIsReachable(s);
    ReceivedTask(s, m, p, offset, clock);
    var t := Follow(s, Receive(m, p, offset, clock));
    hide Apply, Inv, Play, Reachable;
    if p in s.group.members[m].driver.trusted && s.payloads[(p, offset)].Envelope? {
      ResolvedRunsHandler(t, |s.tasks|, f);
    }
    if CanRunHandler(t, |s.tasks|, f) {
      HandlerNeedsUnflaggedEnvelope(t, |s.tasks|, f);
    }
  }

  /** Some delivery has carried a job with this failure id. */
  ghost predicate BegunFor(s: State, f: FailureId) {
    exists d :: 0 <= d < |s.tasks| && FailureIdOf(s.tasks[d].job.payload) == f
  }

  /** Records only come from deliveries of their job. */
  ghost predicate OriginInv(s: State) {
    && (forall f :: f in s.everSaved ==> BegunFor(s, f))
    && (forall r :: r in s.strays ==> BegunFor(s, r.failureId))
  }

  lemma BegunStays(s: State, a: Action, f: FailureId)
    requires Inv(s) && Enabled(s, a) && BegunFor(s, f)
    ensures BegunFor(Apply(s, a), f)
  {
    var d :| 0 <= d < |s.tasks| && FailureIdOf(s.tasks[d].job.payload) == f;
    JobStays(s, a, d);
    hide Apply, Inv, Enabled;
  }

  lemma SavedByATask(s: State, a: Action, f: FailureId)
    requires Inv(s) && Enabled(s, a) && OriginInv(s)
    requires f in Apply(s, a).everSaved || exists r :: r in Apply(s, a).strays && r.failureId == f
    ensures BegunFor(s, f)
  {
    hide G.Apply, G.Inv, G.Enabled, TasksAfter, PayloadsInv, HistoryInv, Justified, FailedStore.InsertRow;
    if a.CommitInsert? || a.Cancel? {
      assert TaskHolds(s, a.d);
      assert s.tasks[a.d].pc.Saving? ==> s.tasks[a.d].pc.record.failureId == FailureIdOf(s.tasks[a.d].job.payload);
    }
  }

  lemma StepKeepsOrigin(s: State, a: Action)
    requires Inv(s) && Enabled(s, a) && OriginInv(s)
    ensures OriginInv(Apply(s, a))
  {
    hide Apply, Inv, Enabled, BegunFor;
    var t := Apply(s, a);
    forall f | f in t.everSaved
      ensures BegunFor(t, f)
    {
      SavedByATask(s, a, f);
      BegunStays(s, a, f);
    }
    forall r | r in t.strays
      ensures BegunFor(t, r.failureId)
    {
      SavedByATask(s, a, r.failureId);
      BegunStays(s, a, r.failureId);
    }
  }

  lemma {:induction false} RunsKeepOrigin(s: State, actions: seq<Action>)
    requires Inv(s) && OriginInv(s) && Play(s, actions).Some?
    ensures OriginInv(Play(s, actions).value)
    decreases |actions|
  {
    hide Inv, Apply, Enabled, OriginInv;
    if actions == [] {
    } else {
      RunsKeepOrigin(s, actions[..|actions| - 1]);
      RunsKeepInv(s, actions[..|actions| - 1]);
      StepKeepsOrigin(Play(s, actions[..|actions| - 1]).value, actions[|actions| - 1]);
    }
  }

  /** Different records of the log carry different jobs: every dispatch makes a fresh job id. */
  ghost predicate FreshJobs(s: State) {
    forall x, y :: x in s.payloads && y in s.payloads && x != y ==>
      FailureIdOf(s.payloads[x]) != FailureIdOf(s.payloads[y])
  }

  lemma SavedWasDelivered(s: State, p: Partition, o: Offset)
    requires Inv(s) && OriginInv(s) && FreshJobs(s) && (p, o) in s.payloads
    requires FailureIdOf(s.payloads[(p, o)]) in s.everSaved
    ensures G.Delivered(s.group, p, o)
  {
    hide G.Inv, PayloadsInv, HistoryInv;
    assert BegunFor(s, FailureIdOf(s.payloads[(p, o)]));
    var d :| 0 <= d < |s.tasks| && FailureIdOf(s.tasks[d].job.payload) == FailureIdOf(s.payloads[(p, o)]);
    assert TaskHolds(s, d);
    assert KeyOf(s, d) == (p, o);
  }

  lemma ReachableKeepsOrigin(s: State)
    requires Reachable(s)
    ensures OriginInv(s)
  {
    var partitions, actions :| Play(Initial(partitions), actions) == Some(s);
    InitialHolds(partitions);
    hide Inv, OriginInv, Play;
    RunsKeepOrigin(Initial(partitions), actions);
  }

  lemma InitialHolds(partitions: set<Partition>)
    ensures Inv(Initial(partitions)) && OriginInv(Initial(partitions))
  {
  }

  /** So trust is safe for members that are up to date: with fresh job ids, whatever a member of the present generation
      receives unflagged has no failure record, and never had one. */
  lemma CurrentTrustMeetsNoRecord(s: State, m: G.MemberId, p: Partition, offset: Offset, clock: int)
    requires Reachable(s) && FreshJobs(s) && Enabled(s, Receive(m, p, offset, clock))
    requires G.Current(s.group, m) && p in s.group.members[m].driver.trusted
    ensures FailureIdOf(s.payloads[(p, offset)]) !in s.everSaved
  {
    ReachableKeepsInv(s);
    ReachableKeepsOrigin(s);
    GroupIsReachable(s);
    assert G.Enabled(s.group, G.Fetch(m, p, offset));
    hide Inv, OriginInv, Reachable, Enabled, FreshJobs, G.Enabled, G.Reachable, G.Current;
    if FailureIdOf(s.payloads[(p, offset)]) in s.everSaved {
      SavedWasDelivered(s, p, offset);
      G.RepeatMeansEvicted(s.group, m, p, offset);
    }
  }
}
