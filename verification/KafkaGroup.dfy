/**
 A consumer group on Kafka as a transition system: any number of members and partitions, rebalances, commits
 whose effect and reply are separate steps, lost replies, cancellations, and members evicted without knowing.
 The broker bumps its generation at every rebalance and refuses commits of older generations; a member's
 position restarts at the committed offset when it takes its assignment.  Offsets may have gaps.
 */
module KafkaGroup {
  import opened Common
  import opened KafkaDriver

  type MemberId = nat

  /** `joined` is the broker generation the member last joined. */
  datatype Member = Member(
    driver: Driver<nat>,
    joined: nat,
    held: set<Partition>,
    position: map<Partition, Offset>)

  /** A commit on its way carries the offset it asks for. */
  datatype Commit = NotSent | Sent(joined: nat, upTo: Offset) | Answered(accepted: bool)

  /** A delivery: where it came from, the generations it was received in, and what became of it. */
  datatype Delivery = Delivery(
    member: MemberId,
    partition: Partition,
    offset: Offset,
    generation: nat,
    joined: nat,
    possiblyRedelivered: bool,
    current: bool,                           // its member had joined the generation of that moment
    commit: Commit,
    settled: bool,
    gone: bool)

  datatype State = State(
    log: map<Partition, set<Offset>>,
    ends: map<Partition, Offset>,            // past every offset of the log
    committed: map<Partition, Offset>,
    generation: nat,
    owners: map<Partition, MemberId>,          // the assignment of the current generation
    members: map<MemberId, Member>,
    deliveries: seq<Delivery>,
    acknowledged: set<(Partition, Offset)>,  // history: commits the broker accepted
    base: map<Partition, Offset>,            // history: committed when the current generation began
    front: map<Partition, Offset>)           // history: furthest position of the current generation

  datatype Action =
    | Produce(p: Partition, gap: nat)
    | NewMember(m: MemberId)
    | Revoke(m: MemberId)
    | Rebalance(owners: map<Partition, MemberId>)
    | Assign(m: MemberId)
    | Fetch(m: MemberId, p: Partition, offset: Offset)
    | SendCommit(d: nat)
    | AcceptCommit(d: nat)
    | FinishCommit(d: nat)
    | Cancel(d: nat)
    | Close(m: MemberId)

  function Initial(partitions: set<Partition>): State {
    var zero: map<Partition, Offset> := map p | p in partitions :: 0;
    State(map p | p in partitions :: {}, zero, zero, 0, map[], map[], [], {}, zero, zero)
  }

  /** No record in [from, to). */
  ghost predicate NoneBetween(s: State, p: Partition, from: Offset, to: Offset)
    requires p in s.log
  {
    forall o :: o in s.log[p] && from <= o ==> to <= o
  }

  predicate Current(s: State, m: MemberId) {
    m in s.members && s.members[m].joined == s.generation
  }

  /** A record may arrive for a receive that was already waiting when its consumer was closed. */
  ghost predicate Enabled(s: State, a: Action) {
    match a
    case Produce(p, _) => p in s.log && p in s.ends
    case NewMember(m) => m !in s.members
    case Revoke(m) => m in s.members
    case Rebalance(owners) =>
      owners.Keys <= s.log.Keys && forall p :: p in owners ==> owners[p] in s.members && s.members[owners[p]].held == {}
    case Assign(m) => m in s.members && s.members[m].held == {} && s.members[m].joined < s.generation
    case Fetch(m, p, offset) =>
      && m in s.members && p in s.log && offset in s.log[p]
      && p in s.members[m].held && p !in s.members[m].driver.paused
      && p in s.members[m].position && s.members[m].position[p] <= offset
      && NoneBetween(s, p, s.members[m].position[p], offset)
    case SendCommit(d) => d < |s.deliveries| && !s.deliveries[d].gone && s.deliveries[d].commit.NotSent?
        && s.deliveries[d].member in s.members
    case AcceptCommit(d) => d < |s.deliveries| && s.deliveries[d].commit.Sent?
        && s.deliveries[d].partition in s.committed
    case FinishCommit(d) => d < |s.deliveries| && !s.deliveries[d].gone && s.deliveries[d].commit.Answered?
        && s.deliveries[d].member in s.members
    case Cancel(d) => d < |s.deliveries|
    case Close(m) => m in s.members
  }

  /** The member an action runs at, if any. */
  function Actor(s: State, a: Action): Option<MemberId> {
    match a
    case NewMember(m) => Some(m)
    case Revoke(m) => Some(m)
    case Assign(m) => Some(m)
    case Fetch(m, _, _) => Some(m)
    case FinishCommit(d) => if d < |s.deliveries| then Some(s.deliveries[d].member) else None
    case Close(m) => Some(m)
    case _ => None
  }

  function Granted(s: State, m: MemberId): set<Partition> {
    set p | p in s.owners && s.owners[p] == m
  }

  /** Reading starts at the committed offsets. */
  function StartingPoints(s: State, partitions: set<Partition>): map<Partition, Offset> {
    map p | p in partitions && p in s.committed :: s.committed[p]
  }

  ghost function ActorAfter(s: State, a: Action): Member
    requires Enabled(s, a) && Actor(s, a).Some?
  {
    match a
    case NewMember(_) => Member(Driver(0, false, {}, {}, map[]), 0, {}, map[])
    case Revoke(m) =>
      var x := s.members[m];
      x.(driver := x.driver.Revoked(x.held), held := {}, position := map[])
    case Assign(m) =>
      var x := s.members[m];
      var mine := Granted(s, m);
      x.(driver := x.driver.Regained(mine), joined := s.generation, held := mine, position := StartingPoints(s, mine))
    case Fetch(m, p, offset) =>
      var x := s.members[m];
      x.(position := x.position[p := offset + 1],
         driver := if p in x.driver.pending then x.driver        // refused: the driver raises
                   else x.driver.Took(p, |s.deliveries|))
    case FinishCommit(d) =>
      var x := s.members[s.deliveries[d].member];
      if Settles(s, d) then x.(driver := x.driver.Settled(s.deliveries[d].partition)) else x
    case Close(m) => s.members[m].(driver := s.members[m].driver.(closed := true))
  }

  /** The commit was accepted and no rebalance came in between. */
  predicate Settles(s: State, d: nat)
    requires d < |s.deliveries| && s.deliveries[d].commit.Answered? && s.deliveries[d].member in s.members
  {
    s.deliveries[d].commit.accepted && s.deliveries[d].generation == s.members[s.deliveries[d].member].driver.generation
  }

  /** The delivery an action moves on, if any. */
  function Subject(a: Action): Option<nat> {
    match a
    case SendCommit(d) => Some(d)
    case AcceptCommit(d) => Some(d)
    case FinishCommit(d) => Some(d)
    case Cancel(d) => Some(d)
    case _ => None
  }

  ghost function Moved(s: State, a: Action): Delivery
    requires Enabled(s, a) && Subject(a).Some?
  {
    var x := s.deliveries[Subject(a).value];
    match a
    case SendCommit(_) =>
      var y := s.members[x.member];
      var upTo := y.driver.ToCommit(x.offset, x.generation, x.settled);
      if upTo.None? then x.(gone := true) else x.(commit := Sent(y.joined, upTo.value))
    case AcceptCommit(_) => x.(commit := Answered(x.commit.joined == s.generation))
    case FinishCommit(d) => x.(settled := Settles(s, d), gone := true)
    case Cancel(_) => x.(gone := true)
  }

  ghost function Received(s: State, m: MemberId, p: Partition, offset: Offset): Delivery
    requires Enabled(s, Fetch(m, p, offset))
  {
    var x := s.members[m];
    Delivery(m, p, offset, x.driver.generation, x.joined, p !in x.driver.trusted, x.joined == s.generation, NotSent,
        false, false)
  }

  predicate Delivers(s: State, a: Action) {
    a.Fetch? && a.m in s.members && a.p !in s.members[a.m].driver.pending
  }

  ghost function DeliveriesAfter(s: State, a: Action): seq<Delivery>
    requires Enabled(s, a)
  {
    if Subject(a).Some? then s.deliveries[Subject(a).value := Moved(s, a)]
    else if Delivers(s, a) then s.deliveries + [Received(s, a.m, a.p, a.offset)]
    else s.deliveries
  }

  /** The effect at the broker (and on the history). */
  ghost function BrokerAfter(s: State, a: Action): State
    requires Enabled(s, a)
  {
    match a
    case Produce(p, gap) => s.(log := s.log[p := s.log[p] + {s.ends[p] + gap}],
        ends := s.ends[p := s.ends[p] + gap + 1])
    case Rebalance(owners) => s.(generation := s.generation + 1, owners := owners, base := s.committed,
        front := s.committed)
    case Fetch(m, p, offset) => if Current(s, m) then s.(front := s.front[p := offset + 1]) else s
    case AcceptCommit(d) =>
      var x := s.deliveries[d];
      if x.commit.joined != s.generation then s
      else s.(committed := s.committed[x.partition := x.commit.upTo],
              acknowledged := s.acknowledged + {(x.partition, x.offset)})
    case _ => s
  }

  ghost function Apply(s: State, a: Action): State
    requires Enabled(s, a)
  {
    BrokerAfter(s, a).(
      members := if Actor(s, a).Some? then s.members[Actor(s, a).value := ActorAfter(s, a)] else s.members,
      deliveries := DeliveriesAfter(s, a))
  }

  // ---- The invariant --------------------------------------------------------------------------

  ghost predicate MapsInv(s: State) {
    && s.ends.Keys == s.log.Keys && s.committed.Keys == s.log.Keys && s.base.Keys == s.log.Keys
        && s.front.Keys == s.log.Keys
    && s.owners.Keys <= s.log.Keys
    && forall p :: p in s.owners ==> s.owners[p] in s.members
  }

  ghost predicate PartitionInv(s: State, p: Partition)
    requires MapsInv(s) && p in s.log
  {
    && (forall o :: o in s.log[p] ==> o < s.ends[p])
    && s.base[p] <= s.committed[p] <= s.front[p] <= s.ends[p]
    && (forall o :: o in s.log[p] && o < s.committed[p] ==> (p, o) in s.acknowledged)
    && (s.base[p] < s.front[p] ==>
          s.front[p] - 1 in s.log[p] && p in s.owners && s.members[s.owners[p]].joined == s.generation)
  }

  ghost predicate MemberInv(s: State, m: MemberId)
    requires MapsInv(s) && m in s.members
  {
    var x := s.members[m];
    && x.joined <= s.generation
    && x.held <= s.log.Keys && x.position.Keys == x.held
    && x.driver.pending.Keys <= x.driver.paused && x.driver.pending.Keys <= x.held
    && (forall p :: p in x.held && p !in x.driver.paused ==> x.position[p] <= s.committed[p])
    && (forall p :: p in x.held && p !in x.driver.paused && x.joined < s.generation ==> x.position[p] <= s.base[p])
    && (forall p :: p in x.held && x.joined == s.generation ==>
        p in s.owners && s.owners[p] == m && x.position[p] == s.front[p])
    && (forall p :: p in x.held && p in x.driver.trusted && x.joined == s.generation ==> s.base[p] < s.front[p])
  }

  ghost predicate DeliveryInv(s: State, x: Delivery)
    requires MapsInv(s)
  {
    && x.member in s.members && x.partition in s.log && x.offset in s.log[x.partition]
    && var m := s.members[x.member];
    && x.joined <= m.joined <= s.generation && x.generation <= m.driver.generation
    && (x.generation == m.driver.generation ==>
        x.joined == m.joined && x.partition in m.held && x.partition in m.position)
    && (x.generation == m.driver.generation && !x.settled ==>
          x.partition in m.driver.paused && m.position[x.partition] == x.offset + 1)
    && (x.commit.Sent? ==> x.commit.joined == x.joined && x.commit.upTo == x.offset + 1) && (x.settled ==> x.gone)
    && NoneBetween(s, x.partition, s.committed[x.partition], x.offset)
    && (if x.joined == s.generation then
          && s.base[x.partition] <= x.offset < s.front[x.partition]
          && (if x.commit == Answered(true) then x.offset < s.committed[x.partition]
              else x.offset + 1 == s.front[x.partition] && s.committed[x.partition] <= x.offset)
        else
          x.commit == Answered(true) ==> x.offset < s.base[x.partition])
    && (if s.base[x.partition] < s.front[x.partition] then x.offset < s.front[x.partition]
        else NoneBetween(s, x.partition, s.base[x.partition], x.offset))
  }

  /** An earlier and a later delivery of one partition. */
  ghost predicate Compatible(generation: nat, x: Delivery, y: Delivery) {
    x.partition == y.partition ==>
      && (x.joined == y.joined == generation ==> x.offset != y.offset)
      && (y.current && !y.possiblyRedelivered ==> x.offset != y.offset)
      && (x.member == y.member && x.generation == y.generation ==> x.settled)
  }

  ghost predicate PairInv(s: State) {
    forall c, d :: 0 <= c < d < |s.deliveries| ==> Compatible(s.generation, s.deliveries[c], s.deliveries[d])
  }

  ghost predicate Inv(s: State) {
    && MapsInv(s)
    && (forall p :: p in s.log ==> PartitionInv(s, p))
    && (forall m :: m in s.members ==> MemberInv(s, m))
    && (forall d :: 0 <= d < |s.deliveries| ==> DeliveryInv(s, s.deliveries[d]))
    && PairInv(s)
  }

  lemma FetchPartition(s: State, m: MemberId, p: Partition, offset: Offset, q: Partition)
    requires MapsInv(s) && Enabled(s, Fetch(m, p, offset)) && MemberInv(s, m)
    requires q in s.log && PartitionInv(s, q)
    ensures MapsInv(Apply(s, Fetch(m, p, offset))) && q in Apply(s, Fetch(m, p, offset)).log
    ensures PartitionInv(Apply(s, Fetch(m, p, offset)), q)
  {
    hide NoneBetween, DeliveriesAfter;
  }

  lemma FetchActor(s: State, m: MemberId, p: Partition, offset: Offset)
    requires MapsInv(s) && Enabled(s, Fetch(m, p, offset)) && MemberInv(s, m) && PartitionInv(s, p)
    ensures MapsInv(Apply(s, Fetch(m, p, offset))) && m in Apply(s, Fetch(m, p, offset)).members
    ensures MemberInv(Apply(s, Fetch(m, p, offset)), m)
  {
    hide NoneBetween, DeliveriesAfter;
  }

  lemma FetchBystander(s: State, m: MemberId, p: Partition, offset: Offset, n: MemberId)
    requires MapsInv(s) && Enabled(s, Fetch(m, p, offset)) && MemberInv(s, m) && PartitionInv(s, p)
    requires n in s.members && MemberInv(s, n) && n != m
    ensures MapsInv(Apply(s, Fetch(m, p, offset))) && n in Apply(s, Fetch(m, p, offset)).members
    ensures MemberInv(Apply(s, Fetch(m, p, offset)), n)
  {
    hide NoneBetween, DeliveriesAfter, ActorAfter;
  }

  lemma FetchAtOthers(s: State, m: MemberId, p: Partition, offset: Offset, d: nat)
    requires MapsInv(s) && Enabled(s, Fetch(m, p, offset)) && MemberInv(s, m) && PartitionInv(s, p)
    requires d < |s.deliveries| && DeliveryInv(s, s.deliveries[d]) && s.deliveries[d].member != m
    ensures MapsInv(Apply(s, Fetch(m, p, offset))) && d < |Apply(s, Fetch(m, p, offset)).deliveries|
    ensures DeliveryInv(Apply(s, Fetch(m, p, offset)), Apply(s, Fetch(m, p, offset)).deliveries[d])
  {
    hide ActorAfter, Received;
    assert Apply(s, Fetch(m, p, offset)).deliveries[d] == s.deliveries[d];
  }

  lemma FetchAtOwn(s: State, m: MemberId, p: Partition, offset: Offset, d: nat)
    requires MapsInv(s) && Enabled(s, Fetch(m, p, offset)) && MemberInv(s, m) && PartitionInv(s, p)
    requires d < |s.deliveries| && DeliveryInv(s, s.deliveries[d]) && s.deliveries[d].member == m
    ensures MapsInv(Apply(s, Fetch(m, p, offset))) && d < |Apply(s, Fetch(m, p, offset)).deliveries|
    ensures DeliveryInv(Apply(s, Fetch(m, p, offset)), Apply(s, Fetch(m, p, offset)).deliveries[d])
  {
    hide Received;
    assert Apply(s, Fetch(m, p, offset)).deliveries[d] == s.deliveries[d];
  }

  lemma FetchOldDelivery(s: State, m: MemberId, p: Partition, offset: Offset, d: nat)
    requires MapsInv(s) && Enabled(s, Fetch(m, p, offset)) && MemberInv(s, m) && PartitionInv(s, p)
    requires d < |s.deliveries| && DeliveryInv(s, s.deliveries[d])
    ensures MapsInv(Apply(s, Fetch(m, p, offset))) && d < |Apply(s, Fetch(m, p, offset)).deliveries|
    ensures DeliveryInv(Apply(s, Fetch(m, p, offset)), Apply(s, Fetch(m, p, offset)).deliveries[d])
  {
    hide MapsInv, MemberInv, PartitionInv, DeliveryInv, Apply, Enabled;
    if s.deliveries[d].member == m {
      FetchAtOwn(s, m, p, offset, d);
    } else {
      FetchAtOthers(s, m, p, offset, d);
    }
  }

  lemma FetchNewDelivery(s: State, m: MemberId, p: Partition, offset: Offset)
    requires MapsInv(s) && Enabled(s, Fetch(m, p, offset)) && MemberInv(s, m) && PartitionInv(s, p)
    requires p !in s.members[m].driver.pending
    ensures MapsInv(Apply(s, Fetch(m, p, offset)))
    ensures DeliveryInv(Apply(s, Fetch(m, p, offset)), Apply(s, Fetch(m, p, offset)).deliveries[|s.deliveries|])
  {
  }

  lemma FetchPair(s: State, m: MemberId, p: Partition, offset: Offset, x: Delivery)
    requires MapsInv(s) && Enabled(s, Fetch(m, p, offset)) && MemberInv(s, m) && DeliveryInv(s, x)
    requires p !in s.members[m].driver.pending
    ensures Compatible(s.generation, x, Apply(s, Fetch(m, p, offset)).deliveries[|s.deliveries|])
  {
  }

  /** Actions that neither fetch nor take an assignment nor deal with a commit's outcome. */
  predicate Plain(a: Action) {
    !a.Fetch? && !a.Assign? && !a.AcceptCommit? && !a.FinishCommit?
  }

  lemma BrokerAtPartition(s: State, a: Action, p: Partition)
    requires MapsInv(s) && Enabled(s, a) && (a.Rebalance? || a.Produce?)
    requires p in s.log && PartitionInv(s, p)
    ensures MapsInv(Apply(s, a)) && p in Apply(s, a).log && PartitionInv(Apply(s, a), p)
  {
    hide NoneBetween, DeliveriesAfter, ActorAfter;
  }

  lemma StepAtPartition(s: State, a: Action, p: Partition)
    requires MapsInv(s) && Enabled(s, a) && !a.Fetch? && !a.AcceptCommit? && !a.Rebalance? && !a.Produce?
    requires p in s.log && PartitionInv(s, p)
    ensures MapsInv(Apply(s, a)) && p in Apply(s, a).log && PartitionInv(Apply(s, a), p)
  {
    hide NoneBetween, DeliveriesAfter;
  }

  lemma AcceptAtPartition(s: State, d: nat, p: Partition)
    requires MapsInv(s) && Enabled(s, AcceptCommit(d)) && DeliveryInv(s, s.deliveries[d])
    requires p in s.log && PartitionInv(s, p)
    ensures MapsInv(Apply(s, AcceptCommit(d))) && p in Apply(s, AcceptCommit(d)).log
    ensures PartitionInv(Apply(s, AcceptCommit(d)), p)
  {
    var x := s.deliveries[d];
    var t := Apply(s, AcceptCommit(d));
    if x.partition == p && x.commit.joined == s.generation {
      forall o | o in s.log[p] && o < x.offset + 1
        ensures (p, o) in t.acknowledged
      {
        assert s.committed[p] <= o ==> x.offset <= o;
      }
    }
  }

  lemma LeavingAtMember(s: State, a: Action, m: MemberId)
    requires MapsInv(s) && Enabled(s, a) && (a.Revoke? || a.Close?)
    requires m in s.members && MemberInv(s, m)
    ensures MapsInv(Apply(s, a)) && m in Apply(s, a).members && MemberInv(Apply(s, a), m)
  {
    hide NoneBetween, DeliveriesAfter;
  }

  lemma QuietAtMember(s: State, a: Action, m: MemberId)
    requires MapsInv(s) && Enabled(s, a) && Plain(a) && !a.Rebalance? && !a.Revoke? && !a.Close?
    requires m in s.members && MemberInv(s, m)
    ensures MapsInv(Apply(s, a)) && m in Apply(s, a).members && MemberInv(Apply(s, a), m)
  {
    hide NoneBetween, DeliveriesAfter, ActorAfter;
  }

  lemma PlainAtMember(s: State, a: Action, m: MemberId)
    requires MapsInv(s) && Enabled(s, a) && Plain(a) && !a.Rebalance?
    requires m in s.members && MemberInv(s, m)
    ensures MapsInv(Apply(s, a)) && m in Apply(s, a).members && MemberInv(Apply(s, a), m)
  {
    hide MapsInv, MemberInv, Apply;
    if a.Revoke? || a.Close? {
      LeavingAtMember(s, a, m);
    } else {
      QuietAtMember(s, a, m);
    }
  }

  lemma RebalanceAtMember(s: State, a: Action, m: MemberId)
    requires MapsInv(s) && Enabled(s, a) && a.Rebalance?
    requires m in s.members && MemberInv(s, m)
    ensures MapsInv(Apply(s, a)) && m in Apply(s, a).members && MemberInv(Apply(s, a), m)
  {
  }

  lemma AssignAtMember(s: State, a: Action, m: MemberId)
    requires MapsInv(s) && Enabled(s, a) && a.Assign?
    requires forall p :: p in s.owners && s.owners[p] == a.m ==> PartitionInv(s, p)
    requires m in s.members && MemberInv(s, m)
    ensures MapsInv(Apply(s, a)) && m in Apply(s, a).members && MemberInv(Apply(s, a), m)
  {
  }

  lemma AcceptAtMember(s: State, d: nat, m: MemberId)
    requires MapsInv(s) && Enabled(s, AcceptCommit(d)) && DeliveryInv(s, s.deliveries[d])
    requires m in s.members && MemberInv(s, m)
    ensures MapsInv(Apply(s, AcceptCommit(d))) && m in Apply(s, AcceptCommit(d)).members
    ensures MemberInv(Apply(s, AcceptCommit(d)), m)
  {
  }

  lemma FinishAtMember(s: State, d: nat, m: MemberId)
    requires MapsInv(s) && Enabled(s, FinishCommit(d)) && DeliveryInv(s, s.deliveries[d])
    requires PartitionInv(s, s.deliveries[d].partition)
    requires m in s.members && MemberInv(s, m)
    ensures MapsInv(Apply(s, FinishCommit(d))) && m in Apply(s, FinishCommit(d)).members
    ensures MemberInv(Apply(s, FinishCommit(d)), m)
  {
  }

  lemma PlainAtDelivery(s: State, a: Action, d: nat)
    requires MapsInv(s) && Enabled(s, a) && (a.NewMember? || a.Revoke? || a.Close?)
    requires d < |s.deliveries| && DeliveryInv(s, s.deliveries[d])
    ensures MapsInv(Apply(s, a)) && d < |Apply(s, a).deliveries| && DeliveryInv(Apply(s, a), Apply(s, a).deliveries[d])
  {
  }

  lemma SentDelivery(s: State, d: nat)
    requires MapsInv(s) && Enabled(s, SendCommit(d)) && DeliveryInv(s, s.deliveries[d])
    ensures DeliveryInv(s, Moved(s, SendCommit(d)))
  {
    hide NoneBetween, Apply, BrokerAfter, ActorAfter;
  }

  lemma SendAtDelivery(s: State, a: Action, d: nat)
    requires MapsInv(s) && Enabled(s, a) && a.SendCommit?
    requires d < |s.deliveries| && DeliveryInv(s, s.deliveries[d])
    ensures MapsInv(Apply(s, a)) && d < |Apply(s, a).deliveries| && DeliveryInv(Apply(s, a), Apply(s, a).deliveries[d])
  {
    assert Apply(s, a) == s.(deliveries := DeliveriesAfter(s, a));
    if a.d == d {
      SentDelivery(s, d);
    }
    hide Apply, BrokerAfter, ActorAfter, Moved, Enabled;
    DeliveryInvOfUnchanged(s, DeliveriesAfter(s, a), DeliveriesAfter(s, a)[d]);
  }

  /** What holds of a delivery does not depend on the list of deliveries. */
  lemma DeliveryInvOfUnchanged(s: State, deliveries: seq<Delivery>, x: Delivery)
    requires MapsInv(s) && DeliveryInv(s, x)
    ensures MapsInv(s.(deliveries := deliveries)) && DeliveryInv(s.(deliveries := deliveries), x)
  {
  }

  lemma CancelAtDelivery(s: State, a: Action, d: nat)
    requires MapsInv(s) && Enabled(s, a) && a.Cancel?
    requires d < |s.deliveries| && DeliveryInv(s, s.deliveries[d])
    ensures MapsInv(Apply(s, a)) && d < |Apply(s, a).deliveries| && DeliveryInv(Apply(s, a), Apply(s, a).deliveries[d])
  {
    assert Apply(s, a) == s.(deliveries := DeliveriesAfter(s, a));
    hide Apply, BrokerAfter, ActorAfter;
  }

  lemma ProduceAtDelivery(s: State, a: Action, d: nat)
    requires MapsInv(s) && Enabled(s, a) && a.Produce?
    requires d < |s.deliveries| && DeliveryInv(s, s.deliveries[d]) && PartitionInv(s, s.deliveries[d].partition)
    ensures MapsInv(Apply(s, a)) && d < |Apply(s, a).deliveries| && DeliveryInv(Apply(s, a), Apply(s, a).deliveries[d])
  {
  }

  lemma RebalanceAtDelivery(s: State, a: Action, d: nat)
    requires MapsInv(s) && Enabled(s, a) && a.Rebalance?
    requires d < |s.deliveries| && DeliveryInv(s, s.deliveries[d]) && PartitionInv(s, s.deliveries[d].partition)
    ensures MapsInv(Apply(s, a)) && d < |Apply(s, a).deliveries| && DeliveryInv(Apply(s, a), Apply(s, a).deliveries[d])
  {
  }

  lemma BrokerAtDelivery(s: State, a: Action, d: nat)
    requires MapsInv(s) && Enabled(s, a) && (a.Rebalance? || a.Produce?)
    requires d < |s.deliveries| && DeliveryInv(s, s.deliveries[d]) && PartitionInv(s, s.deliveries[d].partition)
    ensures MapsInv(Apply(s, a)) && d < |Apply(s, a).deliveries| && DeliveryInv(Apply(s, a), Apply(s, a).deliveries[d])
  {
    hide MapsInv, DeliveryInv, PartitionInv, Apply;
    if a.Produce? {
      ProduceAtDelivery(s, a, d);
    } else {
      RebalanceAtDelivery(s, a, d);
    }
  }

  lemma AssignAtDelivery(s: State, a: Action, d: nat)
    requires MapsInv(s) && Enabled(s, a) && a.Assign?
    requires d < |s.deliveries| && DeliveryInv(s, s.deliveries[d])
    ensures MapsInv(Apply(s, a)) && d < |Apply(s, a).deliveries| && DeliveryInv(Apply(s, a), Apply(s, a).deliveries[d])
  {
  }

  lemma AcceptedDelivery(s: State, c: nat)
    requires MapsInv(s) && Enabled(s, AcceptCommit(c)) && DeliveryInv(s, s.deliveries[c])
    ensures MapsInv(Apply(s, AcceptCommit(c))) && c < |Apply(s, AcceptCommit(c)).deliveries|
    ensures DeliveryInv(Apply(s, AcceptCommit(c)), Apply(s, AcceptCommit(c)).deliveries[c])
  {
  }

  lemma AcceptAtOther(s: State, c: nat, d: nat)
    requires MapsInv(s) && Enabled(s, AcceptCommit(c)) && DeliveryInv(s, s.deliveries[c])
    requires d < |s.deliveries| && DeliveryInv(s, s.deliveries[d]) && c != d
    requires s.deliveries[c].partition != s.deliveries[d].partition || s.deliveries[c].offset != s.deliveries[d].offset
             || !(s.deliveries[c].joined == s.deliveries[d].joined == s.generation)
    ensures MapsInv(Apply(s, AcceptCommit(c))) && d < |Apply(s, AcceptCommit(c)).deliveries|
    ensures DeliveryInv(Apply(s, AcceptCommit(c)), Apply(s, AcceptCommit(c)).deliveries[d])
  {
    hide ActorAfter, Received;
    assert Apply(s, AcceptCommit(c)).deliveries[d] == s.deliveries[d];
  }

  lemma AcceptAtDelivery(s: State, c: nat, d: nat)
    requires MapsInv(s) && Enabled(s, AcceptCommit(c)) && DeliveryInv(s, s.deliveries[c])
    requires d < |s.deliveries| && DeliveryInv(s, s.deliveries[d])
    requires c == d || s.deliveries[c].partition != s.deliveries[d].partition
        || s.deliveries[c].offset != s.deliveries[d].offset
             || !(s.deliveries[c].joined == s.deliveries[d].joined == s.generation)
    ensures MapsInv(Apply(s, AcceptCommit(c))) && d < |Apply(s, AcceptCommit(c)).deliveries|
    ensures DeliveryInv(Apply(s, AcceptCommit(c)), Apply(s, AcceptCommit(c)).deliveries[d])
  {
    hide MapsInv, DeliveryInv, Apply;
    if c == d {
      AcceptedDelivery(s, c);
    } else {
      AcceptAtOther(s, c, d);
    }
  }

  lemma FinishAtDelivery(s: State, c: nat, d: nat)
    requires MapsInv(s) && Enabled(s, FinishCommit(c)) && DeliveryInv(s, s.deliveries[c])
    requires d < |s.deliveries| && DeliveryInv(s, s.deliveries[d])
    requires c < d ==> Compatible(s.generation, s.deliveries[c], s.deliveries[d])
    requires d < c ==> Compatible(s.generation, s.deliveries[d], s.deliveries[c])
    ensures MapsInv(Apply(s, FinishCommit(c))) && d < |Apply(s, FinishCommit(c)).deliveries|
    ensures DeliveryInv(Apply(s, FinishCommit(c)), Apply(s, FinishCommit(c)).deliveries[d])
  {
  }

  lemma StepKeepsDeliveryFacts(s: State, a: Action, d: nat)
    requires Enabled(s, a) && d < |s.deliveries| && (s.deliveries[d].settled ==> s.deliveries[d].gone)
    ensures d < |Apply(s, a).deliveries|
    ensures var x, y := s.deliveries[d], Apply(s, a).deliveries[d];
            && y.member == x.member && y.partition == x.partition && y.offset == x.offset
                && y.generation == x.generation
            && y.joined == x.joined && y.possiblyRedelivered == x.possiblyRedelivered && y.current == x.current
            && (x.settled ==> y.settled)
  {
  }

  lemma StepAtCounters(s: State, a: Action)
    requires Enabled(s, a)
    ensures s.generation <= Apply(s, a).generation
    ensures !a.Fetch? ==> |Apply(s, a).deliveries| == |s.deliveries|
    ensures a.Fetch? ==>
              |Apply(s, a).deliveries| == if a.p in s.members[a.m].driver.pending then |s.deliveries|
                  else |s.deliveries| + 1
    ensures a.Fetch? ==> Apply(s, a).generation == s.generation
  {
  }

  lemma OldPair(s: State, a: Action, c: nat, d: nat)
    requires Enabled(s, a) && MapsInv(s) && c < d < |s.deliveries|
    requires DeliveryInv(s, s.deliveries[c]) && DeliveryInv(s, s.deliveries[d])
    requires Compatible(s.generation, s.deliveries[c], s.deliveries[d])
    ensures d < |Apply(s, a).deliveries|
    ensures Compatible(Apply(s, a).generation, Apply(s, a).deliveries[c], Apply(s, a).deliveries[d])
  {
    StepKeepsDeliveryFacts(s, a, c);
    StepKeepsDeliveryFacts(s, a, d);
    StepAtCounters(s, a);
  }

  lemma StepKeepsPairs(s: State, a: Action)
    requires MapsInv(s) && PairInv(s) && Enabled(s, a)
    requires forall d :: 0 <= d < |s.deliveries| ==> DeliveryInv(s, s.deliveries[d])
    requires Delivers(s, a) ==> MemberInv(s, a.m)
    ensures PairInv(Apply(s, a))
  {
    var t := Apply(s, a);
    forall c, d | 0 <= c < d < |t.deliveries|
      ensures Compatible(t.generation, t.deliveries[c], t.deliveries[d])
    {
      StepAtCounters(s, a);
      assert DeliveryInv(s, s.deliveries[c]);
      if d < |s.deliveries| {
        assert Compatible(s.generation, s.deliveries[c], s.deliveries[d]);
        assert DeliveryInv(s, s.deliveries[d]);
        OldPair(s, a, c, d);
      } else {
        FetchPair(s, a.m, a.p, a.offset, s.deliveries[c]);
      }
    }
  }

  /** What a step relies on about the member, delivery and partitions it touches. */
  ghost predicate Relies(s: State, a: Action)
    requires MapsInv(s) && Enabled(s, a)
  {
    match a
    case Fetch(m, p, _) => MemberInv(s, m) && PartitionInv(s, p)
    case Assign(m) => forall p :: p in s.owners && s.owners[p] == m ==> PartitionInv(s, p)
    case AcceptCommit(d) => DeliveryInv(s, s.deliveries[d])
    case FinishCommit(d) => DeliveryInv(s, s.deliveries[d]) && PartitionInv(s, s.deliveries[d].partition)
    case _ => true
  }

  lemma InvGivesRelies(s: State, a: Action)
    requires Inv(s) && Enabled(s, a)
    ensures Relies(s, a)
  {
    if a.AcceptCommit? || a.FinishCommit? {
      assert DeliveryInv(s, s.deliveries[a.d]);
    }
  }

  lemma StepKeepsMaps(s: State, a: Action)
    requires MapsInv(s) && Enabled(s, a)
    ensures MapsInv(Apply(s, a)) && Apply(s, a).log.Keys == s.log.Keys && s.members.Keys <= Apply(s, a).members.Keys
    ensures forall m :: m in Apply(s, a).members ==> m in s.members || a == NewMember(m)
  {
    hide NoneBetween, DeliveriesAfter, ActorAfter;
    MembersOnlyGrow(s, a);
  }

  lemma MembersOnlyGrow(s: State, a: Action)
    requires Enabled(s, a)
    ensures s.members.Keys <= Apply(s, a).members.Keys
    ensures forall m :: m in Apply(s, a).members ==> m in s.members || a == NewMember(m)
  {
    hide NoneBetween, DeliveriesAfter, ActorAfter, BrokerAfter;
  }

  lemma StepKeepsPartition(s: State, a: Action, p: Partition)
    requires MapsInv(s) && Enabled(s, a) && Relies(s, a)
    requires p in s.log && PartitionInv(s, p)
    ensures MapsInv(Apply(s, a)) && p in Apply(s, a).log && PartitionInv(Apply(s, a), p)
  {
    hide MemberInv, DeliveryInv, PartitionInv, Apply;
    if a.Fetch? {
      FetchPartition(s, a.m, a.p, a.offset, p);
    } else if a.AcceptCommit? {
      AcceptAtPartition(s, a.d, p);
    } else if a.Rebalance? || a.Produce? {
      BrokerAtPartition(s, a, p);
    } else {
      StepAtPartition(s, a, p);
    }
  }

  lemma StepKeepsMember(s: State, a: Action, m: MemberId)
    requires MapsInv(s) && Enabled(s, a) && Relies(s, a)
    requires m in s.members && MemberInv(s, m)
    ensures MapsInv(Apply(s, a)) && m in Apply(s, a).members && MemberInv(Apply(s, a), m)
  {
    hide MemberInv, DeliveryInv, PartitionInv, Apply;
    match a
    case Fetch(n, p, offset) => if n == m { FetchActor(s, n, p, offset); } else { FetchBystander(s, n, p, offset, m); }
    case Assign(_) => AssignAtMember(s, a, m);
    case AcceptCommit(d) => AcceptAtMember(s, d, m);
    case FinishCommit(d) => FinishAtMember(s, d, m);
    case Rebalance(_) => RebalanceAtMember(s, a, m);
    case _ => PlainAtMember(s, a, m);
  }

  lemma NewcomerInv(s: State, a: Action)
    requires MapsInv(s) && Enabled(s, a) && a.NewMember?
    ensures MapsInv(Apply(s, a)) && MemberInv(Apply(s, a), a.m)
  {
  }

  lemma StepKeepsDelivery(s: State, a: Action, d: nat)
    requires MapsInv(s) && Enabled(s, a) && Relies(s, a)
    requires d < |s.deliveries| && DeliveryInv(s, s.deliveries[d]) && PartitionInv(s, s.deliveries[d].partition)
    requires forall c :: 0 <= c < d ==> Compatible(s.generation, s.deliveries[c], s.deliveries[d])
    requires forall c :: d < c < |s.deliveries| ==> Compatible(s.generation, s.deliveries[d], s.deliveries[c])
    ensures MapsInv(Apply(s, a)) && d < |Apply(s, a).deliveries| && DeliveryInv(Apply(s, a), Apply(s, a).deliveries[d])
  {
    hide MemberInv, DeliveryInv, PartitionInv, Apply;
    match a
    case Fetch(m, p, offset) => FetchOldDelivery(s, m, p, offset, d);
    case Assign(_) => AssignAtDelivery(s, a, d);
    case AcceptCommit(c) => AcceptAtDelivery(s, c, d);
    case FinishCommit(c) => FinishAtDelivery(s, c, d);
    case Rebalance(_) => BrokerAtDelivery(s, a, d);
    case Produce(_, _) => BrokerAtDelivery(s, a, d);
    case SendCommit(_) => SendAtDelivery(s, a, d);
    case Cancel(_) => CancelAtDelivery(s, a, d);
    case _ => PlainAtDelivery(s, a, d);
  }

  lemma StepKeepsPartitions(s: State, a: Action)
    requires MapsInv(s) && Enabled(s, a) && Relies(s, a)
    requires forall p :: p in s.log ==> PartitionInv(s, p)
    ensures MapsInv(Apply(s, a))
    ensures forall p :: p in Apply(s, a).log ==> PartitionInv(Apply(s, a), p)
  {
    hide MemberInv, DeliveryInv, PartitionInv, Apply, Relies;
    StepKeepsMaps(s, a);
    forall p | p in Apply(s, a).log
      ensures PartitionInv(Apply(s, a), p)
    {
      StepKeepsPartition(s, a, p);
    }
  }

  lemma StepKeepsMembers(s: State, a: Action)
    requires MapsInv(s) && Enabled(s, a) && Relies(s, a)
    requires forall m :: m in s.members ==> MemberInv(s, m)
    ensures MapsInv(Apply(s, a))
    ensures forall m :: m in Apply(s, a).members ==> MemberInv(Apply(s, a), m)
  {
    hide MemberInv, DeliveryInv, PartitionInv, Apply, Relies;
    StepKeepsMaps(s, a);
    forall m | m in Apply(s, a).members
      ensures MemberInv(Apply(s, a), m)
    {
      if m in s.members { StepKeepsMember(s, a, m); } else { NewcomerInv(s, a); }
    }
  }

  lemma StepKeepsDeliveries(s: State, a: Action)
    requires MapsInv(s) && Enabled(s, a) && Relies(s, a) && PairInv(s)
    requires forall p :: p in s.log ==> PartitionInv(s, p)
    requires forall d :: 0 <= d < |s.deliveries| ==> DeliveryInv(s, s.deliveries[d])
    ensures MapsInv(Apply(s, a))
    ensures forall d :: 0 <= d < |Apply(s, a).deliveries| ==> DeliveryInv(Apply(s, a), Apply(s, a).deliveries[d])
  {
    hide PartitionInv, MemberInv;
    StepKeepsMaps(s, a);
    StepAtCounters(s, a);
    forall d | 0 <= d < |Apply(s, a).deliveries|
      ensures DeliveryInv(Apply(s, a), Apply(s, a).deliveries[d])
    {
      if d < |s.deliveries| {
        assert DeliveryInv(s, s.deliveries[d]);
        StepKeepsDelivery(s, a, d);
      } else {
        FetchNewDelivery(s, a.m, a.p, a.offset);
      }
    }
  }

  lemma StepKeepsInv(s: State, a: Action)
    requires Inv(s) && Enabled(s, a)
    ensures Inv(Apply(s, a))
  {
    hide MemberInv, DeliveryInv, PartitionInv, Compatible, Apply, Relies;
    InvGivesRelies(s, a);
    StepKeepsPartitions(s, a);
    StepKeepsMembers(s, a);
    StepKeepsDeliveries(s, a);
    StepKeepsPairs(s, a);
  }

  // ---- Main results ----------------------------------------------------------------------------

  ghost function Play(s: State, actions: seq<Action>): Option<State>
    decreases |actions|
  {
    if actions == [] then Some(s)
    else
      var t := Play(s, actions[..|actions| - 1]);
      var a := actions[|actions| - 1];
      if t.Some? && Enabled(t.value, a) then Some(Apply(t.value, a)) else None
  }

  ghost predicate Reachable(s: State) {
    exists partitions, actions :: Play(Initial(partitions), actions) == Some(s)
  }

  lemma {:induction false} RunsKeepInv(s: State, actions: seq<Action>)
    requires Inv(s) && Play(s, actions).Some?
    ensures Inv(Play(s, actions).value)
  {
    if actions != [] {
      RunsKeepInv(s, actions[..|actions| - 1]);
      StepKeepsInv(Play(s, actions[..|actions| - 1]).value, actions[|actions| - 1]);
    }
  }

  lemma ReachableInv(s: State)
    requires Reachable(s)
    ensures Inv(s)
  {
    var partitions, actions :| Play(Initial(partitions), actions) == Some(s);
    RunsKeepInv(Initial(partitions), actions);
  }

  ghost predicate HasRecord(s: State, p: Partition, o: Offset) {
    p in s.log && o in s.log[p]
  }

  lemma StepOnlyAdvances(s: State, a: Action, p: Partition)
    requires MapsInv(s) && Enabled(s, a) && Relies(s, a) && p in s.log
    ensures p in Apply(s, a).log && s.log[p] <= Apply(s, a).log[p]
    ensures p in Apply(s, a).committed && s.committed[p] <= Apply(s, a).committed[p]
    ensures s.acknowledged <= Apply(s, a).acknowledged
  {
    hide NoneBetween, DeliveriesAfter, ActorAfter;
  }

  lemma {:induction false} RunsOnlyAdvance(s: State, later: seq<Action>, p: Partition)
    requires Inv(s) && Play(s, later).Some? && p in s.log
    ensures var t := Play(s, later).value;
            && Inv(t) && p in t.log && s.log[p] <= t.log[p]
            && s.committed[p] <= t.committed[p] && s.acknowledged <= t.acknowledged
  {
    if later != [] {
      RunsOnlyAdvance(s, later[..|later| - 1], p);
      InvGivesRelies(Play(s, later[..|later| - 1]).value, later[|later| - 1]);
      StepOnlyAdvances(Play(s, later[..|later| - 1]).value, later[|later| - 1], p);
      StepKeepsInv(Play(s, later[..|later| - 1]).value, later[|later| - 1]);
    }
  }

  /** Conservation: in every run a produced record is, ever after, either at or past the partition's committed
      offset, where the next assignment starts reading, or acknowledged.  The committed offset never moves
      back. */
  lemma NoRecordIsSkipped(s: State, later: seq<Action>, p: Partition, o: Offset)
    requires Reachable(s) && HasRecord(s, p, o) && Play(s, later).Some?
    ensures var t := Play(s, later).value;
            && HasRecord(t, p, o) && p in s.committed && p in t.committed && s.committed[p] <= t.committed[p]
            && (t.committed[p] <= o || (p, o) in t.acknowledged)
  {
    ReachableInv(s);
    RunsOnlyAdvance(s, later, p);
    assert PartitionInv(Play(s, later).value, p);
  }

  ghost predicate AcceptedFor(s: State, p: Partition, o: Offset) {
    exists d :: 0 <= d < |s.deliveries| && s.deliveries[d].partition == p && s.deliveries[d].offset == o
                && s.deliveries[d].commit == Answered(true)
  }

  /** A record counts as acknowledged only because a delivery of that record asked for it. */
  lemma {:induction false} AcknowledgedByADelivery(partitions: set<Partition>, actions: seq<Action>, p: Partition,
      o: Offset)
    requires Play(Initial(partitions), actions).Some?
    requires (p, o) in Play(Initial(partitions), actions).value.acknowledged
    ensures AcceptedFor(Play(Initial(partitions), actions).value, p, o)
  {
    if actions != [] {
      var s := Play(Initial(partitions), actions[..|actions| - 1]).value;
      var a := actions[|actions| - 1];
      var t := Apply(s, a);
      if (p, o) in s.acknowledged {
        AcknowledgedByADelivery(partitions, actions[..|actions| - 1], p, o);
        var d :| 0 <= d < |s.deliveries| && s.deliveries[d].partition == p && s.deliveries[d].offset == o
                 && s.deliveries[d].commit == Answered(true);
        AnsweredStays(s, a, d);
        assert t.deliveries[d].commit == Answered(true);
      } else {
        assert a.AcceptCommit? && t.deliveries[a.d].commit == Answered(true);
      }
    }
  }

  lemma AnsweredStays(s: State, a: Action, d: nat)
    requires Enabled(s, a) && d < |s.deliveries| && s.deliveries[d].commit.Answered?
    ensures d < |Apply(s, a).deliveries|
    ensures var x, y := s.deliveries[d], Apply(s, a).deliveries[d];
            y.partition == x.partition && y.offset == x.offset && y.commit == x.commit
  {
  }

  /** No delivery, whatever its member knows of the group, is ever ahead of the committed offset: every record
      before it has already been acknowledged. */
  lemma DeliveredOnlyAfterItsPredecessors(s: State, d: nat, o: Offset)
    requires Reachable(s) && d < |s.deliveries|
    requires HasRecord(s, s.deliveries[d].partition, o) && o < s.deliveries[d].offset
    ensures (s.deliveries[d].partition, o) in s.acknowledged
  {
    ReachableInv(s);
    var x := s.deliveries[d];
    assert DeliveryInv(s, x) && PartitionInv(s, x.partition);
  }

  /** A record delivered as certainly new, to a member of the generation of that moment, had never been
      delivered to any member before. */
  lemma UnflaggedIsTheFirstDelivery(s: State, c: nat, d: nat)
    requires Reachable(s) && c < d < |s.deliveries|
    requires s.deliveries[d].current && !s.deliveries[d].possiblyRedelivered
    ensures s.deliveries[c].partition != s.deliveries[d].partition || s.deliveries[c].offset != s.deliveries[d].offset
  {
    ReachableInv(s);
    assert Compatible(s.generation, s.deliveries[c], s.deliveries[d]);
  }

  /** A commit sent before the last rebalance moves nothing, whenever it arrives. */
  lemma OutdatedCommitIsRefused(s: State, d: nat)
    requires Reachable(s) && Enabled(s, AcceptCommit(d)) && s.deliveries[d].joined < s.generation
    ensures Apply(s, AcceptCommit(d)).committed == s.committed
    ensures Apply(s, AcceptCommit(d)).acknowledged == s.acknowledged
    ensures Apply(s, AcceptCommit(d)).deliveries[d].commit == Answered(false)
  {
    ReachableInv(s);
    assert DeliveryInv(s, s.deliveries[d]);
  }

  /** A member never fetches a partition that still has a delivery in flight, so `receive` never refuses. */
  lemma ReceiveNeverRefuses(s: State, m: MemberId, p: Partition, offset: Offset)
    requires Reachable(s) && Enabled(s, Fetch(m, p, offset))
    ensures Delivers(s, Fetch(m, p, offset))
  {
    ReachableInv(s);
    assert MemberInv(s, m);
  }

  // ---- Deliveries in flight --------------------------------------------------------------------

  /** The member's `pending` names the delivery as the one of its partition. */
  predicate Registered(s: State, m: MemberId, p: Partition, d: nat) {
    m in s.members && p in s.members[m].driver.pending && s.members[m].driver.pending[p] == d
  }

  /** Received since the member last had partitions revoked, and not settled. */
  predicate InFlight(s: State, m: MemberId, p: Partition, d: nat) {
    && m in s.members && d < |s.deliveries|
    && s.deliveries[d].member == m && s.deliveries[d].partition == p
    && s.deliveries[d].generation == s.members[m].driver.generation && !s.deliveries[d].settled
  }

  /** Of what is assigned to the member, exactly the partitions with a delivery in flight are paused. */
  ghost predicate PausesExactly(x: Member) {
    forall p :: p in x.held ==> (p in x.driver.paused <==> p in x.driver.pending)
  }

  ghost predicate RegisterInv(s: State) {
    && (forall m, p, d: nat :: Registered(s, m, p, d) <==> InFlight(s, m, p, d))
    && (forall m :: m in s.members ==> PausesExactly(s.members[m]))
  }

  lemma FetchRegisters(s: State, a: Action)
    requires Inv(s) && Enabled(s, a) && a.Fetch?
    ensures var x, t := s.members[a.m], Apply(s, a);
      && a.p !in x.driver.pending
      && t.members.Keys == s.members.Keys && (forall n :: n in s.members && n != a.m ==> t.members[n] == s.members[n])
      && t.members[a.m].driver == x.driver.Took(a.p, |s.deliveries|)
      && t.deliveries == s.deliveries + [Received(s, a.m, a.p, a.offset)]
  {
    hide NoneBetween, PairInv, PartitionInv, DeliveryInv, BrokerAfter, Received;
    assert MemberInv(s, a.m);
  }

  lemma TakingRegisters(s: State, t: State, n: MemberId, q: Partition, m: MemberId, p: Partition, d: nat)
    requires n in s.members && q !in s.members[n].driver.pending && n in t.members && s.members.Keys == t.members.Keys
    requires forall k :: k in s.members && k != n ==> t.members[k] == s.members[k]
    requires t.members[n].driver == s.members[n].driver.Took(q, |s.deliveries|)
    requires |t.deliveries| == |s.deliveries| + 1 && t.deliveries[..|s.deliveries|] == s.deliveries
    requires InFlight(t, n, q, |s.deliveries|)
    requires forall k: nat :: Registered(s, m, p, k) <==> InFlight(s, m, p, k)
    ensures Registered(t, m, p, d) <==> InFlight(t, m, p, d)
  {
    assert d < |s.deliveries| ==> t.deliveries[d] == t.deliveries[..|s.deliveries|][d];
    assert Registered(s, m, p, d) <==> InFlight(s, m, p, d);
  }

  lemma FetchKeepsRegister(s: State, a: Action, m: MemberId, p: Partition, d: nat)
    requires Inv(s) && Enabled(s, a) && RegisterInv(s) && a.Fetch?
    ensures Registered(Apply(s, a), m, p, d) <==> InFlight(Apply(s, a), m, p, d)
  {
    FetchRegisters(s, a);
    NewDeliveryIsInFlight(s, a);
    hide Apply, Inv, Enabled, Registered, Received;
    TakingRegisters(s, Apply(s, a), a.m, a.p, m, p, d);
  }

  lemma NewDeliveryIsInFlight(s: State, a: Action)
    requires Enabled(s, a) && a.Fetch?
    ensures var y := Received(s, a.m, a.p, a.offset);
      y.member == a.m && y.partition == a.p && y.generation == s.members[a.m].driver.generation && !y.settled
  {
    hide NoneBetween;
  }

  lemma FinishKeepsRegister(s: State, a: Action, m: MemberId, p: Partition, d: nat)
    requires Inv(s) && Enabled(s, a) && RegisterInv(s) && a.FinishCommit?
    ensures Registered(Apply(s, a), m, p, d) <==> InFlight(Apply(s, a), m, p, d)
  {
    hide NoneBetween, PairInv, PartitionInv, MemberInv, BrokerAfter;
    assert DeliveryInv(s, s.deliveries[a.d]);
    assert Registered(s, m, p, d) <==> InFlight(s, m, p, d);
    assert InFlight(s, m, p, a.d) ==> Registered(s, m, p, a.d);
  }

  lemma MemberKeepsRegister(s: State, a: Action, m: MemberId, p: Partition, d: nat)
    requires Inv(s) && Enabled(s, a) && RegisterInv(s) && !a.Fetch? && Subject(a).None?
    ensures Registered(Apply(s, a), m, p, d) <==> InFlight(Apply(s, a), m, p, d)
  {
    hide NoneBetween, PairInv, PartitionInv, MemberInv, BrokerAfter;
    if d < |s.deliveries| {
      assert DeliveryInv(s, s.deliveries[d]);
    }
    assert Registered(s, m, p, d) <==> InFlight(s, m, p, d);
  }

  lemma CommitKeepsRegister(s: State, a: Action, m: MemberId, p: Partition, d: nat)
    requires Inv(s) && Enabled(s, a) && RegisterInv(s) && !a.FinishCommit? && Subject(a).Some?
    ensures Registered(Apply(s, a), m, p, d) <==> InFlight(Apply(s, a), m, p, d)
  {
    hide NoneBetween, PairInv, PartitionInv, MemberInv, BrokerAfter, DeliveryInv, ActorAfter;
    assert Registered(s, m, p, d) <==> InFlight(s, m, p, d);
  }

  lemma MovingPausesExactly(s: State, a: Action)
    requires Inv(s) && Enabled(s, a) && (a.Fetch? || a.FinishCommit?)
    requires PausesExactly(s.members[Actor(s, a).value])
    ensures PausesExactly(ActorAfter(s, a))
  {
    hide NoneBetween;
  }

  lemma LeavingPausesExactly(s: State, a: Action)
    requires Inv(s) && Enabled(s, a) && Actor(s, a).Some? && !a.Fetch? && !a.FinishCommit?
    requires Actor(s, a).value in s.members ==> PausesExactly(s.members[Actor(s, a).value])
    ensures PausesExactly(ActorAfter(s, a))
  {
    hide NoneBetween, PartitionInv, DeliveryInv, PairInv;
    assert Actor(s, a).value in s.members ==> MemberInv(s, Actor(s, a).value);
  }

  lemma StepAtMembers(s: State, a: Action)
    requires Enabled(s, a)
    ensures Apply(s, a).members ==
      if Actor(s, a).Some? then s.members[Actor(s, a).value := ActorAfter(s, a)] else s.members
  {
    hide NoneBetween, ActorAfter, BrokerAfter, DeliveriesAfter;
  }

  lemma StepPausesExactly(s: State, a: Action, m: MemberId)
    requires Inv(s) && Enabled(s, a) && m in Apply(s, a).members
    requires forall n :: n in s.members ==> PausesExactly(s.members[n])
    ensures PausesExactly(Apply(s, a).members[m])
  {
    StepAtMembers(s, a);
    if Actor(s, a) == Some(m) {
      if a.Fetch? || a.FinishCommit? {
        MovingPausesExactly(s, a);
      } else {
        LeavingPausesExactly(s, a);
      }
    }
    hide Apply, Inv, PausesExactly, ActorAfter, NoneBetween;
  }

  lemma StepKeepsRegister(s: State, a: Action)
    requires Inv(s) && Enabled(s, a) && RegisterInv(s)
    ensures RegisterInv(Apply(s, a))
  {
    hide Inv, Enabled, Apply, Registered, InFlight, PausesExactly;
    var t := Apply(s, a);
    forall m, p, d: nat
      ensures Registered(t, m, p, d) <==> InFlight(t, m, p, d)
    {
      if a.Fetch? {
        FetchKeepsRegister(s, a, m, p, d);
      } else if a.FinishCommit? {
        FinishKeepsRegister(s, a, m, p, d);
      } else if Subject(a).None? {
        MemberKeepsRegister(s, a, m, p, d);
      } else {
        CommitKeepsRegister(s, a, m, p, d);
      }
    }
    forall m | m in t.members
      ensures PausesExactly(t.members[m])
    {
      StepPausesExactly(s, a, m);
    }
  }

  lemma {:induction false} RunsKeepRegister(s: State, actions: seq<Action>)
    requires Inv(s) && RegisterInv(s) && Play(s, actions).Some?
    ensures RegisterInv(Play(s, actions).value)
    decreases |actions|
  {
    hide Inv, RegisterInv, Apply, Enabled;
    if actions == [] {
    } else {
      RunsKeepRegister(s, actions[..|actions| - 1]);
      RunsKeepInv(s, actions[..|actions| - 1]);
      StepKeepsRegister(Play(s, actions[..|actions| - 1]).value, actions[|actions| - 1]);
    }
  }

  lemma ReachableRegister(s: State)
    requires Reachable(s)
    ensures RegisterInv(s)
  {
    var partitions, actions :| Play(Initial(partitions), actions) == Some(s);
    InitialRegister(partitions);
    RunsKeepRegister(Initial(partitions), actions);
  }

  lemma InitialRegister(partitions: set<Partition>)
    ensures Inv(Initial(partitions)) && RegisterInv(Initial(partitions))
  {
  }

  /** What a rebalance cancels is what is in flight: `pending` names, for each partition, exactly the delivery that the
      member has received since its last revocation and has not settled. */
  lemma PendingIsWhatIsInFlight(s: State, m: MemberId, p: Partition, d: nat)
    requires Reachable(s)
    ensures Registered(s, m, p, d) <==> InFlight(s, m, p, d)
  {
    ReachableRegister(s);
  }

  /** An assigned partition is read from exactly while none of its deliveries is in flight: pausing it lasts until the
      acknowledgement, a cancelled delivery included, and no longer. */
  lemma FetchesIffNothingInFlight(s: State, m: MemberId, p: Partition, o: Offset)
    requires Reachable(s) && m in s.members && p in s.members[m].held && HasRecord(s, p, o)
    requires p in s.members[m].position && s.members[m].position[p] <= o
    requires NoneBetween(s, p, s.members[m].position[p], o)
    ensures Enabled(s, Fetch(m, p, o)) <==> forall d: nat :: !InFlight(s, m, p, d)
  {
    ReachableRegister(s);
    var pending := s.members[m].driver.pending;
    assert forall d: nat :: Registered(s, m, p, d) <==> InFlight(s, m, p, d);
    if p in pending {
      assert Registered(s, m, p, pending[p]);
    }
    hide NoneBetween;
  }

  /** An assignment resumes what it grants, starts at the committed offset and trusts nothing: the first record not
      acknowledged yet can be fetched at once, and is flagged. */
  lemma AssignmentStartsAfresh(s: State, m: MemberId, p: Partition, o: Offset)
    requires Reachable(s) && Enabled(s, Assign(m)) && p in s.owners && s.owners[p] == m
    requires HasRecord(s, p, o) && p in s.committed && s.committed[p] <= o && NoneBetween(s, p, s.committed[p], o)
    ensures var t := Apply(s, Assign(m));
      Enabled(t, Fetch(m, p, o)) && Received(t, m, p, o).possiblyRedelivered && Received(t, m, p, o).current
  {
    hide DeliveriesAfter;
    assert p in Granted(s, m);
  }

  /** The partition can be fetched from again, and is trusted. */
  predicate Freed(t: State, x: Delivery) {
    && x.member in t.members && x.partition in t.members[x.member].driver.trusted
    && x.partition !in t.members[x.member].driver.paused && x.partition !in t.members[x.member].driver.pending
  }

  ghost predicate Settled(t: State, x: Delivery, d: nat) {
    && d < |t.deliveries| && t.deliveries[d].settled
    && x.partition in t.committed && t.committed[x.partition] == x.offset + 1
    && (x.partition, x.offset) in t.acknowledged && Freed(t, x)
  }

  /** The whole of an acknowledgement nothing comes between: it goes its way exactly for an open consumer that has had
      no revocation since the delivery; and then, if the broker has not moved on either, the committed offset is the
      next one, the delivery is settled, and its partition is trusted and free again.  If it has, nothing changes. */
  lemma UndisturbedAcknowledge(s: State, d: nat)
    requires Reachable(s) && Enabled(s, SendCommit(d))
    ensures var x, m := s.deliveries[d], s.members[s.deliveries[d].member];
      var run := Play(s, [SendCommit(d), AcceptCommit(d), FinishCommit(d)]);
      && (run.Some? <==> !m.driver.closed && x.generation == m.driver.generation)
      && (run.Some? && m.joined == s.generation ==> Settled(run.value, x, d))
      && (run.Some? && m.joined != s.generation ==>
            run.value.committed == s.committed && run.value.acknowledged == s.acknowledged
            && run.value.members == s.members && !run.value.deliveries[d].settled)
  {
    var whole := [SendCommit(d), AcceptCommit(d), FinishCommit(d)];
    PlayThree(s, whole[0], whole[1], whole[2]);
    SentAlone(s, d);
    hide Play, Reachable;
    var t := Apply(s, SendCommit(d));
    if Enabled(t, AcceptCommit(d)) {
      AcceptedAlone(s, d, t);
      FinishedAlone(Apply(t, AcceptCommit(d)), d);
    }
  }

  lemma PlayThree(s: State, a: Action, b: Action, c: Action)
    requires Enabled(s, a)
    ensures var t := Apply(s, a);
      Play(s, [a, b, c]) == if Enabled(t, b) && Enabled(Apply(t, b), c) then Some(Apply(Apply(t, b), c)) else None
  {
    hide Apply, Enabled;
    var whole := [a, b, c];
    assert whole[..2] == [a, b] && [a, b][..1] == [a] && [a][..0] == [];
    PlayNothing(s);
    assert Play(s, [a]) == Some(Apply(s, a));
  }

  /** The delivery as the sending leaves it; a member that may not acknowledge gives it up. */
  lemma SentAlone(s: State, d: nat)
    requires Reachable(s) && Enabled(s, SendCommit(d))
    ensures var t, x, m := Apply(s, SendCommit(d)), s.deliveries[d], s.members[s.deliveries[d].member];
      && t == s.(deliveries := t.deliveries) && d < |t.deliveries| && x.partition in s.committed && !x.settled
      && (Enabled(t, AcceptCommit(d)) <==> !m.driver.closed && x.generation == m.driver.generation)
      && (Enabled(t, AcceptCommit(d)) ==> t.deliveries[d] == x.(commit := Sent(m.joined, x.offset + 1)))
  {
    SendOnlyMarks(s, d);
    SendMoves(s, d);
    OpenDeliveryIsUnsettled(s, d);
    hide Reachable, Apply, Moved, Received;
  }

  lemma OpenDeliveryIsUnsettled(s: State, d: nat)
    requires Reachable(s) && d < |s.deliveries| && !s.deliveries[d].gone
    ensures !s.deliveries[d].settled && s.deliveries[d].partition in s.committed
  {
    ReachableInv(s);
    assert DeliveryInv(s, s.deliveries[d]);
  }

  lemma SendMoves(s: State, d: nat)
    requires Enabled(s, SendCommit(d))
    ensures var x, m := s.deliveries[d], s.members[s.deliveries[d].member];
      Moved(s, SendCommit(d)) ==
        if x.settled || m.driver.closed || x.generation != m.driver.generation then x.(gone := true)
        else x.(commit := Sent(m.joined, x.offset + 1))
  {
    hide NoneBetween;
  }

  lemma SendOnlyMarks(s: State, d: nat)
    requires Enabled(s, SendCommit(d))
    ensures Apply(s, SendCommit(d)) == s.(deliveries := DeliveriesAfter(s, SendCommit(d)))
  {
    hide DeliveriesAfter, NoneBetween;
  }

  lemma AcceptedAlone(s: State, d: nat, t: State)
    requires d < |s.deliveries| && d < |t.deliveries| && t == s.(deliveries := t.deliveries)
    requires s.deliveries[d].member in s.members && !s.deliveries[d].settled && !s.deliveries[d].gone
    requires Enabled(t, AcceptCommit(d))
    requires t.deliveries[d] ==
      s.deliveries[d].(commit := Sent(s.members[s.deliveries[d].member].joined, s.deliveries[d].offset + 1))
    ensures var u, x, m := Apply(t, AcceptCommit(d)), s.deliveries[d], s.members[s.deliveries[d].member];
      && d < |u.deliveries| && u.deliveries[d] == x.(commit := Answered(m.joined == s.generation))
      && u.members == s.members && Enabled(u, FinishCommit(d))
      && x.partition in s.committed
      && u.committed ==
        (if m.joined == s.generation then s.committed[x.partition := x.offset + 1] else s.committed)
      && u.acknowledged ==
        (if m.joined == s.generation then s.acknowledged + {(x.partition, x.offset)} else s.acknowledged)
  {
    hide NoneBetween;
  }

  lemma FinishedAlone(u: State, d: nat)
    requires d < |u.deliveries| && Enabled(u, FinishCommit(d)) && u.deliveries[d].commit.Answered?
    ensures var v, x := Apply(u, FinishCommit(d)), u.deliveries[d];
      && d < |v.deliveries| && v.committed == u.committed && v.acknowledged == u.acknowledged
      && v.deliveries[d].settled == Settles(u, d)
      && (Settles(u, d) ==> Freed(v, x)) && (!Settles(u, d) ==> v.members == u.members)
  {
    hide NoneBetween;
  }

  /** The delivery has been given up, or its member is closed, and its commit has not been sent. */
  predicate CutOff(s: State, d: nat) {
    && d < |s.deliveries| && s.deliveries[d].commit.NotSent?
    && (s.deliveries[d].gone
        || (s.deliveries[d].member in s.members && s.members[s.deliveries[d].member].driver.closed))
  }

  lemma CutOffStays(s: State, a: Action, d: nat)
    requires Enabled(s, a) && CutOff(s, d)
    ensures CutOff(Apply(s, a), d)
  {
    DeliveryCutOff(s, a, d);
    if !s.deliveries[d].gone {
      ClosedStaysClosed(s, a, s.deliveries[d].member);
    }
    hide Apply, Enabled, NoneBetween;
  }

  lemma DeliveryCutOff(s: State, a: Action, d: nat)
    requires Enabled(s, a) && CutOff(s, d)
    ensures d < |Apply(s, a).deliveries| && Apply(s, a).deliveries[d].commit.NotSent?
    ensures Apply(s, a).deliveries[d].member == s.deliveries[d].member
    ensures s.deliveries[d].gone ==> Apply(s, a).deliveries[d].gone
  {
    hide NoneBetween, ActorAfter, BrokerAfter;
  }

  lemma ClosedStaysClosed(s: State, a: Action, m: MemberId)
    requires Enabled(s, a) && m in s.members && s.members[m].driver.closed
    ensures m in Apply(s, a).members && Apply(s, a).members[m].driver.closed
  {
    StepAtMembers(s, a);
    hide Apply, NoneBetween;
  }

  lemma {:induction false} CutOffForGood(s: State, d: nat, later: seq<Action>)
    requires CutOff(s, d) && Play(s, later).Some?
    ensures CutOff(Play(s, later).value, d)
    decreases |later|
  {
    hide CutOff, Apply, Enabled;
    if later == [] {
    } else {
      CutOffForGood(s, d, later[..|later| - 1]);
      CutOffStays(Play(s, later[..|later| - 1]).value, later[|later| - 1], d);
    }
  }

  /** After its task has been cancelled or its member closed, a delivery whose commit has not been sent is never
      committed, in any later run. */
  lemma CutOffNeverCommits(s: State, a: Action, d: nat, later: seq<Action>)
    requires Enabled(s, a) && d < |s.deliveries| && s.deliveries[d].commit.NotSent?
    requires a == Cancel(d) || a == Close(s.deliveries[d].member)
    requires Play(Apply(s, a), later).Some?
    ensures var t := Play(Apply(s, a), later).value; d < |t.deliveries| && t.deliveries[d].commit.NotSent?
  {
    hide NoneBetween;
    assert CutOff(Apply(s, a), d);
    hide Apply, Enabled;
    CutOffForGood(Apply(s, a), d, later);
  }

  // ---- Deliveries received in ignorance of a rebalance -----------------------------------------

  ghost predicate Delivered(s: State, p: Partition, o: Offset) {
    exists d :: 0 <= d < |s.deliveries| && s.deliveries[d].partition == p && s.deliveries[d].offset == o
  }

  /** As in `s`, member `m` is about to receive the record, which in `t` somebody has already received. */
  ghost predicate AboutToRepeat(s: State, t: State, m: MemberId, p: Partition, o: Offset) {
    && Enabled(t, Fetch(m, p, o)) && Delivered(t, p, o)
    && m in s.members && t.members[m] == s.members[m]
  }

  /** Some run, with rebalances or without, leaves `m` as it is and makes its next delivery a repeated one. */
  ghost predicate CanRepeat(s: State, m: MemberId, p: Partition, o: Offset, rebalances: bool) {
    exists later: seq<Action> ::
      && Play(s, later).Some? && (rebalances || forall k :: 0 <= k < |later| ==> !later[k].Rebalance?)
      && AboutToRepeat(s, Play(s, later).value, m, p, o)
  }

  lemma Extend(s: State, later: seq<Action>, t: State, a: Action) returns (longer: seq<Action>, u: State)
    requires Play(s, later) == Some(t) && Enabled(t, a)
    ensures longer == later + [a] && u == Apply(t, a) && Play(s, longer) == Some(u)
  {
    longer, u := later + [a], Apply(t, a);
    assert longer[..|later|] == later;
  }

  lemma PlayNothing(s: State)
    ensures Play(s, []) == Some(s)
  {
  }

  lemma {:induction false} FreshMember(ids: set<MemberId>) returns (n: MemberId)
    ensures forall i :: i in ids ==> i < n
  {
    if ids == {} {
      n := 0;
    } else {
      var x :| x in ids;
      var below := FreshMember(ids - {x});
      n := if below <= x then x + 1 else below;
      assert forall i :: i in ids ==> i == x || i in ids - {x};
    }
  }

  const IDLE: Driver<nat> := Driver(0, false, {}, {}, map[])
  const NEWCOMER: Member := Member(IDLE, 0, {}, map[])

  /** A newcomer that has just been given the partition alone. */
  ghost predicate Started(s: State, t: State, n: MemberId, p: Partition) {
    && p in s.committed && t.log == s.log && t.deliveries == s.deliveries
    && n in t.members && t.members[n] == Member(IDLE, t.generation, {p}, map[p := s.committed[p]])
    && forall m :: m in s.members ==> m in t.members && t.members[m] == s.members[m]
  }

  lemma NewcomerStarts(s: State, n: MemberId, p: Partition) returns (later: seq<Action>, t: State)
    requires MapsInv(s) && p in s.log && n !in s.members
    ensures Play(s, later) == Some(t) && Started(s, t, n, p)
  {
    hide Play, NoneBetween;
    PlayNothing(s);
    later, t := Extend(s, [], s, NewMember(n));
    var owners := map[p := n];
    assert t.members[n].held == {};
    later, t := Extend(s, later, t, Rebalance(owners));
    assert Granted(t, n) == {p};
    assert StartingPoints(t, {p}) == map[p := s.committed[p]];
    assert IDLE.Regained({p}) == IDLE;
    later, t := Extend(s, later, t, Assign(n));
  }

  lemma NewcomerReads(s: State, later: seq<Action>, t: State, m: MemberId, n: MemberId, p: Partition, o: Offset)
    requires Play(s, later) == Some(t) && Started(s, t, n, p) && n != m
    requires Enabled(s, Fetch(m, p, o)) && s.committed[p] <= o && NoneBetween(s, p, s.committed[p], o)
    ensures CanRepeat(s, m, p, o, true)
  {
    hide Play;
    var longer, u := Extend(s, later, t, Fetch(n, p, o));
    assert u.deliveries[|s.deliveries|].partition == p && u.deliveries[|s.deliveries|].offset == o;
    assert AboutToRepeat(s, u, m, p, o);
  }

  lemma EvictionRepeats(s: State, m: MemberId, p: Partition, o: Offset)
    requires Reachable(s) && Enabled(s, Fetch(m, p, o))
    ensures CanRepeat(s, m, p, o, true)
  {
    ReachableInv(s);
    assert MemberInv(s, m) && PartitionInv(s, p);
    if o < s.committed[p] {
      var partitions, actions :| Play(Initial(partitions), actions) == Some(s);
      AcknowledgedByADelivery(partitions, actions, p, o);
      PlayNothing(s);
      assert AboutToRepeat(s, s, m, p, o);
    } else {
      var n := FreshMember(s.members.Keys);
      var later, t := NewcomerStarts(s, n, p);
      NewcomerReads(s, later, t, m, n, p, o);
    }
  }

  lemma {:induction false} GenerationStays(s: State, later: seq<Action>)
    requires Play(s, later).Some? && forall k :: 0 <= k < |later| ==> !later[k].Rebalance?
    ensures Play(s, later).value.generation == s.generation
  {
    if later != [] {
      GenerationStays(s, later[..|later| - 1]);
      assert !later[|later| - 1].Rebalance?;
    }
  }

  lemma {:induction false} ReachableOnwards(s: State, later: seq<Action>)
    requires Reachable(s) && Play(s, later).Some?
    ensures Reachable(Play(s, later).value)
  {
    if later != [] {
      ReachableOnwards(s, later[..|later| - 1]);
      var t := Follow(Play(s, later[..|later| - 1]).value, later[|later| - 1]);
    }
  }

  /** A repeated record is received unflagged only by a member that has not joined the present generation. */
  lemma RepeatMeansEvicted(t: State, m: MemberId, p: Partition, o: Offset)
    requires Reachable(t) && Enabled(t, Fetch(m, p, o)) && p in t.members[m].driver.trusted && Delivered(t, p, o)
    ensures !Current(t, m)
  {
    ReceiveNeverRefuses(t, m, p, o);
    var u := Follow(t, Fetch(m, p, o));
    var c :| 0 <= c < |t.deliveries| && t.deliveries[c].partition == p && t.deliveries[c].offset == o;
    var d := |t.deliveries|;
    assert u.deliveries[d] == Received(t, m, p, o) && u.deliveries[c] == t.deliveries[c];
    if u.deliveries[d].current {
      UnflaggedIsTheFirstDelivery(u, c, d);
    }
  }

  /** Exactly when a trusted partition can betray its member: whatever the state, the delivery it is about to receive
      unflagged can become a repeated one, but for a member of the present generation only through a rebalance that
      passes it by. */
  lemma UnflaggedRepeatsIffEvicted(s: State, m: MemberId, p: Partition, o: Offset)
    requires Reachable(s) && Enabled(s, Fetch(m, p, o)) && p in s.members[m].driver.trusted
    ensures CanRepeat(s, m, p, o, true)
    ensures Current(s, m) ==> !CanRepeat(s, m, p, o, false)
  {
    EvictionRepeats(s, m, p, o);
    if CanRepeat(s, m, p, o, false) {
      var later: seq<Action> :| Play(s, later).Some? && (forall k :: 0 <= k < |later| ==> !later[k].Rebalance?)
                   && AboutToRepeat(s, Play(s, later).value, m, p, o);
      GenerationStays(s, later);
      ReachableOnwards(s, later);
      RepeatMeansEvicted(Play(s, later).value, m, p, o);
    }
  }

  // ---- A run with such a delivery --------------------------------------------------------------

  ghost predicate UnflaggedAgain(s: State) {
    exists c, d :: 0 <= c < d < |s.deliveries|
      && s.deliveries[c].partition == s.deliveries[d].partition && s.deliveries[c].offset == s.deliveries[d].offset
      && !s.deliveries[d].possiblyRedelivered && !s.deliveries[d].current
  }

  /** What matters of a group with one partition holding the records 0 and 1. */
  datatype World = World(generation: nat, owner: Option<MemberId>, committed: Offset, members: map<MemberId, Member>,
      deliveries: seq<Delivery>)

  ghost predicate Looks(s: State, w: World) {
    && Reachable(s)
    && s.log.Keys == {0} && s.log[0] == {0, 1} && 0 in s.ends
    && (w.owner.Some? ==> s.owners.Keys == {0} && s.owners[0] == w.owner.value)
    && s.committed.Keys == {0} && s.committed[0] == w.committed
    && s.generation == w.generation && s.members == w.members && s.deliveries == w.deliveries
  }

  lemma Follow(s: State, a: Action) returns (t: State)
    requires Reachable(s) && Enabled(s, a)
    ensures t == Apply(s, a) && Reachable(t)
  {
    var partitions, actions :| Play(Initial(partitions), actions) == Some(s);
    t := Apply(s, a);
    assert (actions + [a])[..|actions|] == actions;
    assert Play(Initial(partitions), actions + [a]) == Some(t);
  }

  lemma ProduceAt(s: State, end: Offset) returns (t: State)
    requires Reachable(s) && s.log.Keys == s.ends.Keys == {0} && s.ends[0] == end
    ensures t == s.(log := s.log[0 := s.log[0] + {end}], ends := s.ends[0 := end + 1]) && Reachable(t)
  {
    hide Inv, MapsInv, NoneBetween, ActorAfter, Moved, Received;
    t := Follow(s, Produce(0, 0));
    hide Reachable;
    assert t.log[0] == s.log[0] + {end};
  }

  lemma ProduceTwo() returns (s: State)
    ensures Reachable(s) && s.log.Keys == {0} && s.log[0] == {0, 1} && 0 in s.ends && s.owners == map[]
    ensures s.committed.Keys == {0} && s.committed[0] == 0 && s.generation == 0 && s.members == map[]
        && s.deliveries == []
  {
    s := Initial({0});
    assert Play(s, []) == Some(s);
    s := ProduceAt(s, 0);
    s := ProduceAt(s, 1);
  }

  lemma Newcomer() returns (s: State)
    ensures Looks(s, World(0, None, 0, map[1 := NEWCOMER], []))
  {
    s := ProduceTwo();
    s := Follow(s, NewMember(1));
  }

  lemma GiveTo(s: State, w: World, m: MemberId) returns (t: State)
    requires Looks(s, w) && m in w.members && w.members[m].held == {}
    ensures Looks(t, w.(generation := w.generation + 1, owner := Some(m)))
  {
    t := Follow(s, Rebalance(map[0 := m]));
  }

  lemma Take(s: State, w: World, m: MemberId) returns (t: State)
    requires Looks(s, w) && w.owner == Some(m) && w.generation > 0 && m in w.members && w.members[m] == NEWCOMER
    ensures Looks(t, w.(members := w.members[m := Member(IDLE, w.generation, {0}, map[0 := w.committed])]))
  {
    assert Granted(s, m) == {0};
    assert StartingPoints(s, {0}) == map[0 := w.committed];
    assert IDLE.Regained({0}) == IDLE;
    t := Follow(s, Assign(m));
  }

  lemma ReadAt(s: State, w: World, m: MemberId, offset: Offset) returns (t: State)
    requires Looks(s, w) && m in w.members && offset <= 1
    requires var x := w.members[m];
             x.held == {0} && x.position == map[0 := offset] && 0 !in x.driver.paused && 0 !in x.driver.pending
    ensures var x := w.members[m];
            Looks(t, w.(
              members := w.members[m := x.(position := map[0 := offset + 1],
                  driver := x.driver.Took(0, |w.deliveries|))],
              deliveries := w.deliveries +
                [Delivery(m, 0, offset, x.driver.generation, x.joined, 0 !in x.driver.trusted,
                    x.joined == w.generation, NotSent, false, false)]))
  {
    assert NoneBetween(s, 0, offset, offset);
    assert w.members[m].position[0 := offset + 1] == map[0 := offset + 1];
    t := Follow(s, Fetch(m, 0, offset));
  }

  lemma CommitFirst(s: State, w: World) returns (t: State)
    requires Looks(s, w) && |w.deliveries| == 1
    requires var x := w.deliveries[0];
             && !x.gone && !x.settled && x.commit.NotSent? && x.partition == 0 && x.member in w.members
             && !w.members[x.member].driver.closed && w.members[x.member].driver.generation == x.generation
             && w.members[x.member].joined == w.generation
    ensures Looks(t, w.(committed := w.deliveries[0].offset + 1,
        deliveries := [w.deliveries[0].(commit := Answered(true))]))
  {
    t := Follow(s, SendCommit(0));
    t := Follow(t, AcceptCommit(0));
  }

  lemma SettleFirst(s: State, w: World) returns (t: State)
    requires Looks(s, w) && |w.deliveries| == 1
    requires var x := w.deliveries[0];
             && !x.gone && x.commit == Answered(true) && x.partition == 0 && x.member in w.members
             && w.members[x.member].driver.generation == x.generation
    ensures var x := w.deliveries[0];
            var y := w.members[x.member];
            Looks(t, w.(members := w.members[x.member := y.(driver := y.driver.Settled(0))],
                        deliveries := [x.(settled := true, gone := true)]))
  {
    t := Follow(s, FinishCommit(0));
  }

  lemma FirstOwner() returns (s: State)
    ensures Looks(s, World(1, Some(1), 0, map[1 := Member(IDLE, 1, {0}, map[0 := 0])], []))
  {
    s := Newcomer();
    var w := World(0, None, 0, map[1 := NEWCOMER], []);
    s := GiveTo(s, w, 1);
    w := w.(generation := 1, owner := Some(1));
    s := Take(s, w, 1);
    assert w.members[1 := Member(IDLE, 1, {0}, map[0 := 0])] == map[1 := Member(IDLE, 1, {0}, map[0 := 0])];
  }

  lemma FirstRead() returns (s: State)
    ensures Looks(s, World(1, Some(1), 0, map[1 := Member(IDLE.Took(0, 0), 1, {0}, map[0 := 1])],
                           [Delivery(1, 0, 0, 0, 1, true, true, NotSent, false, false)]))
  {
    s := FirstOwner();
    var w := World(1, Some(1), 0, map[1 := Member(IDLE, 1, {0}, map[0 := 0])], []);
    s := ReadAt(s, w, 1, 0);
    var x := Member(IDLE.Took(0, 0), 1, {0}, map[0 := 1]);
    assert w.members[1 := x] == map[1 := x];
  }

  const TRUSTING: Member := Member(Driver(0, false, {0}, {}, map[]), 1, {0}, map[0 := 1])

  lemma FirstSettled() returns (s: State)
    ensures Looks(s, World(1, Some(1), 1, map[1 := TRUSTING],
                           [Delivery(1, 0, 0, 0, 1, true, true, Answered(true), true, true)]))
  {
    s := FirstRead();
    var d := Delivery(1, 0, 0, 0, 1, true, true, NotSent, false, false);
    var w := World(1, Some(1), 0, map[1 := Member(IDLE.Took(0, 0), 1, {0}, map[0 := 1])], [d]);
    s := CommitFirst(s, w);
    s := SettleFirst(s, w.(committed := 1, deliveries := [d.(commit := Answered(true))]));
    assert IDLE.Took(0, 0).Settled(0) == TRUSTING.driver;
    assert w.members[1 := TRUSTING] == map[1 := TRUSTING];
  }

  /** Member 1 processes and acknowledges the first record, and from then on trusts the partition.  It is then
      evicted without noticing and goes on reading: it receives, unflagged, the second record, which the new
      owner has already received. */
  lemma EvictedMemberReceivesUnflagged()
    ensures exists s :: Reachable(s) && UnflaggedAgain(s)
  {
    var s := FirstSettled();
    assert NoneBetween(s, 0, 1, 1);
    EvictionRepeats(s, 1, 0, 1);
    var later: seq<Action> :| Play(s, later).Some? && AboutToRepeat(s, Play(s, later).value, 1, 0, 1);
    ReachableOnwards(s, later);
    RepeatIsUnflaggedAgain(Play(s, later).value, 1, 0, 1);
  }

  lemma RepeatIsUnflaggedAgain(t: State, m: MemberId, p: Partition, o: Offset)
    requires Reachable(t) && Enabled(t, Fetch(m, p, o)) && p in t.members[m].driver.trusted && Delivered(t, p, o)
    ensures exists s :: Reachable(s) && UnflaggedAgain(s)
  {
    RepeatMeansEvicted(t, m, p, o);
    ReceiveNeverRefuses(t, m, p, o);
    var u := Follow(t, Fetch(m, p, o));
    var c :| 0 <= c < |t.deliveries| && t.deliveries[c].partition == p && t.deliveries[c].offset == o;
    assert u.deliveries[|t.deliveries|] == Received(t, m, p, o) && u.deliveries[c] == t.deliveries[c];
    assert UnflaggedAgain(u);
  }
}
