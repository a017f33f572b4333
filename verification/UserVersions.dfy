/**
 Optimistic versions at statement level: reads, conditional updates, commits, rollbacks and deletions of any
 number of transactions interleave.  A written row is locked until its transaction ends.
 */
module UserVersions {
  import opened Common
  import opened Users

  datatype Edit = Edit(change: Change, now: Time)

  /** Several mutators in a row. */
  function Edited(row: Row, edits: seq<Edit>): Row
    decreases |edits|
  {
    if edits == [] then row
    else Mutated(Edited(row, edits[..|edits| - 1]), edits[|edits| - 1].change, edits[|edits| - 1].now)
  }

  function NextVersion(row: Row): Row {
    row.(version := row.version + 1)
  }

  datatype Phase = Working | Written(row: Row) | Missed | Committed | Refused(failure: Failure) | RolledBack

  /** `basis` is the row as read, `aggregate` the object in memory. */
  datatype Tx = Tx(id: UserId, basis: Row, edits: seq<Edit>, aggregate: Row, phase: Phase)

  /** One committed row and how it came about; `author` is its transaction, or None for the insert. */
  datatype Link = Link(row: Row, author: Option<nat>)

  datatype State = State(
    rows: map<UserId, Row>,               // committed
    locks: map<UserId, nat>,
    txs: seq<Tx>,
    history: map<UserId, seq<Link>>)      // history: every committed row of every user ever created

  datatype Action =
    | Insert(id: UserId, row: Row)
    | Read(id: UserId)
    | Mutate(k: nat, edit: Edit)
    | Update(k: nat)
    | Classify(k: nat)
    | Commit(k: nat)
    | Rollback(k: nat)
    | Delete(id: UserId)

  function Initial(): State {
    State(map[], map[], [], map[])
  }

  predicate InPhase(s: State, k: nat, phase: Phase) {
    k < |s.txs| && s.txs[k].phase == phase
  }

  predicate HasWritten(s: State, k: nat) {
    k < |s.txs| && s.txs[k].phase.Written?
  }

  predicate Enabled(s: State, a: Action) {
    match a
    case Insert(id, row) => id !in s.history && row.version == 1
    case Read(id) => id in s.rows
    case Mutate(k, _) => InPhase(s, k, Working)
    case Update(k) => InPhase(s, k, Working) && s.txs[k].id !in s.locks
    case Classify(k) => InPhase(s, k, Missed)
    case Commit(k) => HasWritten(s, k)
    case Rollback(k) => InPhase(s, k, Working) || HasWritten(s, k) || InPhase(s, k, Missed)
    case Delete(id) => id in s.rows && id !in s.locks
  }

  function Put(s: State, k: nat, tx: Tx): State
    requires k < |s.txs|
  {
    s.(txs := s.txs[k := tx])
  }

  /** After the conditional UPDATE, as `repository.update` leaves row and aggregate. */
  function AfterUpdate(s: State, k: nat): State
    requires k < |s.txs|
  {
    var tx := s.txs[k];
    if UpdateOutcome(s.rows, tx.id, tx.aggregate.version) == Updated
    then Put(s, k, tx.(aggregate := NextVersion(tx.aggregate),
        phase := Written(UpdateValues(s.rows[tx.id], tx.aggregate)))).(locks := s.locks[tx.id := k])
    else Put(s, k, tx.(phase := Missed))
  }

  /** The second statement only asks whether the row exists. */
  function AfterClassify(s: State, k: nat): State
    requires k < |s.txs|
  {
    var tx := s.txs[k];
    Put(s, k, tx.(phase := Refused(if tx.id in s.rows then ConcurrentUpdate else NotFound)))
  }

  /** What the UPDATE wrote becomes visible; the object in memory is not looked at again. */
  function AfterCommit(s: State, k: nat): State
    requires HasWritten(s, k)
  {
    var tx := s.txs[k];
    Put(s, k, tx.(phase := Committed)).(
      rows := s.rows[tx.id := tx.phase.row],
      locks := s.locks - {tx.id},
      history := s.history[tx.id := LinksOf(s, tx.id) + [Link(tx.phase.row, Some(k))]])
  }

  function AfterRollback(s: State, k: nat): State
    requires k < |s.txs|
  {
    var tx := s.txs[k];
    Put(s, k, tx.(phase := RolledBack)).(locks := if tx.phase.Written? then s.locks - {tx.id} else s.locks)
  }

  function LinksOf(s: State, id: UserId): seq<Link> {
    if id in s.history then s.history[id] else []
  }

  function Apply(s: State, a: Action): State
    requires Enabled(s, a)
  {
    match a
    case Insert(id, row) => s.(rows := s.rows[id := row], history := s.history[id := [Link(row, None)]])
    case Read(id) => s.(txs := s.txs + [Tx(id, s.rows[id], [], s.rows[id], Working)])
    case Mutate(k, edit) =>
      var tx := s.txs[k];
      Put(s, k, tx.(aggregate := Mutated(tx.aggregate, edit.change, edit.now), edits := tx.edits + [edit]))
    case Update(k) => AfterUpdate(s, k)
    case Classify(k) => AfterClassify(s, k)
    case Commit(k) => AfterCommit(s, k)
    case Rollback(k) => AfterRollback(s, k)
    case Delete(id) => s.(rows := s.rows - {id})
  }

  function Play(s: State, actions: seq<Action>): Option<State>
    decreases |actions|
  {
    if actions == [] then Some(s)
    else
      var t := Play(s, actions[..|actions| - 1]);
      var a := actions[|actions| - 1];
      if t.Some? && Enabled(t.value, a) then Some(Apply(t.value, a)) else None
  }

  ghost predicate Reachable(s: State) {
    exists actions :: Play(Initial(), actions) == Some(s)
  }

  // ---- What every step keeps -------------------------------------------------------------------

  predicate HasVersion(s: State, id: UserId, row: Row) {
    id in s.history && 1 <= row.version <= |s.history[id]| && s.history[id][row.version - 1].row == row
  }

  /** Link `i` was computed from link `i - 1` by the transaction it names. */
  predicate LinkHolds(s: State, id: UserId, i: nat)
    requires id in s.history && i < |s.history[id]|
  {
    var link := s.history[id][i];
    && link.row.version == i + 1
    && (i == 0 ==> link.author == None)
    && (i > 0 ==>
      && link.author.Some? && link.author.value < |s.txs|
      && var tx := s.txs[link.author.value];
      && tx.id == id && tx.phase == Committed && tx.aggregate == link.row
      && tx.basis == s.history[id][i - 1].row && link.row == NextVersion(Edited(tx.basis, tx.edits)))
  }

  ghost predicate ChainsHold(s: State) {
    forall id, i :: id in s.history && 0 <= i < |s.history[id]| ==> LinkHolds(s, id, i)
  }

  predicate RowIsNewest(s: State, id: UserId) {
    id in s.rows ==> id in s.history && s.history[id] != [] && s.history[id][|s.history[id]| - 1].row == s.rows[id]
  }

  ghost predicate RowsAreNewest(s: State) {
    forall id :: RowIsNewest(s, id)
  }

  predicate TxHolds(s: State, k: nat)
    requires k < |s.txs|
  {
    var tx := s.txs[k];
    && HasVersion(s, tx.id, tx.basis)
    && (tx.phase == Working || tx.phase == Missed ==> tx.aggregate == Edited(tx.basis, tx.edits))
    && (tx.phase.Written? ==>
      && tx.aggregate == NextVersion(Edited(tx.basis, tx.edits)) && tx.phase.row == tx.aggregate
      && tx.id in s.rows && s.rows[tx.id] == tx.basis && tx.id in s.locks && s.locks[tx.id] == k)
    && (tx.phase == Missed ==> tx.id in s.rows ==> tx.basis.version < s.rows[tx.id].version)
    && (tx.phase == Committed ==>
      && HasVersion(s, tx.id, tx.aggregate)
      && s.history[tx.id][tx.aggregate.version - 1].author == Some(k))
    && (tx.phase == Refused(NotFound) ==> tx.id !in s.rows)
    && (tx.phase == Refused(ConcurrentUpdate) ==> tx.basis.version < |s.history[tx.id]|)
  }

  ghost predicate TxsHold(s: State) {
    forall k :: 0 <= k < |s.txs| ==> TxHolds(s, k)
  }

  ghost predicate LocksHold(s: State) {
    forall id :: id in s.locks ==> HasWritten(s, s.locks[id]) && s.txs[s.locks[id]].id == id
  }

  ghost predicate Inv(s: State) {
    ChainsHold(s) && RowsAreNewest(s) && TxsHold(s) && LocksHold(s)
  }

  /** Mutators leave the version and the creation time alone. */
  lemma {:induction false} EditsKeepVersion(row: Row, edits: seq<Edit>)
    ensures Edited(row, edits).version == row.version && Edited(row, edits).createdAt == row.createdAt
    decreases |edits|
  {
    if edits == [] {
    } else {
      EditsKeepVersion(row, edits[..|edits| - 1]);
    }
  }

  lemma StepKeepsLocks(s: State, a: Action)
    requires Enabled(s, a) && LocksHold(s) && TxsHold(s)
    ensures LocksHold(Apply(s, a))
  {
    hide Edited, HasVersion;
    if a.Commit? {
      assert TxHolds(s, a.k);
    } else if a.Rollback? {
      assert TxHolds(s, a.k);
    }
  }

  lemma StepKeepsNewest(s: State, a: Action)
    requires Enabled(s, a) && RowsAreNewest(s)
    ensures RowsAreNewest(Apply(s, a))
  {
    var t := Apply(s, a);
    forall id
      ensures RowIsNewest(t, id)
    {
      assert RowIsNewest(s, id);
    }
  }

  /** A committing transaction extends the newest row of its user. */
  lemma CommitExtendsNewest(s: State, k: nat)
    requires Inv(s) && HasWritten(s, k)
    ensures var tx := s.txs[k];
      && tx.id in s.history && tx.basis.version == |s.history[tx.id]|
      && s.history[tx.id] != [] && s.history[tx.id][|s.history[tx.id]| - 1].row == tx.basis
      && tx.aggregate.version == |s.history[tx.id]| + 1 && tx.aggregate == NextVersion(Edited(tx.basis, tx.edits))
      && tx.phase.row == tx.aggregate
  {
    var tx := s.txs[k];
    assert TxHolds(s, k);
    assert RowIsNewest(s, tx.id);
    assert LinkHolds(s, tx.id, |s.history[tx.id]| - 1);
    EditsKeepVersion(tx.basis, tx.edits);
  }

  lemma LinkStays(s: State, a: Action, id: UserId, i: nat)
    requires Enabled(s, a) && id in s.history && i < |s.history[id]| && LinkHolds(s, id, i)
    ensures id in Apply(s, a).history && i < |Apply(s, a).history[id]| && Apply(s, a).history[id][i] == s.history[id][i]
    ensures LinkHolds(Apply(s, a), id, i)
  {
    hide Edited;
  }

  lemma StepKeepsChains(s: State, a: Action)
    requires Enabled(s, a) && Inv(s)
    ensures ChainsHold(Apply(s, a))
  {
    var t := Apply(s, a);
    if a.Commit? {
      CommitExtendsNewest(s, a.k);
      NewLinkHolds(s, a.k);
    }
    forall id, i | id in t.history && 0 <= i < |t.history[id]|
      ensures LinkHolds(t, id, i)
    {
      if id in s.history && i < |s.history[id]| {
        assert LinkHolds(s, id, i);
        LinkStays(s, a, id, i);
      }
    }
  }

  lemma NewLinkHolds(s: State, k: nat)
    requires Enabled(s, Commit(k)) && Inv(s)
    ensures var t, id := AfterCommit(s, k), s.txs[k].id;
      id in t.history && |t.history[id]| == |LinksOf(s, id)| + 1 && LinkHolds(t, id, |t.history[id]| - 1)
  {
    hide Edited;
    CommitExtendsNewest(s, k);
  }

  /** What a step does to a transaction that is not its own. */
  lemma OtherTxStays(s: State, a: Action, k: nat)
    requires Enabled(s, a) && Inv(s) && k < |s.txs| && TxHolds(s, k)
    requires (a.Mutate? || a.Update? || a.Classify? || a.Commit? || a.Rollback?) ==> a.k != k
    ensures k < |Apply(s, a).txs| && TxHolds(Apply(s, a), k)
  {
    hide Edited;
    var tx, t := s.txs[k], Apply(s, a);
    if a.Commit? {
      CommitExtendsNewest(s, a.k);
      assert TxHolds(s, a.k);
    } else if a.Rollback? {
      assert TxHolds(s, a.k);
    } else if a.Insert? {
      assert RowIsNewest(s, tx.id);
    }
  }

  lemma OwnTxHolds(s: State, a: Action)
    requires Enabled(s, a) && Inv(s)
    requires a.Mutate? || a.Update? || a.Classify? || a.Rollback?
    ensures TxHolds(Apply(s, a), a.k)
  {
    var tx := s.txs[a.k];
    assert TxHolds(s, a.k) && RowIsNewest(s, tx.id);
    EditsKeepVersion(tx.basis, tx.edits);
    if a.Mutate? {
      assert (tx.edits + [a.edit])[..|tx.edits|] == tx.edits;
    } else if tx.id in s.rows {
      assert LinkHolds(s, tx.id, |s.history[tx.id]| - 1);
    }
  }

  lemma CommittedTxHolds(s: State, k: nat)
    requires Enabled(s, Commit(k)) && Inv(s)
    ensures TxHolds(AfterCommit(s, k), k)
  {
    hide Edited;
    CommitExtendsNewest(s, k);
    assert TxHolds(s, k);
  }

  lemma ReadTxHolds(s: State, id: UserId)
    requires Enabled(s, Read(id)) && Inv(s)
    ensures TxHolds(Apply(s, Read(id)), |s.txs|)
  {
    assert RowIsNewest(s, id);
    assert LinkHolds(s, id, |s.history[id]| - 1);
  }

  lemma StepKeepsTxs(s: State, a: Action)
    requires Enabled(s, a) && Inv(s)
    ensures TxsHold(Apply(s, a))
  {
    hide TxHolds, Inv;
    var t := Apply(s, a);
    forall k | 0 <= k < |t.txs|
      ensures TxHolds(t, k)
    {
      if k == |s.txs| {
        ReadTxHolds(s, a.id);
      } else if a == Commit(k) {
        CommittedTxHolds(s, k);
      } else if (a.Mutate? || a.Update? || a.Classify? || a.Rollback?) && a.k == k {
        OwnTxHolds(s, a);
      } else {
        TheTxHolds(s, k);
        OtherTxStays(s, a, k);
      }
    }
  }

  lemma TheTxHolds(s: State, k: nat)
    requires Inv(s) && k < |s.txs|
    ensures TxHolds(s, k)
  {
  }

  lemma StepKeepsInv(s: State, a: Action)
    requires Enabled(s, a) && Inv(s)
    ensures Inv(Apply(s, a))
  {
    hide Apply, ChainsHold, RowsAreNewest, TxsHold, LocksHold;
    StepKeepsLocks(s, a);
    StepKeepsNewest(s, a);
    StepKeepsChains(s, a);
    StepKeepsTxs(s, a);
  }

  lemma {:induction false} RunsKeepInv(s: State, actions: seq<Action>)
    requires Inv(s) && Play(s, actions).Some?
    ensures Inv(Play(s, actions).value)
    decreases |actions|
  {
    hide Inv, Apply, Enabled;
    if actions == [] {
    } else {
      RunsKeepInv(s, actions[..|actions| - 1]);
      StepKeepsInv(Play(s, actions[..|actions| - 1]).value, actions[|actions| - 1]);
    }
  }

  lemma ReachableKeepsInv(s: State)
    requires Reachable(s)
    ensures Inv(s)
  {
    var actions :| Play(Initial(), actions) == Some(s);
    RunsKeepInv(Initial(), actions);
  }

  // ---- Main results ----------------------------------------------------------------------------

  /** No update is lost: the committed rows of a user form one chain, and each was computed, by a committed
      transaction of its own, from the row committed immediately before it. */
  lemma EachUpdateBuildsOnTheLast(s: State, id: UserId, i: nat)
    requires Reachable(s) && id in s.history && 0 < i < |s.history[id]|
    ensures var link := s.history[id][i];
      && link.author.Some? && link.author.value < |s.txs| && s.txs[link.author.value].phase == Committed
      && s.txs[link.author.value].basis == s.history[id][i - 1].row
      && link.row == NextVersion(Edited(s.history[id][i - 1].row, s.txs[link.author.value].edits))
  {
    ReachableKeepsInv(s);
    assert LinkHolds(s, id, i);
  }

  /** Every committed transaction is one link of its user's chain, and no two are the same link. */
  lemma EveryCommitIsALink(s: State, k: nat)
    requires Reachable(s) && InPhase(s, k, Committed)
    ensures var tx := s.txs[k];
      && tx.id in s.history && 1 <= tx.aggregate.version <= |s.history[tx.id]|
      && s.history[tx.id][tx.aggregate.version - 1] == Link(tx.aggregate, Some(k))
  {
    ReachableKeepsInv(s);
    assert TxHolds(s, k);
  }

  /** The stored version is one more than the number of successful updates. */
  lemma VersionCountsUpdates(s: State, id: UserId)
    requires Reachable(s) && id in s.rows
    ensures id in s.history && s.history[id] != [] && s.rows[id].version == |s.history[id]|
        && s.history[id][|s.history[id]| - 1].row == s.rows[id]
  {
    ReachableKeepsInv(s);
    assert RowIsNewest(s, id);
    assert LinkHolds(s, id, |s.history[id]| - 1);
  }

  /** What the UPDATE wrote is what the object has become: after a commit the two agree, creation time and version
      included. */
  lemma CommitAgreesWithMemory(s: State, k: nat)
    requires Reachable(s) && HasWritten(s, k)
    ensures var tx, t := s.txs[k], Apply(s, Commit(k));
      && tx.id in t.rows && t.rows[tx.id] == t.txs[k].aggregate
      && t.rows[tx.id].version == tx.basis.version + 1
  {
    ReachableKeepsInv(s);
    CommitExtendsNewest(s, k);
  }

  /** The advance of the version in memory is not undone by a rollback: after one, the object is ahead of the stored
      row exactly when its update had been executed. */
  lemma RollbackLeavesMemoryAhead(s: State, k: nat)
    requires Reachable(s) && Enabled(s, Rollback(k))
    ensures var tx, t := s.txs[k], Apply(s, Rollback(k));
      && t.rows == s.rows && t.txs[k].phase == RolledBack && (tx.phase.Written? ==> tx.id !in t.locks)
      && (tx.phase.Written? ==> tx.id in t.rows && t.txs[k].aggregate.version == t.rows[tx.id].version + 1)
      && (!tx.phase.Written? ==> tx.id in t.rows ==> t.txs[k].aggregate.version <= t.rows[tx.id].version)
  {
    ReachableKeepsInv(s);
    var tx := s.txs[k];
    assert TxHolds(s, k) && RowIsNewest(s, tx.id);
    EditsKeepVersion(tx.basis, tx.edits);
    if tx.id in s.rows {
      assert LinkHolds(s, tx.id, |s.history[tx.id]| - 1);
    }
  }

  /** A conflict is only reported when another update of the user was committed after the read; a missing user stays
      missing, because ids are never used again. */
  lemma RefusalsAreJustified(s: State, k: nat)
    requires Reachable(s) && k < |s.txs|
    ensures s.txs[k].phase == Refused(ConcurrentUpdate) ==>
      s.txs[k].id in s.history && s.txs[k].basis.version < |s.history[s.txs[k].id]|
    ensures s.txs[k].phase == Refused(NotFound) ==> s.txs[k].id !in s.rows && s.txs[k].id in s.history
  {
    ReachableKeepsInv(s);
    assert TxHolds(s, k);
  }

  lemma Extend(s: State, later: seq<Action>, t: State, a: Action) returns (longer: seq<Action>, u: State)
    requires Play(s, later) == Some(t) && Enabled(t, a)
    ensures longer == later + [a] && u == Apply(t, a) && Play(s, longer) == Some(u)
  {
    longer, u := later + [a], Apply(t, a);
    assert longer[..|later|] == later;
  }

  lemma PlayNothing(s: State)
    ensures Play(s, []) == Some(s)
  {
  }

  lemma LockedIsKnown(s: State, id: UserId)
    requires Inv(s) && id in s.locks
    ensures id in s.history
  {
    assert TxHolds(s, s.locks[id]);
  }

  /** From any state on, a new user can be added, read, changed and committed by one transaction; the stored row is then
      the changed one with the next version, the lock is free, and nobody else's row has changed. */
  lemma UndisturbedTransaction(s: State, id: UserId, row: Row, edit: Edit) returns (later: seq<Action>, t: State)
    requires Reachable(s) && id !in s.history && row.version == 1
    ensures later == [Insert(id, row), Read(id), Mutate(|s.txs|, edit), Update(|s.txs|), Commit(|s.txs|)]
    ensures Play(s, later) == Some(t) && InPhase(t, |s.txs|, Committed)
    ensures t.rows == s.rows[id := Mutated(row, edit.change, edit.now).(version := 2)] && id !in t.locks
  {
    ReachableKeepsInv(s);
    if id in s.locks {
      LockedIsKnown(s, id);
    }
    hide Play, Inv, Reachable;
    later, t := ReadAndChanged(s, id, row, edit);
    UpdateGoesThrough(t, |s.txs|, id, row, edit);
    later, t := Extend(s, later, t, Update(|s.txs|));
    hide Enabled, Mutated;
    later, t := Extend(s, later, t, Commit(|s.txs|));
  }

  lemma UpdateGoesThrough(t: State, k: nat, id: UserId, row: Row, edit: Edit)
    requires k < |t.txs| && t.txs[k] == Tx(id, row, [edit], Mutated(row, edit.change, edit.now), Working)
    requires id in t.rows && t.rows[id] == row && id !in t.locks
    ensures var u, written := Apply(t, Update(k)), NextVersion(Mutated(row, edit.change, edit.now));
      && Enabled(t, Update(k)) && Enabled(u, Commit(k)) && u.rows == t.rows && u.locks == t.locks[id := k]
      && u.txs[k] == Tx(id, row, [edit], written, Written(written))
  {
  }

  lemma ReadAndChanged(s: State, id: UserId, row: Row, edit: Edit) returns (later: seq<Action>, t: State)
    requires id !in s.history && row.version == 1
    ensures later == [Insert(id, row), Read(id), Mutate(|s.txs|, edit)] && Play(s, later) == Some(t)
    ensures t.rows == s.rows[id := row] && t.locks == s.locks
    ensures t.txs == s.txs + [Tx(id, row, [edit], Mutated(row, edit.change, edit.now), Working)]
  {
    hide Play, Mutated;
    PlayNothing(s);
    later, t := Extend(s, [], s, Insert(id, row));
    later, t := Extend(s, later, t, Read(id));
    assert t.txs == s.txs + [Tx(id, row, [], row, Working)];
    later, t := Extend(s, later, t, Mutate(|s.txs|, edit));
    var none: seq<Edit> := [];
    assert none + [edit] == [edit];
    assert t.txs == s.txs + [Tx(id, row, none + [edit], Mutated(row, edit.change, edit.now), Working)];
  }

  /** An update that finds its row changed or gone is refused at the next statement, told apart by whether the user is
      still there, and changes nothing that is stored. */
  lemma DisturbedUpdateIsRefused(s: State, k: nat)
    requires Reachable(s) && Enabled(s, Update(k))
    requires var tx := s.txs[k]; tx.id !in s.rows || s.rows[tx.id] != tx.basis
    ensures var t := Apply(s, Update(k));
      && Enabled(t, Classify(k)) && Apply(t, Classify(k)).rows == s.rows && Apply(t, Classify(k)).locks == s.locks
      && Apply(t, Classify(k)).txs[k].phase ==
        Refused(if s.txs[k].id in s.rows then ConcurrentUpdate else NotFound)
  {
    UndisturbedUpdateSucceeds(s, k);
  }

  /** A deleted user is gone in every later run. */
  lemma {:induction false} DeletedForGood(s: State, id: UserId, later: seq<Action>)
    requires Reachable(s) && Enabled(s, Delete(id)) && Play(Apply(s, Delete(id)), later).Some?
    ensures id !in Play(Apply(s, Delete(id)), later).value.rows
  {
    ReachableKeepsInv(s);
    assert RowIsNewest(s, id);
    forall k | 0 <= k < |s.txs| && s.txs[k].id == id
      ensures !s.txs[k].phase.Written?
    {
      assert TxHolds(s, k);
    }
    AbsentForGood(Apply(s, Delete(id)), id, later);
  }

  /** No transaction has an update of the user pending, and its id has been used. */
  ghost predicate IsAbsent(s: State, id: UserId) {
    && id in s.history && id !in s.rows
    && forall k :: 0 <= k < |s.txs| && s.txs[k].id == id ==> !s.txs[k].phase.Written?
  }

  lemma StepKeepsAbsent(s: State, a: Action, id: UserId)
    requires Enabled(s, a) && IsAbsent(s, id)
    ensures IsAbsent(Apply(s, a), id)
  {
  }

  lemma {:induction false} AbsentForGood(s: State, id: UserId, later: seq<Action>)
    requires IsAbsent(s, id) && Play(s, later).Some?
    ensures IsAbsent(Play(s, later).value, id)
    decreases |later|
  {
    hide IsAbsent, Apply, Enabled;
    if later == [] {
    } else {
      AbsentForGood(s, id, later[..|later| - 1]);
      StepKeepsAbsent(Play(s, later[..|later| - 1]).value, later[|later| - 1], id);
    }
  }

  /** Conversely an update whose user is still stored as it was read always succeeds. */
  lemma UndisturbedUpdateSucceeds(s: State, k: nat)
    requires Reachable(s) && Enabled(s, Update(k))
    ensures Apply(s, Update(k)).txs[k].phase.Written? <==>
      s.txs[k].id in s.rows && s.rows[s.txs[k].id] == s.txs[k].basis
  {
    ReachableKeepsInv(s);
    var tx := s.txs[k];
    assert TxHolds(s, k) && RowIsNewest(s, tx.id);
    EditsKeepVersion(tx.basis, tx.edits);
    if tx.id in s.rows {
      assert LinkHolds(s, tx.id, |s.history[tx.id]| - 1);
    }
  }
}
