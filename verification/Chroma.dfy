/**
 Upserts against a store that merges metadata field by field: the client reads the old fields and writes a patch
 with deletion marks, both under one lock.  Deletions do not take the lock.
 */
module Chroma {
  import opened Common

  type Id = nat
  type Vector = nat
  type Key = nat
  type Value = nat
  type Metadata = map<Key, Value>

  /** The field every stored record carries; the callers' metadata cannot use it. */
  const RECORD: Key := 0
  const TRUE: Value := 1

  datatype Point = Point(vector: Vector, metadata: Metadata)

  /** A batch, and a store: at most one point for each id. */
  type Points = map<Id, Point>

  predicate ValidPoints(points: Points) {
    forall id :: id in points ==> RECORD !in points[id].metadata
  }

  // ---- The store -------------------------------------------------------------------------------

  /** The metadata of an upsert: the fields marked None, and the fields with a value. */
  datatype Patch = Patch(deleted: set<Key>, fields: Metadata)

  datatype PatchedPoint = PatchedPoint(vector: Vector, patch: Patch)

  /** Fields of the patch replace the old ones, None deletes, all others stay. */
  function Merge(before: Metadata, patch: Patch): Metadata {
    (before - patch.deleted) + patch.fields
  }

  function MetadataAt(store: Points, id: Id): Metadata {
    if id in store then store[id].metadata else map[]
  }

  function Patched(store: Points, id: Id, patched: PatchedPoint): Point {
    Point(patched.vector, Merge(MetadataAt(store, id), patched.patch))
  }

  function MergeAll(store: Points, patches: map<Id, PatchedPoint>): Points {
    store + (map id | id in patches :: Patched(store, id, patches[id]))
  }

  // ---- The client ------------------------------------------------------------------------------

  function Clean(metadata: Metadata): Metadata {
    metadata - {RECORD}
  }

  /** One element of `_replacement_metadatas`: old fields that are not given any more are marked None. */
  function Replacement(existing: Metadata, metadata: Metadata): Patch {
    Patch(existing.Keys - metadata.Keys, map[RECORD := TRUE] + metadata)
  }

  function ReplacementFor(read: map<Id, Metadata>, id: Id, point: Point): PatchedPoint {
    PatchedPoint(point.vector, Replacement(if id in read then Clean(read[id]) else map[], point.metadata))
  }

  /** The patches for a batch, from the metadata read before. */
  function Replacements(read: map<Id, Metadata>, points: Points): map<Id, PatchedPoint> {
    map id | id in points :: ReplacementFor(read, id, points[id])
  }

  /** The answer to `get` with metadata. */
  function Read(store: Points, points: Points): map<Id, Metadata> {
    map id | id in points && id in store :: store[id].metadata
  }

  function VisiblePoint(point: Point): Point {
    Point(point.vector, Clean(point.metadata))
  }

  /** What callers see of a store. */
  function Visible(store: Points): Points {
    map id | id in store :: VisiblePoint(store[id])
  }

  lemma ReplacementReplaces(before: Metadata, seen: Metadata, metadata: Metadata)
    requires RECORD !in metadata
    requires forall k :: k in before ==> k in seen
    ensures Clean(Merge(before, Replacement(Clean(seen), metadata))) == metadata
  {
    assert Clean(Merge(before, Replacement(Clean(seen), metadata))) == metadata;
  }

  predicate Covers(read: map<Id, Metadata>, store: Points, points: Points) {
    forall id :: id in points && id in store ==> id in read && store[id].metadata.Keys <= read[id].Keys
  }

  /** One point after the patched upsert. */
  lemma UpsertedPoint(store: Points, read: map<Id, Metadata>, points: Points, id: Id)
    ensures var after := MergeAll(store, Replacements(read, points));
      && (id in after <==> id in store || id in points)
      && (id in points ==> after[id] == Patched(store, id, ReplacementFor(read, id, points[id])))
      && (id in store && id !in points ==> after[id] == store[id])
  {
    hide Patched, ReplacementFor;
  }

  lemma PatchedPointIsVisible(store: Points, read: map<Id, Metadata>, points: Points, id: Id)
    requires ValidPoints(points) && Covers(read, store, points) && id in points
    ensures VisiblePoint(Patched(store, id, ReplacementFor(read, id, points[id]))) == points[id]
  {
    hide Merge, Replacement, Clean;
    var seen: Metadata := if id in read then read[id] else map[];
    EmptyIsClean();
    ReplacementReplaces(MetadataAt(store, id), seen, points[id].metadata);
  }

  lemma EmptyIsClean()
    ensures Clean(map[]) == map[]
  {
  }

  /** As long as the store holds no field that was not there when it was read, the patched upsert is a plain
      overwrite of the points it names, and nothing else changes. */
  lemma PatchesOverwrite(store: Points, read: map<Id, Metadata>, points: Points)
    requires ValidPoints(points) && Covers(read, store, points)
    ensures Visible(MergeAll(store, Replacements(read, points))) == Visible(store) + points
  {
    hide Patched, ReplacementFor, VisiblePoint, ValidPoints, Covers, MergeAll, Replacements;
    var after := MergeAll(store, Replacements(read, points));
    forall id
      ensures id in after <==> id in store || id in points
      ensures id in points ==> VisiblePoint(after[id]) == points[id]
      ensures id in store && id !in points ==> after[id] == store[id]
    {
      UpsertedPoint(store, read, points, id);
      if id in points {
        PatchedPointIsVisible(store, read, points, id);
      }
    }
  }

  /** A collection of the store, and the client's `upsert` while it holds the lock. */
  class Collection {
    var store: Points

    constructor ()
      ensures store == map[]
    {
      store := map[];
    }

    method Get(points: Points) returns (read: map<Id, Metadata>)
      ensures read == Read(store, points)
    {
      read := Read(store, points);
    }

    method Merged(patches: map<Id, PatchedPoint>)
      modifies this
      ensures store == MergeAll(old(store), patches)
    {
      store := MergeAll(store, patches);
    }

    method Upsert(points: Points)
      requires ValidPoints(points)
      modifies this
      ensures Visible(store) == Visible(old(store)) + points
    {
      if points == map[] {
        return;
      }
      var read := Get(points);
      PatchesOverwrite(store, read, points);
      Merged(Replacements(read, points));
    }

    method Delete(ids: set<Id>)
      modifies this
      ensures store == old(store) - ids
    {
      store := store - ids;
    }
  }

  // ---- Reading points --------------------------------------------------------------------------

  /** The ids' points in the caller's order; ids without a point are left out. */
  function InOrder(points: Points, ids: seq<Id>): seq<(Id, Point)> {
    if ids == [] then []
    else
      var rest := InOrder(points, ids[..|ids| - 1]);
      var id := ids[|ids| - 1];
      if id in points then rest + [(id, points[id])] else rest
  }

  /** The answer of the store, in any order: exactly the stored ones of the requested ids. */
  ghost predicate Answers(store: Points, ids: seq<Id>, found: seq<Id>, vectors: seq<Vector>, metadatas: seq<Metadata>) {
    && |found| == |vectors| == |metadatas|
    && (forall i :: 0 <= i < |found| ==> found[i] in store && store[found[i]] == Point(vectors[i], metadatas[i]))
    && (forall id :: id in ids && id in store ==> id in found)
  }

  /** `_chroma_points` and the reordering of `get`. */
  method GetPoints(ids: seq<Id>, found: seq<Id>, vectors: seq<Vector>, metadatas: seq<Metadata>, ghost store: Points)
    returns (r: Outcome<seq<(Id, Point)>, ()>)
    ensures r.Raised? <==> |found| != |vectors|
    ensures Answers(store, ids, found, vectors, metadatas) ==> r == Returned(InOrder(Visible(store), ids))
  {
    if |found| != |vectors| {
      return Raised(());
    }
    var points: Points := map[];
    for i := 0 to |found|
      invariant forall id :: id in points <==> id in found[..i]
      invariant Answers(store, ids, found, vectors, metadatas) ==>
        forall id :: id in points ==> id in store && points[id] == Visible(store)[id]
    {
      var metadata := if i < |metadatas| then metadatas[i] else map[];
      points := points[found[i] := Point(vectors[i], Clean(metadata))];
    }
    var ordered: seq<(Id, Point)> := [];
    for i := 0 to |ids|
      invariant Answers(store, ids, found, vectors, metadatas) ==> ordered == InOrder(Visible(store), ids[..i])
    {
      assert ids[..i + 1][..i] == ids[..i];
      assert found[..|found|] == found;
      if ids[i] in points {
        ordered := ordered + [(ids[i], points[ids[i]])];
      }
    }
    assert ids[..|ids|] == ids;
    r := Returned(ordered);
  }

  /** Every existing requested point appears, in the order of the request. */
  lemma {:induction false} InOrderKeepsOrder(points: Points, ids: seq<Id>, k: nat)
    requires k < |ids| && ids[k] in points
    ensures |InOrder(points, ids[..k])| < |InOrder(points, ids)|
    ensures InOrder(points, ids)[|InOrder(points, ids[..k])|] == (ids[k], points[ids[k]])
    decreases |ids|
  {
    if k < |ids| - 1 {
      InOrderKeepsOrder(points, ids[..|ids| - 1], k);
      assert ids[..|ids| - 1][..k] == ids[..k];
    }
  }

  /** The places of the request at which an existing point stands. */
  function Existing(points: Points, ids: seq<Id>): set<nat> {
    set k: nat | k < |ids| && ids[k] in points
  }

  /** And there are no more of them: the answer is as long as the request has existing points. */
  lemma {:induction false} InOrderHasNoMore(points: Points, ids: seq<Id>)
    ensures |InOrder(points, ids)| == |Existing(points, ids)|
    decreases |ids|
  {
    if ids == [] {
      assert Existing(points, ids) == {};
    } else {
      var front, last := ids[..|ids| - 1], |ids| - 1;
      InOrderHasNoMore(points, front);
      if ids[last] in points {
        assert Existing(points, ids) == Existing(points, front) + {last};
      } else {
        assert Existing(points, ids) == Existing(points, front);
      }
    }
  }

  // ---- Concurrent upserts ----------------------------------------------------------------------

  datatype Phase = Waiting | Holding | HasRead(read: map<Id, Metadata>) | Over

  datatype Task = Task(points: Points, phase: Phase)

  datatype State = State(
    store: Points,
    holder: Option<nat>,
    tasks: seq<Task>,
    plain: Points)          // what a store would hold in which every upsert is one plain overwrite

  datatype Action =
    | Call(points: Points)
    | Lock(t: nat)
    | ReadOld(t: nat)
    | Write(t: nat)
    | Fail(t: nat, written: bool)
    | DeleteIds(ids: set<Id>)

  function Initial(store: Points): State {
    State(store, None, [], Visible(store))
  }

  predicate Holds(s: State, t: nat) {
    t < |s.tasks| && s.holder == Some(t)
  }

  /** A failing write may have reached the store or not. */
  predicate Enabled(s: State, a: Action) {
    match a
    case Call(points) => ValidPoints(points)
    case Lock(t) => t < |s.tasks| && s.tasks[t].phase.Waiting? && s.holder.None?
    case ReadOld(t) => Holds(s, t) && s.tasks[t].phase.Holding?
    case Write(t) => Holds(s, t) && s.tasks[t].phase.HasRead?
    case Fail(t, written) =>
      t < |s.tasks| && !s.tasks[t].phase.Over? && (written ==> Holds(s, t) && s.tasks[t].phase.HasRead?)
    case DeleteIds(_) => true
  }

  function Put(s: State, t: nat, phase: Phase): State
    requires t < |s.tasks|
  {
    s.(tasks := s.tasks[t := s.tasks[t].(phase := phase)])
  }

  function Written(s: State, t: nat): State
    requires t < |s.tasks| && s.tasks[t].phase.HasRead?
  {
    s.(store := MergeAll(s.store, Replacements(s.tasks[t].phase.read, s.tasks[t].points)),
       plain := s.plain + s.tasks[t].points)
  }

  function Apply(s: State, a: Action): State
    requires Enabled(s, a)
  {
    match a
    case Call(points) => s.(tasks := s.tasks + [Task(points, Waiting)])
    case Lock(t) => Put(s, t, Holding).(holder := Some(t))
    case ReadOld(t) => Put(s, t, HasRead(Read(s.store, s.tasks[t].points)))
    case Write(t) => Put(Written(s, t), t, Over).(holder := None)
    case Fail(t, written) =>
      Put(if written then Written(s, t) else s, t, Over).(holder := if Holds(s, t) then None else s.holder)
    case DeleteIds(ids) => s.(store := s.store - ids, plain := s.plain - ids)
  }

  function Play(s: State, actions: seq<Action>): Option<State>
    decreases |actions|
  {
    if actions == [] then Some(s)
    else
      var t := Play(s, actions[..|actions| - 1]);
      var a := actions[|actions| - 1];
      if t.Some? && Enabled(t.value, a) then Some(Apply(t.value, a)) else None
  }

  ghost predicate LockHolds(s: State) {
    (s.holder.Some? ==> s.holder.value < |s.tasks|)
    && forall t :: 0 <= t < |s.tasks| ==>
        (s.tasks[t].phase.Holding? || s.tasks[t].phase.HasRead? <==> s.holder == Some(t))
  }

  ghost predicate ReadsCover(s: State) {
    forall t :: 0 <= t < |s.tasks| ==>
      ValidPoints(s.tasks[t].points)
      && (s.tasks[t].phase.HasRead? ==> Covers(s.tasks[t].phase.read, s.store, s.tasks[t].points))
  }

  ghost predicate Inv(s: State) {
    LockHolds(s) && ReadsCover(s) && Visible(s.store) == s.plain
  }

  lemma StepKeepsLock(s: State, a: Action)
    requires Enabled(s, a) && LockHolds(s)
    ensures LockHolds(Apply(s, a))
  {
  }

  /** What was read under the lock still covers the store: only deletions come between. */
  lemma StepKeepsReads(s: State, a: Action)
    requires Enabled(s, a) && LockHolds(s) && ReadsCover(s)
    ensures ReadsCover(Apply(s, a))
  {
    hide MergeAll, Replacements, ValidPoints;
    var u := Apply(s, a);
    forall t | 0 <= t < |u.tasks|
      ensures ValidPoints(u.tasks[t].points)
      ensures u.tasks[t].phase.HasRead? ==> Covers(u.tasks[t].phase.read, u.store, u.tasks[t].points)
    {
      if t < |s.tasks| && s.tasks[t].phase.HasRead? {
        assert s.holder == Some(t);
      }
    }
  }

  lemma StepKeepsPlain(s: State, a: Action)
    requires Enabled(s, a) && Inv(s)
    ensures Visible(Apply(s, a).store) == Apply(s, a).plain
  {
    hide MergeAll, Replacements;
    if a.Write? || (a.Fail? && a.written) {
      PatchesOverwrite(s.store, s.tasks[a.t].phase.read, s.tasks[a.t].points);
    } else if a.DeleteIds? {
      assert Visible(s.store - a.ids) == Visible(s.store) - a.ids;
    }
  }

  lemma {:induction false} RunsKeepInv(s: State, actions: seq<Action>)
    requires Inv(s) && Play(s, actions).Some?
    ensures Inv(Play(s, actions).value)
    decreases |actions|
  {
    hide LockHolds, ReadsCover, Apply, Enabled;
    if actions == [] {
    } else {
      var t, a := Play(s, actions[..|actions| - 1]).value, actions[|actions| - 1];
      RunsKeepInv(s, actions[..|actions| - 1]);
      StepKeepsLock(t, a);
      StepKeepsReads(t, a);
      StepKeepsPlain(t, a);
    }
  }

  // ---- Main results ----------------------------------------------------------------------------

  /** However the upserts and deletions of one client interleave, and whichever writes fail after reaching the store,
      callers see exactly what plain overwrites, in lock order, and deletions would leave. */
  lemma UpsertsArePlainOverwrites(store: Points, actions: seq<Action>)
    requires Play(Initial(store), actions).Some?
    ensures Visible(Play(Initial(store), actions).value.store) == Play(Initial(store), actions).value.plain
  {
    RunsKeepInv(Initial(store), actions);
  }

  lemma PlayFour(s: State, a: Action, b: Action, c: Action, d: Action)
    requires Enabled(s, a) && Enabled(Apply(s, a), b) && Enabled(Apply(Apply(s, a), b), c)
    requires Enabled(Apply(Apply(Apply(s, a), b), c), d)
    ensures Play(s, [a, b, c, d]) == Some(Apply(Apply(Apply(Apply(s, a), b), c), d))
  {
    hide Apply, Enabled;
    assert [a, b, c, d][..3] == [a, b, c] && [a, b, c][..2] == [a, b] && [a, b][..1] == [a] && [a][..0] == [];
    assert Play(s, []) == Some(s);
    assert Play(s, [a]) == Some(Apply(s, a));
    assert Play(s, [a, b]) == Some(Apply(Apply(s, a), b));
    assert Play(s, [a, b, c]) == Some(Apply(Apply(Apply(s, a), b), c));
  }

  /** With the lock free an upsert can go through in four steps, leaving the lock free and its points, and nothing but
      its points, overwritten. */
  lemma UndisturbedUpsert(store: Points, before: seq<Action>, s: State, points: Points)
    requires Play(Initial(store), before) == Some(s) && s.holder.None? && ValidPoints(points)
    ensures var n := |s.tasks|;
      var run := Play(s, [Call(points), Lock(n), ReadOld(n), Write(n)]);
      && run.Some? && run.value.holder.None? && n < |run.value.tasks| && run.value.tasks[n].phase == Over
      && Visible(run.value.store) == Visible(s.store) + points
  {
    hide ValidPoints, Replacements, MergeAll, Visible;
    var n := |s.tasks|;
    UpsertSteps(s, points);
    hide Apply, Enabled, Play;
    PatchesOverwrite(s.store, Read(s.store, points), points);
  }

  lemma UpsertSteps(s: State, points: Points)
    requires s.holder.None? && ValidPoints(points)
    ensures var n := |s.tasks|;
      Play(s, [Call(points), Lock(n), ReadOld(n), Write(n)]) ==
        Some(s.(store := MergeAll(s.store, Replacements(Read(s.store, points), points)), plain := s.plain + points,
                tasks := s.tasks + [Task(points, Over)]))
  {
    hide Play, ValidPoints, Replacements, MergeAll, Read;
    var n := |s.tasks|;
    var called := s.(tasks := s.tasks + [Task(points, Waiting)]);
    var locked := s.(tasks := s.tasks + [Task(points, Holding)], holder := Some(n));
    var read := locked.(tasks := s.tasks + [Task(points, HasRead(Read(s.store, points)))]);
    assert Apply(s, Call(points)) == called && Apply(called, Lock(n)) == locked && Apply(locked, ReadOld(n)) == read;
    PlayFour(s, Call(points), Lock(n), ReadOld(n), Write(n));
    assert Apply(read, Write(n)).tasks == s.tasks + [Task(points, Over)];
  }

  /** A failing upsert frees the lock; the store has its points if the write got there, and is as before if not. */
  lemma FailureFreesTheLock(store: Points, before: seq<Action>, s: State, t: nat, written: bool)
    requires Play(Initial(store), before) == Some(s) && Enabled(s, Fail(t, written))
    ensures var u := Apply(s, Fail(t, written));
      && u.holder == (if s.holder == Some(t) then None else s.holder) && u.tasks[t].phase == Over
      && Visible(u.store) == if written then Visible(s.store) + s.tasks[t].points else Visible(s.store)
  {
    RunsKeepInv(Initial(store), before);
    if written {
      PatchesOverwrite(s.store, s.tasks[t].phase.read, s.tasks[t].points);
    }
    hide ValidPoints, Replacements, MergeAll, Visible;
  }

  /** A deletion takes away its points, lock or no lock, and leaves the others. */
  lemma DeletionTakesAway(s: State, ids: set<Id>)
    ensures Enabled(s, DeleteIds(ids)) && Visible(Apply(s, DeleteIds(ids)).store) == Visible(s.store) - ids
  {
    assert Visible(s.store - ids) == Visible(s.store) - ids;
  }

  /** The lock is needed: if another client overwrites a point between the read and the write, the fields it has set
      survive in a point that is written without them. */
  lemma UnlockedUpsertsMix(store: Points, mine: Points, theirs: Points, id: Id, key: Key)
    requires ValidPoints(mine) && ValidPoints(theirs) && id in mine && id in theirs
    requires id !in store && key in theirs[id].metadata && key !in mine[id].metadata
    ensures var between := MergeAll(store, Replacements(Read(store, theirs), theirs));
      var after := Visible(MergeAll(between, Replacements(Read(store, mine), mine)));
      id in after && key in after[id].metadata && after[id] != mine[id]
  {
    hide MergeAll, Replacements;
    UpsertedPoint(store, Read(store, theirs), theirs, id);
    UpsertedPoint(MergeAll(store, Replacements(Read(store, theirs), theirs)), Read(store, mine), mine, id);
  }
}
