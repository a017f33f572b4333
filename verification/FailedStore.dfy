/**
 The SQL store of failed jobs: one row per failure id.  The primary key makes an insert of an existing id
 fail, and the store then keeps the first row.
 */
module FailedStore {
  import opened Common
  import opened JobExecution

  type Rows = map<FailureId, Record>

  /** The committed insert: an existing row wins. */
  function InsertRow(rows: Rows, record: Record): Rows {
    if record.failureId in rows then rows else rows[record.failureId := record]
  }

  datatype Operation = Save(record: Record) | Delete(failureId: FailureId)

  function After(ops: seq<Operation>): Rows
    decreases |ops|
  {
    if ops == [] then map[]
    else
      var rows := After(ops[..|ops| - 1]);
      match ops[|ops| - 1]
      case Save(record) => InsertRow(rows, record)
      case Delete(failureId) => rows - {failureId}
  }

  ghost predicate DeletedWithin(ops: seq<Operation>, f: FailureId, from: int, to: int) {
    exists i :: 0 <= from < i < to <= |ops| && ops[i] == Delete(f)
  }

  predicate SavesFor(op: Operation, f: FailureId) {
    op.Save? && op.record.failureId == f
  }

  /** `ops[k]` is the first save of `f` after the last deletion of `f`. */
  ghost predicate IsFirstSave(ops: seq<Operation>, f: FailureId, k: int) {
    && 0 <= k < |ops| && SavesFor(ops[k], f)
    && !DeletedWithin(ops, f, k, |ops|)
    && forall j :: 0 <= j < k && SavesFor(ops[j], f) ==> DeletedWithin(ops, f, j, k)
  }

  lemma WithinFront(ops: seq<Operation>, f: FailureId, from: int, to: int)
    requires ops != [] && to < |ops|
    ensures DeletedWithin(ops[..|ops| - 1], f, from, to) <==> DeletedWithin(ops, f, from, to)
  {
    if DeletedWithin(ops, f, from, to) {
      var i :| 0 <= from < i < to && ops[i] == Delete(f);
      assert ops[..|ops| - 1][i] == Delete(f);
    }
  }

  lemma {:induction false} AbsentMeansDeleted(ops: seq<Operation>, f: FailureId)
    ensures f !in After(ops) <==> forall j :: 0 <= j < |ops| && SavesFor(ops[j], f) ==> DeletedWithin(ops, f, j, |ops|)
  {
    if ops != [] {
      var front, last := ops[..|ops| - 1], ops[|ops| - 1];
      AbsentMeansDeleted(front, f);
      if last == Delete(f) {
        forall j | 0 <= j < |ops| && SavesFor(ops[j], f)
          ensures DeletedWithin(ops, f, j, |ops|)
        {
          assert ops[|ops| - 1] == Delete(f);
        }
      } else {
        forall j | 0 <= j < |front|
          ensures DeletedWithin(front, f, j, |front|) <==> DeletedWithin(ops, f, j, |ops|)
        {
          WithinFront(ops, f, j, |front|);
        }
        if SavesFor(last, f) {
          assert !DeletedWithin(ops, f, |ops| - 1, |ops|);
        }
        assert forall j :: 0 <= j < |front| ==> front[j] == ops[j];
      }
    }
  }

  /** Whatever saves and deletions arrive in whatever order, the store holds for each failure id exactly the
      first record saved since its last deletion, and nothing when there is none. */
  lemma {:induction false} FirstRecordWins(ops: seq<Operation>, f: FailureId)
    ensures f in After(ops) <==> exists k :: IsFirstSave(ops, f, k)
    ensures forall k :: IsFirstSave(ops, f, k) ==> f in After(ops) && After(ops)[f] == ops[k].record
  {
    forall k | IsFirstSave(ops, f, k)
      ensures f in After(ops) && After(ops)[f] == ops[k].record
    {
      FirstSaveIsStored(ops, f, k);
    }
    if f in After(ops) {
      StoredHasFirstSave(ops, f);
    }
  }

  lemma {:induction false} FirstSaveIsStored(ops: seq<Operation>, f: FailureId, k: int)
    requires IsFirstSave(ops, f, k)
    ensures f in After(ops) && After(ops)[f] == ops[k].record
  {
    var front := ops[..|ops| - 1];
    forall j | 0 <= j < k
      ensures DeletedWithin(front, f, j, k) <==> DeletedWithin(ops, f, j, k)
    {
      WithinFront(ops, f, j, k);
    }
    if k == |ops| - 1 {
      AbsentMeansDeleted(front, f);
    } else {
      if DeletedWithin(front, f, k, |front|) {
        WithinFront(ops, f, k, |front|);
      }
      assert ops[|ops| - 1] == Delete(f) ==> DeletedWithin(ops, f, k, |ops|);
      FirstSaveIsStored(front, f, k);
    }
  }

  lemma {:induction false} StoredHasFirstSave(ops: seq<Operation>, f: FailureId)
    requires f in After(ops)
    ensures exists k :: IsFirstSave(ops, f, k)
  {
    var front, last := ops[..|ops| - 1], ops[|ops| - 1];
    if f in After(front) {
      StoredHasFirstSave(front, f);
      var k :| IsFirstSave(front, f, k);
      assert forall j {:trigger DeletedWithin(ops, f, j, k)} :: 0 <= j < k && SavesFor(ops[j], f) ==>
          DeletedWithin(ops, f, j, k) by {
        forall j | 0 <= j < k && SavesFor(ops[j], f)
          ensures DeletedWithin(ops, f, j, k)
        {
          assert front[j] == ops[j];
          WithinFront(ops, f, j, k);
        }
      }
      WithinFront(ops, f, k, |front|);
      assert IsFirstSave(ops, f, k);
    } else {
      AbsentMeansDeleted(front, f);
      forall j | 0 <= j < |front| && SavesFor(ops[j], f)
        ensures DeletedWithin(ops, f, j, |front|)
      {
        assert front[j] == ops[j];
        WithinFront(ops, f, j, |front|);
      }
      assert IsFirstSave(ops, f, |ops| - 1);
    }
  }

  datatype StoreError = IntegrityError

  /** The store itself.  Between the failed insert and the second look other instances may delete the row. */
  class SqlFailedJobStore {
    var rows: Rows

    constructor ()
      ensures rows == map[]
    {
      rows := map[];
    }

    /** The insert inside `_save`. */
    method TryInsert(record: Record) returns (conflict: bool)
      modifies this
      ensures rows == InsertRow(old(rows), record)
      ensures conflict <==> record.failureId in old(rows)
    {
      if record.failureId in rows {
        return true;
      }
      rows := rows[record.failureId := record];
      conflict := false;
    }

    method Find(failureId: FailureId) returns (record: Option<Record>)
      ensures record == if failureId in rows then Some(rows[failureId]) else None
    {
      record := if failureId in rows then Some(rows[failureId]) else None;
    }

    /** The handler of the integrity error inside `_save`: an existing row settles it. */
    method Recheck(record: Record) returns (r: Outcome<(), StoreError>)
      ensures r.Returned? <==> record.failureId in rows
    {
      var existing := Find(record.failureId);
      r := if existing.None? then Raised(IntegrityError) else Returned(());
    }

    /** `save` undisturbed: it always succeeds, and afterwards a record of the id is stored. */
    method Save(record: Record) returns (r: Outcome<(), StoreError>)
      modifies this
      ensures rows == InsertRow(old(rows), record) && r.Returned?
      ensures record.failureId in rows
    {
      var conflict := TryInsert(record);
      if conflict {
        r := Recheck(record);
      } else {
        r := Returned(());
      }
    }

    method Delete(failureId: FailureId)
      modifies this
      ensures rows == old(rows) - {failureId}
    {
      rows := rows - {failureId};
    }
  }
}
