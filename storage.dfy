/**
 * The storage gateway of gw_clock_api.py (class SqliteUtils, lines 23-97) and the
 * `actions` table it reaches. The table is held as a map from primary key to row;
 * each SQL statement the handlers issue is a Statement, described by its effect on
 * that map and by the row count sqlite reports for it.
 */
module Storage {
  import opened Wrappers
  import opened PyRuntime

  /** What executing a statement can raise: sqlite3.OperationalError, or any other exception of the
      driver (an IntegrityError from the foreign key on type_action_id, an error binding the parameters, ...). */
  datatype StorageError = OperationalError | OtherError

  /** A row of `actions` apart from its key; each column holds the value that was bound to it. */
  datatype Action = Action(dateTime: Json, value: Json, estEffectue: Json, typeActionId: Json)

  /** A row of the SELECT result: `dict(row)` with its `id`. */
  datatype Record = Record(id: int, action: Action)

  /** The four write statements of the handlers, with their bind values. */
  datatype Statement =
    | InsertAction(dateTime: Json, value: Json, typeActionId: Json)       // INSERT ... values (?,?,0,?)
    | UpdateAction(id: int, action: Action)                                 // UPDATE actions SET all four WHERE id=?
    | DeleteAction(id: int)                                                 // DELETE FROM actions WHERE id=?
    | CompleteAction(id: int)                                               // UPDATE actions SET est_effectue=1 WHERE id=?

  /** The row a successful INSERT stores: est_effectue is the literal 0 of the statement. */
  function NewAction(dateTime: Json, value: Json, typeActionId: Json): (a: Action)
    ensures a.estEffectue == Int(0)
    ensures a.dateTime == dateTime && a.value == value && a.typeActionId == typeActionId
  {
    Action(dateTime, value, Int(0), typeActionId)
  }

  /** The row count of a statement restricted by `WHERE id=?`: the key is unique. */
  function Matched(rows: map<int, Action>, id: int): (n: nat)
    ensures n <= 1
    ensures n == 0 <==> id !in rows
  {
    if id in rows then 1 else 0
  }

  /** After the full UPDATE: the row with that key, if any, holds the new fields; no other row changes. */
  function UpdatedRows(rows: map<int, Action>, id: int, action: Action): (r: map<int, Action>)
    ensures r.Keys == rows.Keys
    ensures id in rows ==> r[id] == action
    ensures forall k :: k in rows && k != id ==> r[k] == rows[k]
    ensures id !in rows ==> r == rows
  {
    if id in rows then rows[id := action] else rows
  }

  /** After the DELETE: that key is gone and every other row is as it was. */
  function RemovedRows(rows: map<int, Action>, id: int): (r: map<int, Action>)
    ensures r.Keys == rows.Keys - {id}
    ensures forall k :: k in r ==> r[k] == rows[k]
    ensures id !in rows ==> r == rows
  {
    rows - {id}
  }

  /** After the completing UPDATE: the row with that key has est_effectue 1, whatever it was; nothing else changes. */
  function CompletedRows(rows: map<int, Action>, id: int): (r: map<int, Action>)
    ensures r.Keys == rows.Keys
    ensures id in rows ==> r[id] == rows[id].(estEffectue := Int(1))
    ensures forall k :: k in rows && k != id ==> r[k] == rows[k]
    ensures id !in rows ==> r == rows
  {
    if id in rows then rows[id := rows[id].(estEffectue := Int(1))] else rows
  }

  /** Completing twice is completing once, and both report the same row count. */
  lemma CompleteIdempotent(rows: map<int, Action>, id: int)
    ensures CompletedRows(CompletedRows(rows, id), id) == CompletedRows(rows, id)
    ensures Matched(CompletedRows(rows, id), id) == Matched(rows, id)
  {
  }

  /** `r` lists every row of the table once, each with its own fields, in some order. */
  ghost predicate Lists(r: seq<Record>, rows: map<int, Action>)
  {
    && |r| == |rows|
    && (forall i :: 0 <= i < |r| ==> r[i].id in rows && rows[r[i].id] == r[i].action)
    && (forall i, j :: 0 <= i < j < |r| ==> r[i].id != r[j].id)
    && (forall id :: id in rows ==> exists i :: 0 <= i < |r| && r[i].id == id)
  }

  /** Some key of a non-empty set of keys. */
  lemma Pick(keys: set<int>) returns (k: int)
    requires keys != {}
    ensures k in keys
  {
    if forall x :: x !in keys {
      assert false;
    }
    k :| k in keys;
  }

  /** A bound above every key: the engine can always find a positive key not yet used. */
  lemma {:induction false} KeyBound(keys: set<int>) returns (b: int)
    ensures b > 0
    ensures forall k :: k in keys ==> k < b
    decreases |keys|
  {
    if keys == {} {
      b := 1;
    } else {
      var top := Pick(keys);
      var rest := KeyBound(keys - {top});
      b := if top < rest then rest else top + 1;
      assert forall k :: k in keys ==> k == top || k in keys - {top};
    }
  }

  /**
   * The connection to the database file, standing for the file's `actions` table.
   * Every statement commits on its own, so the table is the only state.
   */
  class SqliteUtils {
    var rows: map<int, Action>

    /** Keys are assigned by the engine and are positive. */
    ghost predicate Valid()
      reads this
    {
      forall id :: id in rows ==> id > 0
    }

    constructor (initial: map<int, Action>)
      requires forall id :: id in initial ==> id > 0
      ensures Valid() && rows == initial
    {
      rows := initial;
    }

    /**
     * `select`: the rows of `SELECT id, date_time, value, est_effectue, type_action_id FROM actions`,
     * one dictionary per row, in the order the engine returns them (any order here).
     * A statement that fails raises and returns nothing.
     */
    method Select(fault: Option<StorageError>) returns (r: Result<seq<Record>, StorageError>)
      ensures fault.Some? ==> r == Failure(fault.value)
      ensures fault.None? ==> r.Success? && Lists(r.value, rows)
    {
      if fault.Some? {
        return Failure(fault.value);
      }
      var listed: seq<Record> := [];
      var done: set<int> := {};
      var pending := rows.Keys;
      while pending != {}
        invariant done + pending == rows.Keys && done !! pending
        invariant |listed| == |done|
        invariant forall i :: 0 <= i < |listed| ==> listed[i].id in done && rows[listed[i].id] == listed[i].action
        invariant forall i, j :: 0 <= i < j < |listed| ==> listed[i].id != listed[j].id
        invariant forall id :: id in done ==> exists i :: 0 <= i < |listed| && listed[i].id == id
        decreases |pending|
      {
        // only there to show the `:|` below that pending has an element
        ghost var element := Pick(pending);
        var id :| id in pending;
        ghost var before := listed;
        listed := listed + [Record(id, rows[id])];
        assert listed[|before|].id == id;
        assert forall i :: 0 <= i < |before| ==> listed[i] == before[i];
        done := done + {id};
        pending := pending - {id};
      }
      assert done == rows.Keys;
      return Success(listed);
    }

    /**
     * `insert`, `update` and `delete` (identical bodies: execute, commit, return the row
     * count). A statement that fails raises before the commit and writes nothing.
     * A plain INSERT that does not raise adds exactly one row, under a fresh positive
     * key, with est_effectue 0, and reports 1.
     */
    method Execute(stmt: Statement, fault: Option<StorageError>) returns (r: Result<nat, StorageError>)
      requires Valid()
      modifies this
      ensures Valid()
      ensures fault.Some? ==> r == Failure(fault.value) && rows == old(rows)
      ensures fault.None? ==> r.Success?
      ensures fault.None? && stmt.InsertAction? ==>
        && r.value == 1
        && exists id :: id > 0 && id !in old(rows) &&
                        rows == old(rows)[id := NewAction(stmt.dateTime, stmt.value, stmt.typeActionId)]
      ensures fault.None? && stmt.UpdateAction? ==>
        r.value == Matched(old(rows), stmt.id) && rows == UpdatedRows(old(rows), stmt.id, stmt.action)
      ensures fault.None? && stmt.DeleteAction? ==>
        r.value == Matched(old(rows), stmt.id) && rows == RemovedRows(old(rows), stmt.id)
      ensures fault.None? && stmt.CompleteAction? ==>
        r.value == Matched(old(rows), stmt.id) && rows == CompletedRows(old(rows), stmt.id)
    {
      if fault.Some? {
        return Failure(fault.value);
      }
      match stmt
      case InsertAction(dateTime, value, typeActionId) =>
        ghost var bound := KeyBound(rows.Keys);
        assert bound > 0 && bound !in rows;
        var id :| id > 0 && id !in rows;
        rows := rows[id := NewAction(dateTime, value, typeActionId)];
        r := Success(1);
      case UpdateAction(id, action) =>
        r := Success(Matched(rows, id));
        rows := UpdatedRows(rows, id, action);
      case DeleteAction(id) =>
        r := Success(Matched(rows, id));
        rows := RemovedRows(rows, id);
      case CompleteAction(id) =>
        r := Success(Matched(rows, id));
        rows := CompletedRows(rows, id);
    }
  }
}
