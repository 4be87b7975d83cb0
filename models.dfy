/**
 * The Todo table (todos/models.py) and the one ORM write the fetch routine
 * performs on it, `Todo.objects.bulk_create`.
 *
 * The table is a map from primary key (the uuid) to row. The database keeps
 * two constraints on it: the primary key is unique, and `api_id` is unique.
 * `Consistent` states both; every write below keeps it.
 */
module Models {

  datatype Option<T> = None | Some(value: T) {
    function GetOr(default: T): T {
      match this
      case Some(v) => v
      case None => default
    }
  }

  /** A UUID primary key, represented by its 128-bit integer value. */
  type Uuid = x: nat | x < 0x1_0000_0000_0000_0000_0000_0000_0000_0000

  /**
   * One persisted row. `image` is the per-user image bucket; the column is a
   * text column holding the decimal form of this number.
   * The timestamps created_at/updated_at are not modelled.
   */
  datatype Todo = Todo(
    uuid: Uuid,
    apiId: int,
    userId: int,
    title: string,
    image: int,
    completed: bool)

  /**
   * An unsaved `Todo(...)` instance. The constructor takes whatever the raw
   * item held, so id, userId, title and completed may be null (None); such an
   * instance violates a NOT NULL column and cannot be inserted.
   */
  datatype Draft = Draft(
    uuid: Uuid,
    apiId: Option<int>,
    userId: Option<int>,
    title: Option<string>,
    image: int,
    completed: Option<bool>)

  /** The NOT NULL columns of the instance all hold a value. */
  predicate Persistable(d: Draft) {
    d.apiId.Some? && d.userId.Some? && d.title.Some? && d.completed.Some?
  }

  /** The row an insertable instance becomes. */
  function Persisted(d: Draft): Todo
    requires Persistable(d)
  {
    Todo(d.uuid, d.apiId.value, d.userId.value, d.title.value, d.image, d.completed.value)
  }

  /** The table's constraints: each row is stored under its own uuid, and api_id is unique. */
  predicate Consistent(rows: map<Uuid, Todo>) {
    && (forall u :: u in rows ==> rows[u].uuid == u)
    && (forall u, v :: u in rows && v in rows && rows[u].apiId == rows[v].apiId ==> u == v)
  }

  /** The batch violates no constraint, neither against the table nor within itself. */
  predicate CanInsert(rows: map<Uuid, Todo>, batch: seq<Draft>) {
    && (forall k :: 0 <= k < |batch| ==> Persistable(batch[k]))
    && (forall k :: 0 <= k < |batch| ==> batch[k].uuid !in rows)
    && (forall k, u :: 0 <= k < |batch| && u in rows ==> batch[k].apiId != Some(rows[u].apiId))
    && (forall j, k :: 0 <= j < k < |batch| ==> batch[j].uuid != batch[k].uuid)
    && (forall j, k :: 0 <= j < k < |batch| ==> batch[j].apiId != batch[k].apiId)
  }

  /** The table after inserting every instance of the batch, first to last. */
  function WithBatch(rows: map<Uuid, Todo>, batch: seq<Draft>): map<Uuid, Todo>
    requires forall k :: 0 <= k < |batch| ==> Persistable(batch[k])
    decreases |batch|
  {
    if batch == [] then rows
    else WithBatch(rows[batch[0].uuid := Persisted(batch[0])], batch[1..])
  }

  /** Inserting the first instance keeps the constraints, and the rest of the batch still fits. */
  lemma InsertFirst(rows: map<Uuid, Todo>, batch: seq<Draft>)
    requires Consistent(rows) && CanInsert(rows, batch) && batch != []
    ensures Consistent(rows[batch[0].uuid := Persisted(batch[0])])
    ensures |rows[batch[0].uuid := Persisted(batch[0])]| == |rows| + 1
    ensures CanInsert(rows[batch[0].uuid := Persisted(batch[0])], batch[1..])
  {
    var next := rows[batch[0].uuid := Persisted(batch[0])];
    assert forall k :: 0 <= k < |batch[1..]| ==> batch[1..][k] == batch[k + 1];
    assert Consistent(next);
  }

  /** A constraint-respecting bulk insert keeps the constraints and every old row, and adds one row per instance. */
  lemma {:induction false} BatchKeepsRows(rows: map<Uuid, Todo>, batch: seq<Draft>)
    requires Consistent(rows) && CanInsert(rows, batch)
    ensures Consistent(WithBatch(rows, batch))
    ensures forall u :: u in rows ==> u in WithBatch(rows, batch) && WithBatch(rows, batch)[u] == rows[u]
    ensures |WithBatch(rows, batch)| == |rows| + |batch|
    decreases |batch|
  {
    if batch != [] {
      InsertFirst(rows, batch);
      BatchKeepsRows(rows[batch[0].uuid := Persisted(batch[0])], batch[1..]);
    }
  }

  /** Each instance of a constraint-respecting batch ends up stored under its uuid. */
  lemma {:induction false} BatchAddsEach(rows: map<Uuid, Todo>, batch: seq<Draft>)
    requires Consistent(rows) && CanInsert(rows, batch)
    ensures forall k :: 0 <= k < |batch| ==>
      batch[k].uuid in WithBatch(rows, batch) && WithBatch(rows, batch)[batch[k].uuid] == Persisted(batch[k])
    decreases |batch|
  {
    if batch != [] {
      var next, rest := rows[batch[0].uuid := Persisted(batch[0])], batch[1..];
      InsertFirst(rows, batch);
      BatchAddsEach(next, rest);
      BatchKeepsRows(next, rest);
      var after := WithBatch(next, rest);
      forall k | 0 <= k < |batch|
        ensures batch[k].uuid in after && after[batch[k].uuid] == Persisted(batch[k])
      {
        if k > 0 {
          assert batch[k] == rest[k - 1];
        }
      }
    }
  }

  /** A bulk insert adds no row other than the batch's. */
  lemma {:induction false} BatchAddsNothingElse(rows: map<Uuid, Todo>, batch: seq<Draft>)
    requires forall k :: 0 <= k < |batch| ==> Persistable(batch[k])
    ensures forall u :: u in WithBatch(rows, batch) ==>
      u in rows || exists k :: 0 <= k < |batch| && batch[k].uuid == u
    decreases |batch|
  {
    if batch != [] {
      var next, rest := rows[batch[0].uuid := Persisted(batch[0])], batch[1..];
      BatchAddsNothingElse(next, rest);
      forall u | u in WithBatch(next, rest)
        ensures u in rows || exists k :: 0 <= k < |batch| && batch[k].uuid == u
      {
        if u !in next {
          var k :| 0 <= k < |rest| && rest[k].uuid == u;
          assert batch[k + 1].uuid == u;
        } else if u != batch[0].uuid {
          assert u in rows;
        } else {
          assert batch[0].uuid == u;
        }
      }
    }
  }

  /**
   * A constraint-respecting bulk insert keeps the constraints, keeps every
   * old row, adds exactly one row per instance of the batch and nothing else.
   */
  lemma BatchInserted(rows: map<Uuid, Todo>, batch: seq<Draft>)
    requires Consistent(rows) && CanInsert(rows, batch)
    ensures Consistent(WithBatch(rows, batch))
    ensures forall u :: u in rows ==> u in WithBatch(rows, batch) && WithBatch(rows, batch)[u] == rows[u]
    ensures forall k :: 0 <= k < |batch| ==>
      batch[k].uuid in WithBatch(rows, batch) && WithBatch(rows, batch)[batch[k].uuid] == Persisted(batch[k])
    ensures forall u :: u in WithBatch(rows, batch) ==>
      u in rows || exists k :: 0 <= k < |batch| && batch[k].uuid == u
    ensures |WithBatch(rows, batch)| == |rows| + |batch|
  {
    BatchKeepsRows(rows, batch);
    BatchAddsEach(rows, batch);
    BatchAddsNothingElse(rows, batch);
  }

  /** The Todo table. */
  class TodoStore {
    var rows: map<Uuid, Todo>

    constructor ()
      ensures rows == map[]
    {
      rows := map[];
    }

    /**
     * `Todo.objects.bulk_create(batch)`: one atomic INSERT of all instances.
     * A NOT NULL or uniqueness violation raises and rolls the whole batch back.
     */
    method BulkCreate(batch: seq<Draft>) returns (ok: bool)
      requires Consistent(rows)
      modifies this
      ensures Consistent(rows)
      ensures ok == CanInsert(old(rows), batch)
      ensures rows == if ok then WithBatch(old(rows), batch) else old(rows)
    {
      ok := CanInsert(rows, batch);
      if ok {
        BatchInserted(rows, batch);
        rows := WithBatch(rows, batch);
      }
    }
  }
}
