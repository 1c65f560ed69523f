/** A table whose primary key comes from a serial sequence, and the four fixed statements the
    handlers run against it by key: INSERT ... RETURNING *, SELECT ... WHERE key = $1,
    UPDATE ... WHERE key = $k RETURNING *, DELETE ... WHERE key = $1 RETURNING *.
    Each handler turns "zero rows returned" into 404. */
module Store {
  import opened Wrappers

  const StatusOk := 200
  const StatusCreated := 201
  const StatusNotFound := 404

  /** The database clock `NOW()` as an abstract instant; the caller supplies it. */
  type Time = int

  /** Rows by primary key, and the next value the key sequence will hand out. */
  datatype Table<R> = Table(rows: map<int, R>, nextId: int) {

    /** Every stored key was handed out by the sequence, which starts at 1. */
    predicate Valid() {
      && nextId >= 1
      && forall id :: id in rows ==> 1 <= id < nextId
    }
  }

  /** A row together with its key, as RETURNING * or SELECT * gives it back. */
  datatype Record<R> = Record(id: int, row: R)

  /** A handler's answer: the status code, the record in the response body (if any), and the
      table after the statement. */
  datatype Outcome<R> = Outcome(status: int, data: Option<Record<R>>, table: Table<R>)

  /** INSERT ... RETURNING *: the row is stored under the sequence's next key; 201. */
  function Insert<R>(t: Table<R>, row: R): (o: Outcome<R>)
    requires t.Valid()
    ensures o.status == StatusCreated
    ensures o.data.Some? && o.data.value.row == row
    ensures o.data.value.id !in t.rows
    ensures o.table.rows == t.rows[o.data.value.id := row]
    ensures o.table.Valid()
  {
    var id := t.nextId;
    Outcome(StatusCreated, Some(Record(id, row)), Table(t.rows[id := row], id + 1))
  }

  /** SELECT * ... WHERE key = $1: 200 with the row, or 404 when no row has that key. */
  function Find<R>(t: Table<R>, id: int): (o: Outcome<R>)
    ensures o.table == t
    ensures o.status == StatusNotFound <==> id !in t.rows
    ensures o.status == StatusOk <==> id in t.rows
    ensures o.data.Some? <==> id in t.rows
    ensures o.data.Some? ==> o.data.value == Record(id, t.rows[id])
  {
    if id in t.rows then Outcome(StatusOk, Some(Record(id, t.rows[id])), t)
    else Outcome(StatusNotFound, None, t)
  }

  /** UPDATE ... WHERE key = $k RETURNING *: the row under `id` becomes `change` of itself;
      200 with the new row, or 404 with the table untouched when no row has that key. */
  function Modify<R>(t: Table<R>, id: int, change: R -> R): (o: Outcome<R>)
    ensures id !in t.rows ==> o.status == StatusNotFound && o.data == None && o.table == t
    ensures id in t.rows ==> o.status == StatusOk && o.data == Some(Record(id, change(t.rows[id])))
    ensures o.table.nextId == t.nextId
    ensures o.table.rows.Keys == t.rows.Keys
    ensures forall k :: k in t.rows && k != id ==> o.table.rows[k] == t.rows[k]
    ensures id in t.rows ==> o.table.rows[id] == change(t.rows[id])
  {
    if id in t.rows then
      var row := change(t.rows[id]);
      Outcome(StatusOk, Some(Record(id, row)), Table(t.rows[id := row], t.nextId))
    else Outcome(StatusNotFound, None, t)
  }

  /** DELETE ... WHERE key = $1 RETURNING *: the row under `id` goes; 200 (the response
      carries only a message), or 404 with the table untouched when no row has that key. */
  function Remove<R>(t: Table<R>, id: int): (o: Outcome<R>)
    ensures o.data == None
    ensures o.status == StatusNotFound <==> id !in t.rows
    ensures o.status == StatusOk <==> id in t.rows
    ensures o.table.nextId == t.nextId
    ensures o.table.rows.Keys == t.rows.Keys - {id}
    ensures forall k :: k in o.table.rows ==> o.table.rows[k] == t.rows[k]
  {
    if id in t.rows then Outcome(StatusOk, None, Table(t.rows - {id}, t.nextId))
    else Outcome(StatusNotFound, None, t)
  }

  /** The sequence never hands out a key twice, even after the row holding it was deleted:
      inserting, deleting that row, and inserting again gives a different key. */
  lemma KeysNeverReused<R>(t: Table<R>, row: R, row': R)
    requires t.Valid()
    ensures var first := Insert(t, row);
            var gone := Remove(first.table, first.data.value.id);
            Insert(gone.table, row').data.value.id != first.data.value.id
  {
  }

  /** After a successful delete the key is gone: finding it or deleting it again is 404. */
  lemma RemoveThenMissing<R>(t: Table<R>, id: int)
    requires id in t.rows
    ensures Remove(t, id).status == StatusOk
    ensures Find(Remove(t, id).table, id).status == StatusNotFound
    ensures Remove(Remove(t, id).table, id).status == StatusNotFound
    ensures Remove(Remove(t, id).table, id).table == Remove(t, id).table
  {
  }
}
