/** The tbl_grade_grade_input handlers (server.js, /api/grade-inputs): create, fetch by id,
    partial update with COALESCE on four columns, delete. */
module GradeInputs {
  import opened Wrappers
  import opened Store

  /** A stored grade input; its key, grade_input_id, is the table's key. `None` is SQL NULL. */
  datatype GradeInputRow = GradeInputRow(
    subjectGradeId: Option<int>,
    inputType: Option<string>,
    inputName: Option<string>,
    score: Option<real>,
    term: Option<string>,
    createdBy: Option<int>,
    createdAt: Time,
    updatedAt: Time)

  /** The body of POST /api/grade-inputs; missing and null values are both `None`. */
  datatype NewInput = NewInput(
    subjectGradeId: Option<int>,
    inputType: Option<string>,
    inputName: Option<string>,
    score: Option<real>,
    term: Option<string>,
    createdBy: Option<int>)

  /** The only body fields PUT /api/grade-inputs/:id reads; anything else is ignored. */
  datatype InputChanges = InputChanges(
    inputType: Option<string>,
    inputName: Option<string>,
    score: Option<real>,
    term: Option<string>)

  type InputTable = Table<GradeInputRow>

  /** The row an update leaves behind: the four columns COALESCE-merged, updated_at now,
      everything else kept. */
  function Updated(body: InputChanges, now: Time, row: GradeInputRow): (r: GradeInputRow)
    ensures r.inputType == (if body.inputType.Some? then body.inputType else row.inputType)
    ensures r.inputName == (if body.inputName.Some? then body.inputName else row.inputName)
    ensures r.score == (if body.score.Some? then body.score else row.score)
    ensures r.term == (if body.term.Some? then body.term else row.term)
    ensures r.updatedAt == now
    ensures r.subjectGradeId == row.subjectGradeId && r.createdBy == row.createdBy
    ensures r.createdAt == row.createdAt
  {
    row.(inputType := body.inputType.Or(row.inputType),
         inputName := body.inputName.Or(row.inputName),
         score := body.score.Or(row.score),
         term := body.term.Or(row.term),
         updatedAt := now)
  }

  /** POST /api/grade-inputs: insert the body's six columns with created_at and updated_at
      now; 201 with the new row under a key no row had. */
  function Create(t: InputTable, body: NewInput, now: Time): (o: Outcome<GradeInputRow>)
    requires t.Valid()
    ensures o.status == StatusCreated && o.data.Some?
    ensures o.data.value.id !in t.rows
    ensures var r := o.data.value.row;
            && r.subjectGradeId == body.subjectGradeId && r.inputType == body.inputType
            && r.inputName == body.inputName && r.score == body.score
            && r.term == body.term && r.createdBy == body.createdBy
            && r.createdAt == now && r.updatedAt == now
    ensures o.table.rows == t.rows[o.data.value.id := o.data.value.row]
    ensures o.table.Valid()
  {
    var row := GradeInputRow(body.subjectGradeId, body.inputType, body.inputName, body.score,
                             body.term, body.createdBy, now, now);
    Insert(t, row)
  }

  /** GET /api/grade-inputs/:id: 200 with the row, or 404 when no row has that id. */
  function Get(t: InputTable, id: int): (o: Outcome<GradeInputRow>)
    ensures o.table == t
    ensures o.status == (if id in t.rows then StatusOk else StatusNotFound)
    ensures o.data == if id in t.rows then Some(Record(id, t.rows[id])) else None
  {
    Find(t, id)
  }

  /** PUT /api/grade-inputs/:id: input_type, input_name, score and term take the body's value
      when supplied and keep the stored one otherwise; updated_at becomes now;
      subject_grade_id, created_by and created_at never change; no other row changes. 404
      with the table untouched when no row has that id. */
  function Update(t: InputTable, id: int, body: InputChanges, now: Time): (o: Outcome<GradeInputRow>)
    ensures o.table.rows.Keys == t.rows.Keys && o.table.nextId == t.nextId
    ensures forall k :: k in t.rows && k != id ==> o.table.rows[k] == t.rows[k]
    ensures id !in t.rows ==> o.status == StatusNotFound && o.data == None && o.table == t
    ensures id in t.rows ==> o.status == StatusOk && o.data == Some(Record(id, o.table.rows[id]))
    ensures id in t.rows ==>
              var before, after := t.rows[id], o.table.rows[id];
              && after.inputType == (if body.inputType.Some? then body.inputType else before.inputType)
              && after.inputName == (if body.inputName.Some? then body.inputName else before.inputName)
              && after.score == (if body.score.Some? then body.score else before.score)
              && after.term == (if body.term.Some? then body.term else before.term)
              && after.updatedAt == now
              && after.subjectGradeId == before.subjectGradeId
              && after.createdBy == before.createdBy
              && after.createdAt == before.createdAt
  {
    Modify(t, id, row => Updated(body, now, row))
  }

  /** DELETE /api/grade-inputs/:id: exactly that row goes; 200, or 404 with the table
      untouched when no row has that id. */
  function Delete(t: InputTable, id: int): (o: Outcome<GradeInputRow>)
    ensures o.status == (if id in t.rows then StatusOk else StatusNotFound)
    ensures o.table.rows == t.rows - {id}
    ensures id !in t.rows ==> o.table == t
  {
    Remove(t, id)
  }

  /** A grade input just created is fetched back with the body's columns. */
  lemma CreateThenGet(t: InputTable, body: NewInput, now: Time)
    requires t.Valid()
    ensures var c := Create(t, body, now);
            var g := Get(c.table, c.data.value.id);
            && g.status == StatusOk
            && g.data == Some(Record(c.data.value.id,
                 GradeInputRow(body.subjectGradeId, body.inputType, body.inputName, body.score,
                               body.term, body.createdBy, now, now)))
  {
  }

  /** Every handler keeps every stored key below the sequence's next value. */
  lemma HandlersKeepTableValid(t: InputTable, id: int, body: NewInput, changes: InputChanges, now: Time)
    requires t.Valid()
    ensures Create(t, body, now).table.Valid()
    ensures Get(t, id).table.Valid()
    ensures Update(t, id, changes, now).table.Valid()
    ensures Delete(t, id).table.Valid()
  {
  }

  /** Sending the same update twice at the same time leaves what sending it once leaves. */
  lemma UpdateIdempotent(t: InputTable, id: int, body: InputChanges, now: Time)
    ensures var once := Update(t, id, body, now);
            Update(once.table, id, body, now) == Outcome(once.status, once.data, once.table)
  {
    if id in t.rows {
      var row := t.rows[id];
      CoalesceAgain(body.inputType, row.inputType);
      CoalesceAgain(body.inputName, row.inputName);
      CoalesceAgain(body.score, row.score);
      CoalesceAgain(body.term, row.term);
      assert Updated(body, now, Updated(body, now, row)) == Updated(body, now, row);
      assert t.rows[id := Updated(body, now, row)][id := Updated(body, now, row)]
          == t.rows[id := Updated(body, now, row)];
    }
  }

  /** The changes `second` laid over `first`: each field from `second` where it supplies
      one, otherwise from `first`. */
  function Merge(second: InputChanges, first: InputChanges): (r: InputChanges)
    ensures r.inputType.Some? <==> second.inputType.Some? || first.inputType.Some?
    ensures r.inputName.Some? <==> second.inputName.Some? || first.inputName.Some?
    ensures r.score.Some? <==> second.score.Some? || first.score.Some?
    ensures r.term.Some? <==> second.term.Some? || first.term.Some?
    ensures r.inputType == (if second.inputType.Some? then second.inputType else first.inputType)
    ensures r.inputName == (if second.inputName.Some? then second.inputName else first.inputName)
    ensures r.score == (if second.score.Some? then second.score else first.score)
    ensures r.term == (if second.term.Some? then second.term else first.term)
  {
    InputChanges(second.inputType.Or(first.inputType), second.inputName.Or(first.inputName),
                 second.score.Or(first.score), second.term.Or(first.term))
  }

  /** Two updates of the same input collapse into one: the first changes under the
      second's, at the second update's time. */
  lemma UpdateTwice(t: InputTable, id: int, first: InputChanges, second: InputChanges, earlier: Time, now: Time)
    ensures Update(Update(t, id, first, earlier).table, id, second, now)
         == Update(t, id, Merge(second, first), now)
  {
    if id in t.rows {
      var row := t.rows[id];
      var u1 := Updated(first, earlier, row);
      var u2 := Updated(second, now, u1);
      CoalesceAssociative(second.inputType, first.inputType, row.inputType);
      CoalesceAssociative(second.inputName, first.inputName, row.inputName);
      CoalesceAssociative(second.score, first.score, row.score);
      CoalesceAssociative(second.term, first.term, row.term);
      assert u2 == Updated(Merge(second, first), now, row);
      assert t.rows[id := u1][id := u2] == t.rows[id := u2];
    }
  }

  /** Deleting an id twice: the first time 200, the second 404 with nothing changed. */
  lemma DeleteTwice(t: InputTable, id: int)
    requires id in t.rows
    ensures Delete(t, id).status == StatusOk
    ensures Get(Delete(t, id).table, id).status == StatusNotFound
    ensures Delete(Delete(t, id).table, id).status == StatusNotFound
    ensures Delete(Delete(t, id).table, id).table == Delete(t, id).table
  {
  }
}
