/** The tbl_grades_subject_grade handlers (server.js, /api/grades): create, fetch by id,
    partial update with COALESCE, delete. Time is the abstract `now` of the statement. */
module Grades {
  import opened Wrappers
  import opened Store

  /** The eight columns a request body writes. `None` is a body value that is missing or
      null: the driver sends both as SQL NULL. */
  datatype GradeFields = GradeFields(
    studentId: Option<int>,
    enrollmentId: Option<int>,
    courseSubjectId: Option<int>,
    midtermGrade: Option<real>,
    finalsGrade: Option<real>,
    subjectGrade: Option<real>,
    remarks: Option<string>,
    finalizedBy: Option<int>)

  /** A stored grade; its key, subject_grade_id, is the table's key. */
  datatype GradeRow = GradeRow(
    fields: GradeFields,
    finalizedAt: Time,
    createdAt: Time,
    updatedAt: Time)

  type GradeTable = Table<GradeRow>

  /** A body that supplies nothing. */
  const NoFields := GradeFields(None, None, None, None, None, None, None, None)

  /** The SET list of the update: every column `col = COALESCE($k, col)`. */
  function Coalesce(body: GradeFields, stored: GradeFields): (r: GradeFields)
    ensures MergedFrom(r, body, stored)
  {
    GradeFields(
      body.studentId.Or(stored.studentId),
      body.enrollmentId.Or(stored.enrollmentId),
      body.courseSubjectId.Or(stored.courseSubjectId),
      body.midtermGrade.Or(stored.midtermGrade),
      body.finalsGrade.Or(stored.finalsGrade),
      body.subjectGrade.Or(stored.subjectGrade),
      body.remarks.Or(stored.remarks),
      body.finalizedBy.Or(stored.finalizedBy))
  }

  /** `m` takes each column from `body` where the body supplies it and from `stored`
      otherwise. */
  predicate MergedFrom(m: GradeFields, body: GradeFields, stored: GradeFields) {
    && m.studentId == (if body.studentId.Some? then body.studentId else stored.studentId)
    && m.enrollmentId == (if body.enrollmentId.Some? then body.enrollmentId else stored.enrollmentId)
    && m.courseSubjectId
       == (if body.courseSubjectId.Some? then body.courseSubjectId else stored.courseSubjectId)
    && m.midtermGrade == (if body.midtermGrade.Some? then body.midtermGrade else stored.midtermGrade)
    && m.finalsGrade == (if body.finalsGrade.Some? then body.finalsGrade else stored.finalsGrade)
    && m.subjectGrade == (if body.subjectGrade.Some? then body.subjectGrade else stored.subjectGrade)
    && m.remarks == (if body.remarks.Some? then body.remarks else stored.remarks)
    && m.finalizedBy == (if body.finalizedBy.Some? then body.finalizedBy else stored.finalizedBy)
  }

  /** The row an update leaves behind: merged columns, finalized_at and updated_at set to
      now, created_at kept. */
  function Updated(body: GradeFields, now: Time, row: GradeRow): (r: GradeRow)
    ensures MergedFrom(r.fields, body, row.fields)
    ensures r.finalizedAt == now && r.updatedAt == now && r.createdAt == row.createdAt
  {
    GradeRow(Coalesce(body, row.fields), now, row.createdAt, now)
  }

  /** POST /api/grades: insert the body's eight columns with finalized_at, created_at and
      updated_at all now; 201 with the new row under a key no row had. */
  function Create(t: GradeTable, body: GradeFields, now: Time): (o: Outcome<GradeRow>)
    requires t.Valid()
    ensures o.status == StatusCreated && o.data.Some?
    ensures o.data.value.id !in t.rows
    ensures o.data.value.row.fields == body
    ensures o.data.value.row.finalizedAt == now
    ensures o.data.value.row.createdAt == now && o.data.value.row.updatedAt == now
    ensures o.table.rows == t.rows[o.data.value.id := o.data.value.row]
    ensures o.table.Valid()
  {
    Insert(t, GradeRow(body, now, now, now))
  }

  /** GET /api/grades/:id: 200 with the row, or 404 when no row has that id. */
  function Get(t: GradeTable, id: int): (o: Outcome<GradeRow>)
    ensures o.table == t
    ensures o.status == (if id in t.rows then StatusOk else StatusNotFound)
    ensures o.data == if id in t.rows then Some(Record(id, t.rows[id])) else None
  {
    Find(t, id)
  }

  /** PUT /api/grades/:id: each of the eight columns takes the body's value when supplied
      and keeps the stored one otherwise; finalized_at and updated_at become now whatever
      the body holds; created_at and the key never change; no other row changes. 404 with
      the table untouched when no row has that id. */
  function Update(t: GradeTable, id: int, body: GradeFields, now: Time): (o: Outcome<GradeRow>)
    ensures o.table.rows.Keys == t.rows.Keys && o.table.nextId == t.nextId
    ensures forall k :: k in t.rows && k != id ==> o.table.rows[k] == t.rows[k]
    ensures id !in t.rows ==> o.status == StatusNotFound && o.data == None && o.table == t
    ensures id in t.rows ==> o.status == StatusOk && o.data == Some(Record(id, o.table.rows[id]))
    ensures id in t.rows ==>
              var before, after := t.rows[id], o.table.rows[id];
              && MergedFrom(after.fields, body, before.fields)
              && after.finalizedAt == now && after.updatedAt == now
              && after.createdAt == before.createdAt
  {
    Modify(t, id, row => Updated(body, now, row))
  }

  /** DELETE /api/grades/:id: exactly that row goes; 200, or 404 with the table untouched
      when no row has that id. */
  function Delete(t: GradeTable, id: int): (o: Outcome<GradeRow>)
    ensures o.status == (if id in t.rows then StatusOk else StatusNotFound)
    ensures o.table.rows == t.rows - {id}
    ensures id !in t.rows ==> o.table == t
  {
    Remove(t, id)
  }

  /** A grade just created is fetched back with exactly the body's columns and the creation
      time in finalized_at, created_at and updated_at. */
  lemma CreateThenGet(t: GradeTable, body: GradeFields, now: Time)
    requires t.Valid()
    ensures var c := Create(t, body, now);
            var g := Get(c.table, c.data.value.id);
            g.status == StatusOk && g.data == Some(Record(c.data.value.id, GradeRow(body, now, now, now)))
  {
  }

  /** Every handler keeps every stored key below the sequence's next value. */
  lemma HandlersKeepTableValid(t: GradeTable, id: int, body: GradeFields, now: Time)
    requires t.Valid()
    ensures Create(t, body, now).table.Valid()
    ensures Get(t, id).table.Valid()
    ensures Update(t, id, body, now).table.Valid()
    ensures Delete(t, id).table.Valid()
  {
  }

  /** Sending the same update twice at the same time leaves what sending it once leaves. */
  lemma UpdateIdempotent(t: GradeTable, id: int, body: GradeFields, now: Time)
    ensures var once := Update(t, id, body, now);
            Update(once.table, id, body, now) == Outcome(once.status, once.data, once.table)
  {
    if id in t.rows {
      var row := t.rows[id];
      CoalesceTwice(body, row.fields);
      assert Updated(body, now, Updated(body, now, row)) == Updated(body, now, row);
      assert t.rows[id := Updated(body, now, row)][id := Updated(body, now, row)]
          == t.rows[id := Updated(body, now, row)];
    }
  }

  /** Merging the same body twice merges it once, column by column. */
  lemma CoalesceTwice(body: GradeFields, stored: GradeFields)
    ensures Coalesce(body, Coalesce(body, stored)) == Coalesce(body, stored)
  {
    CoalesceAgain(body.studentId, stored.studentId);
    CoalesceAgain(body.enrollmentId, stored.enrollmentId);
    CoalesceAgain(body.courseSubjectId, stored.courseSubjectId);
    CoalesceAgain(body.midtermGrade, stored.midtermGrade);
    CoalesceAgain(body.finalsGrade, stored.finalsGrade);
    CoalesceAgain(body.subjectGrade, stored.subjectGrade);
    CoalesceAgain(body.remarks, stored.remarks);
    CoalesceAgain(body.finalizedBy, stored.finalizedBy);
  }

  /** Two updates of the same row collapse into one: the first body's values under the
      second's, at the second update's time. */
  lemma UpdateTwice(t: GradeTable, id: int, first: GradeFields, second: GradeFields, earlier: Time, now: Time)
    ensures Update(Update(t, id, first, earlier).table, id, second, now)
         == Update(t, id, Coalesce(second, first), now)
  {
    if id in t.rows {
      var row := t.rows[id];
      var u1 := Updated(first, earlier, row);
      var u2 := Updated(second, now, u1);
      CoalesceThen(first, second, row.fields);
      assert u2 == Updated(Coalesce(second, first), now, row);
      assert t.rows[id := u1][id := u2] == t.rows[id := u2];
    }
  }

  /** Merging `first` and then `second` into a row is merging their merge. */
  lemma CoalesceThen(first: GradeFields, second: GradeFields, stored: GradeFields)
    ensures Coalesce(second, Coalesce(first, stored)) == Coalesce(Coalesce(second, first), stored)
  {
    CoalesceAssociative(second.studentId, first.studentId, stored.studentId);
    CoalesceAssociative(second.enrollmentId, first.enrollmentId, stored.enrollmentId);
    CoalesceAssociative(second.courseSubjectId, first.courseSubjectId, stored.courseSubjectId);
    CoalesceAssociative(second.midtermGrade, first.midtermGrade, stored.midtermGrade);
    CoalesceAssociative(second.finalsGrade, first.finalsGrade, stored.finalsGrade);
    CoalesceAssociative(second.subjectGrade, first.subjectGrade, stored.subjectGrade);
    CoalesceAssociative(second.remarks, first.remarks, stored.remarks);
    CoalesceAssociative(second.finalizedBy, first.finalizedBy, stored.finalizedBy);
  }

  /** An update whose body supplies nothing changes no column: it only refreshes
      finalized_at and updated_at. */
  lemma UpdateWithEmptyBody(t: GradeTable, id: int, now: Time)
    requires id in t.rows
    ensures Update(t, id, NoFields, now).table.rows[id]
         == t.rows[id].(finalizedAt := now, updatedAt := now)
  {
  }

  /** A partial update can never clear a column: a column holding a value still holds one
      afterwards (null and missing both mean "keep"). */
  lemma UpdateNeverClears(t: GradeTable, id: int, body: GradeFields, now: Time)
    requires id in t.rows
    ensures var before, after := t.rows[id].fields, Update(t, id, body, now).table.rows[id].fields;
            && (before.studentId.Some? ==> after.studentId.Some?)
            && (before.enrollmentId.Some? ==> after.enrollmentId.Some?)
            && (before.courseSubjectId.Some? ==> after.courseSubjectId.Some?)
            && (before.midtermGrade.Some? ==> after.midtermGrade.Some?)
            && (before.finalsGrade.Some? ==> after.finalsGrade.Some?)
            && (before.subjectGrade.Some? ==> after.subjectGrade.Some?)
            && (before.remarks.Some? ==> after.remarks.Some?)
            && (before.finalizedBy.Some? ==> after.finalizedBy.Some?)
  {
  }

  /** Deleting an id twice: the first time 200, the second 404 with nothing changed; the
      id can no longer be fetched. */
  lemma DeleteTwice(t: GradeTable, id: int)
    requires id in t.rows
    ensures Delete(t, id).status == StatusOk
    ensures Get(Delete(t, id).table, id).status == StatusNotFound
    ensures Delete(Delete(t, id).table, id).status == StatusNotFound
    ensures Delete(Delete(t, id).table, id).table == Delete(t, id).table
  {
  }

  /** Create a grade with subject_grade 89.25 and remarks "Passed", then update only the
      remarks to "Failed" later: the grade is kept, the remarks change, and updated_at is
      after created_at. */
  lemma PassedThenFailedExample(t: GradeTable, created: Time, later: Time)
    requires t.Valid() && created < later
    ensures var body := GradeFields(Some(1), Some(101), Some(1), None, None, Some(89.25), Some("Passed"), None);
            var c := Create(t, body, created);
            var id := c.data.value.id;
            var u := Update(c.table, id, NoFields.(remarks := Some("Failed")), later);
            && c.status == StatusCreated && c.data.value.row.fields.remarks == Some("Passed")
            && u.status == StatusOk
            && u.data.value.row.fields.subjectGrade == Some(89.25)
            && u.data.value.row.fields.remarks == Some("Failed")
            && u.data.value.row.updatedAt > u.data.value.row.createdAt
  {
  }
}
