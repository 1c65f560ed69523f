/** The integer part of GET /api/grades/stats/:student_id (server.js): COUNT(*) of the
    student's grade rows and the counts whose remarks are exactly 'Passed' / 'Failed'. */
module Stats {
  import opened Wrappers
  import opened Store
  import opened Grades

  datatype StudentStats = StudentStats(totalSubjects: nat, passedCount: nat, failedCount: nat)

  /** Keys of the rows of `ids` that belong to the student (WHERE student_id = $1). */
  function StudentIds(t: GradeTable, ids: set<int>, studentId: int): (r: set<int>)
    ensures r <= ids && r <= t.rows.Keys
  {
    set id | id in ids && id in t.rows && t.rows[id].fields.studentId == Some(studentId)
  }

  /** Keys of the student's rows among `ids` whose remarks equal `remark` exactly
      (COUNT(CASE WHEN remarks = '...' THEN 1 END): NULL and any other text do not count). */
  function RemarkIds(t: GradeTable, ids: set<int>, studentId: int, remark: string): (r: set<int>)
    ensures r <= StudentIds(t, ids, studentId)
  {
    set id | id in StudentIds(t, ids, studentId) && t.rows[id].fields.remarks == Some(remark)
  }

  /** The statistics query: always 200 (an aggregate without GROUP BY returns one row even for
      a student with no grades), with the student's row count and the exact-match
      'Passed' / 'Failed' counts. */
  method StudentStatistics(t: GradeTable, studentId: int) returns (status: int, stats: StudentStats)
    ensures status == StatusOk
    ensures stats.totalSubjects == |StudentIds(t, t.rows.Keys, studentId)|
    ensures stats.passedCount == |RemarkIds(t, t.rows.Keys, studentId, "Passed")|
    ensures stats.failedCount == |RemarkIds(t, t.rows.Keys, studentId, "Failed")|
  {
    var total, passed, failed := 0, 0, 0;
    var seen: set<int> := {};
    var remaining := t.rows.Keys;
    while remaining != {}
      invariant seen + remaining == t.rows.Keys && seen !! remaining
      invariant total == |StudentIds(t, seen, studentId)|
      invariant passed == |RemarkIds(t, seen, studentId, "Passed")|
      invariant failed == |RemarkIds(t, seen, studentId, "Failed")|
      decreases remaining
    {
      HasElement(remaining);
      var id :| id in remaining;
      var row := t.rows[id];
      var mine := row.fields.studentId == Some(studentId);
      StudentIdsStep(t, seen, id, studentId);
      RemarkIdsStep(t, seen, id, studentId, "Passed");
      RemarkIdsStep(t, seen, id, studentId, "Failed");
      if mine {
        total := total + 1;
        if row.fields.remarks == Some("Passed") {
          passed := passed + 1;
        }
        if row.fields.remarks == Some("Failed") {
          failed := failed + 1;
        }
      }
      seen := seen + {id};
      remaining := remaining - {id};
    }
    assert seen == t.rows.Keys;
    status, stats := StatusOk, StudentStats(total, passed, failed);
  }

  /** Looking at one more row adds it to the student's rows exactly when it is one of theirs. */
  lemma StudentIdsStep(t: GradeTable, seen: set<int>, id: int, studentId: int)
    requires id in t.rows && id !in seen
    ensures |StudentIds(t, seen + {id}, studentId)|
         == |StudentIds(t, seen, studentId)| + (if t.rows[id].fields.studentId == Some(studentId) then 1 else 0)
  {
    var mine := t.rows[id].fields.studentId == Some(studentId);
    assert StudentIds(t, seen + {id}, studentId)
        == StudentIds(t, seen, studentId) + (if mine then {id} else {});
  }

  /** Looking at one more row adds it to a remark count exactly when it is one of the
      student's rows with that remark. */
  lemma RemarkIdsStep(t: GradeTable, seen: set<int>, id: int, studentId: int, remark: string)
    requires id in t.rows && id !in seen
    ensures |RemarkIds(t, seen + {id}, studentId, remark)|
         == |RemarkIds(t, seen, studentId, remark)|
          + (if t.rows[id].fields.studentId == Some(studentId) && t.rows[id].fields.remarks == Some(remark)
             then 1 else 0)
  {
    var counted := t.rows[id].fields.studentId == Some(studentId) && t.rows[id].fields.remarks == Some(remark);
    assert RemarkIds(t, seen + {id}, studentId, remark)
        == RemarkIds(t, seen, studentId, remark) + (if counted then {id} else {});
  }

  lemma HasElement(s: set<int>)
    requires s != {}
    ensures exists x :: x in s
  {
    if forall x :: x !in s {
      assert false;
    }
  }

  lemma {:induction false} SubsetCard(a: set<int>, b: set<int>)
    requires a <= b
    ensures |a| <= |b|
    decreases |b|
  {
    if b != {} {
      HasElement(b);
      var x :| x in b;
      SubsetCard(a - {x}, b - {x});
    }
  }

  /** No row is both 'Passed' and 'Failed', and both kinds are rows of the student, so the
      two counts never add up to more than the total. */
  lemma PassedAndFailedWithinTotal(t: GradeTable, studentId: int)
    ensures |RemarkIds(t, t.rows.Keys, studentId, "Passed")| + |RemarkIds(t, t.rows.Keys, studentId, "Failed")|
         <= |StudentIds(t, t.rows.Keys, studentId)|
  {
    var p := RemarkIds(t, t.rows.Keys, studentId, "Passed");
    var f := RemarkIds(t, t.rows.Keys, studentId, "Failed");
    assert p !! f;
    assert |p + f| == |p| + |f|;
    SubsetCard(p + f, StudentIds(t, t.rows.Keys, studentId));
  }

  /** A student without grade rows gets a 200 with all counts zero, not a 404. */
  lemma NoRowsGivesZero(t: GradeTable, studentId: int)
    requires forall id :: id in t.rows ==> t.rows[id].fields.studentId != Some(studentId)
    ensures StudentIds(t, t.rows.Keys, studentId) == {}
    ensures RemarkIds(t, t.rows.Keys, studentId, "Passed") == {}
    ensures RemarkIds(t, t.rows.Keys, studentId, "Failed") == {}
  {
    var ids := StudentIds(t, t.rows.Keys, studentId);
    if ids != {} {
      HasElement(ids);
      assert false;
    }
  }
}
