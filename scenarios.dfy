/**
 End-to-end uses of the backend, proved from the method contracts alone:
 the way the windowing layer drives it, one call at a time.
 */
module Scenarios {
  import opened Records
  import opened Directory
  import opened Ledger
  import opened Srms

  /** Insert one student, list, delete it, list again. */
  method InsertListDelete()
  {
    var b := new Backend();
    var ok := b.AddStudent(101, "Asha", "CSE", 3, 8.5, 'A');
    assert ok;
    var t := b.GetAllStudents();
    assert t.body.Rows? && |t.body.rows| == 1;
    assert t.body.rows[0].status == "Excellent";
    var found := b.GetStudentByRoll(101);
    assert found == Some(Student(101, "Asha", "CSE", 3, 8.5, 'A'));
    ok := b.DeleteStudent(101);
    assert ok;
    t := b.GetAllStudents();
    assert t.body == Placeholder(NoStudentsNote);
    found := b.GetStudentByRoll(101);
    assert found.None?;
  }

  /** A name seen for the first time is added with roll 1 and defaults; asking again adds nothing. */
  method SearchTwice()
  {
    var b := new Backend();
    var roll, added := b.SearchNameOrAdd("Ravi");
    assert roll == 1 && added;
    assert b.students == [Student(1, "Ravi", "N/A", 0, 0.0, '-')];
    roll, added := b.SearchNameOrAdd("Ravi");
    assert roll == 1 && !added;
    assert |b.students| == 1;
  }

  /** With duplicate rolls, update and delete act on the earlier record only. */
  method DuplicateRolls()
  {
    var b := new Backend();
    var ok := b.AddStudent(7, "Asha", "CSE", 3, 8.5, 'A');
    ok := b.AddStudent(7, "Mira", "EEE", 2, 6.5, 'B');
    assert ok && |b.students| == 2;
    ok := b.UpdateStudent(7, "Asha K", "CSE", 4, 9.0, 'A');
    assert b.students[0].name == "Asha K" && b.students[1].name == "Mira";
    ok := b.DeleteStudent(7);
    assert b.students == [Student(7, "Mira", "EEE", 2, 6.5, 'B')];
  }

  /** Queries are numbered 1, 2, ... and a rejected one consumes no number. */
  method NumberQueries()
  {
    var b := new Backend();
    var id := b.AddQuery(5, "Ravi", "When is the exam?");
    assert id == 1 && b.queries[0].status == Pending;
    id := b.AddQuery(5, "Ravi", "");
    assert id == RejectedId;
    id := b.AddQuery(6, "Asha", "Grade correction");
    assert id == 2 && b.nextQueryId == 3;
  }
}
