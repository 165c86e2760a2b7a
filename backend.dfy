/**
 The in-memory backend: one object owning the student directory, the query
 ledger and the ledger's id counter, with one method per backend entry point.
 The directory methods are proved against the Directory module, AddQuery
 against the Ledger module, and the listings against the Records shapes.
 */
module Srms {
  import opened Records
  import opened Directory
  import opened Ledger

  class Backend {
    var students: seq<Student>
    var queries: seq<Query>
    var nextQueryId: int

    /** The ledger's numbering; the directory carries no invariant (rolls may repeat). */
    ghost predicate Valid()
      reads this
    {
      Numbered(LedgerState(queries, nextQueryId))
    }

    /** Both stores start empty and the query counter at 1. */
    constructor ()
      ensures Valid()
      ensures students == [] && queries == [] && nextQueryId == 1
      ensures LedgerState(queries, nextQueryId) == Empty
    {
      EmptyNumbered();
      students := [];
      queries := [];
      nextQueryId := 1;
    }

    /** Appends a record with the given fields unless the roll, name or department is rejected. */
    method AddStudent(roll: int, name: string, dept: string, sem: int, cgpa: real, grade: char) returns (ok: bool)
      requires Valid()
      modifies this`students
      ensures Valid()
      ensures ok <==> AcceptsStudent(roll, name, dept)
      ensures ok ==> students == old(students) + [Student(roll, name, dept, sem, cgpa, grade)]
      ensures !ok ==> students == old(students)
    {
      if roll <= 0 || name == [] || dept == [] {
        return false;
      }
      students := students + [Student(roll, name, dept, sem, cgpa, grade)];
      return true;
    }

    /** Overwrites every field but the roll of the first record with that roll. */
    method UpdateStudent(roll: int, name: string, dept: string, sem: int, cgpa: real, grade: char) returns (ok: bool)
      requires Valid()
      modifies this`students
      ensures Valid()
      ensures ok <==> FirstMatch(old(students), RollIs(roll)).Some?
      ensures |students| == |old(students)|
      ensures ok ==> var i := FirstMatch(old(students), RollIs(roll)).value;
        && students[i] == Student(old(students)[i].roll, name, dept, sem, cgpa, grade)
        && students[i].roll == roll
        && forall j :: 0 <= j < |students| && j != i ==> students[j] == old(students)[j]
      ensures !ok ==> students == old(students)
    {
      var i := 0;
      while i < |students|
        invariant 0 <= i <= |students|
        invariant students == old(students)
        invariant forall j :: 0 <= j < i ==> students[j].roll != roll
      {
        if students[i].roll == roll {
          FirstMatchAt(students, RollIs(roll), i);
          students := students[i := students[i].(name := name, dept := dept, sem := sem, cgpa := cgpa, grade := grade)];
          return true;
        }
        i := i + 1;
      }
      return false;
    }

    /** Removes the first record with that roll; the others keep their order. */
    method DeleteStudent(roll: int) returns (ok: bool)
      requires Valid()
      modifies this`students
      ensures Valid()
      ensures ok <==> FirstMatch(old(students), RollIs(roll)).Some?
      ensures ok ==> var i := FirstMatch(old(students), RollIs(roll)).value;
        students == old(students)[..i] + old(students)[i + 1..]
      ensures ok ==> |students| == |old(students)| - 1
      ensures !ok ==> students == old(students)
    {
      var i := 0;
      while i < |students|
        invariant 0 <= i <= |students|
        invariant students == old(students)
        invariant forall j :: 0 <= j < i ==> students[j].roll != roll
      {
        if students[i].roll == roll {
          FirstMatchAt(students, RollIs(roll), i);
          students := students[..i] + students[i + 1..];
          return true;
        }
        i := i + 1;
      }
      return false;
    }

    /** Appends a name-only record whose roll is one past the last record's (1 in an empty directory). */
    method AddStudentNameOnly(name: string) returns (newRoll: int)
      requires Valid()
      modifies this`students
      ensures Valid()
      ensures newRoll == NextAutoRoll(old(students))
      ensures old(students) == [] ==> newRoll == 1
      ensures old(students) != [] ==> newRoll == old(students)[|old(students)| - 1].roll + 1
      ensures students == old(students) + [NameOnlyRecord(newRoll, name)]
    {
      newRoll := if students == [] then 1 else students[|students| - 1].roll + 1;
      students := students + [Student(newRoll, name, "N/A", 0, 0.0, '-')];
    }

    /**
     Returns the roll of the first record with exactly that name, or adds a
     name-only record and returns its roll. Either way that roll is afterwards
     the one the first record with the name carries, so asking again with the
     same name finds it and adds nothing.
     */
    method SearchNameOrAdd(name: string) returns (roll: int, wasAdded: bool)
      requires Valid()
      modifies this`students
      ensures Valid()
      ensures wasAdded <==> FirstMatch(old(students), NameIs(name)).None?
      ensures !wasAdded ==> students == old(students) && roll == old(students)[FirstMatch(old(students), NameIs(name)).value].roll
      ensures wasAdded ==> roll == NextAutoRoll(old(students)) && students == old(students) + [NameOnlyRecord(roll, name)]
      ensures FirstMatch(students, NameIs(name)).Some? && students[FirstMatch(students, NameIs(name)).value].roll == roll
    {
      wasAdded := false;
      var i := 0;
      while i < |students|
        invariant 0 <= i <= |students|
        invariant students == old(students)
        invariant forall j :: 0 <= j < i ==> students[j].name != name
      {
        if students[i].name == name {
          FirstMatchAt(students, NameIs(name), i);
          return students[i].roll, false;
        }
        i := i + 1;
      }
      wasAdded := true;
      roll := AddStudentNameOnly(name);
      FirstMatchAppend(old(students), NameOnlyRecord(roll, name), NameIs(name));
    }

    /** The first record with that roll, or nothing (where the source replies "Student not found."). */
    method GetStudentByRoll(roll: int) returns (r: Option<Student>)
      ensures r.None? <==> forall j :: 0 <= j < |students| ==> students[j].roll != roll
      ensures r.Some? ==>
        && r.value.roll == roll
        && FirstMatch(students, RollIs(roll)).Some?
        && r.value == students[FirstMatch(students, RollIs(roll)).value]
    {
      var i := 0;
      while i < |students|
        invariant 0 <= i <= |students|
        invariant forall j :: 0 <= j < i ==> students[j].roll != roll
      {
        if students[i].roll == roll {
          FirstMatchAt(students, RollIs(roll), i);
          return Some(students[i]);
        }
        i := i + 1;
      }
      return None;
    }

    /** The student listing: one row per record in insertion order with its standing, or the placeholder. */
    method GetAllStudents() returns (t: Listing<StudentRow>)
      ensures t.columns == StudentColumns
      ensures students == [] ==> t.body == Placeholder(NoStudentsNote)
      ensures students != [] ==> t.body.Rows? && |t.body.rows| == |students|
      ensures students != [] ==> forall k :: 0 <= k < |students| ==>
        t.body.rows[k].student == students[k] && t.body.rows[k].status == Status(students[k].cgpa)
    {
      if students == [] {
        return Listing(StudentColumns, Placeholder(NoStudentsNote));
      }
      var rows: seq<StudentRow> := [];
      for i := 0 to |students|
        invariant |rows| == i
        invariant forall k :: 0 <= k < i ==> rows[k] == StudentRow(students[k], Status(students[k].cgpa))
      {
        rows := rows + [StudentRow(students[i], Status(students[i].cgpa))];
      }
      return Listing(StudentColumns, Rows(rows));
    }

    /**
     Appends a "Pending" query numbered by the counter, which advances by one,
     unless the roll, name or message is rejected; then it returns -1 and
     changes nothing.
     */
    method AddQuery(roll: int, name: string, message: string) returns (id: int)
      requires Valid()
      modifies this`queries, this`nextQueryId
      ensures Valid()
      ensures (LedgerState(queries, nextQueryId), id) == Submit(LedgerState(old(queries), old(nextQueryId)), Request(roll, name, message))
      ensures Accepts(Request(roll, name, message)) ==>
        && id == old(nextQueryId) == |old(queries)| + 1
        && nextQueryId == old(nextQueryId) + 1
        && queries == old(queries) + [Query(id, roll, name, message, Pending)]
      ensures !Accepts(Request(roll, name, message)) ==>
        id == RejectedId && queries == old(queries) && nextQueryId == old(nextQueryId)
    {
      SubmitKeepsNumbered(LedgerState(queries, nextQueryId), Request(roll, name, message));
      if roll <= 0 || name == [] || message == [] {
        return -1;
      }
      id := nextQueryId;
      nextQueryId := nextQueryId + 1;
      queries := queries + [Query(id, roll, name, message, "Pending")];
    }

    /** The query listing: every query in insertion order, or the placeholder. */
    method GetAllQueries() returns (t: Listing<Query>)
      ensures t.columns == QueryColumns
      ensures queries == [] ==> t.body == Placeholder(NoQueriesNote)
      ensures queries != [] ==> t.body == Rows(queries)
    {
      if queries == [] {
        return Listing(QueryColumns, Placeholder(NoQueriesNote));
      }
      var rows: seq<Query> := [];
      for i := 0 to |queries|
        invariant rows == queries[..i]
      {
        rows := rows + [queries[i]];
      }
      assert queries[..|queries|] == queries;
      return Listing(QueryColumns, Rows(rows));
    }
  }
}
