/**
 The records kept by the student record management backend: a student, a
 submitted query, the rows of the two listings, and the standing label that
 the student listing derives from a CGPA.
 */
module Records {

  datatype Option<T> = None | Some(value: T)

  /** One student. The source keeps `cgpa` as a float; here it is a real. */
  datatype Student = Student(roll: int, name: string, dept: string, sem: int, cgpa: real, grade: char)

  /** One submitted query. `roll` is not checked against the directory. */
  datatype Query = Query(id: int, roll: int, name: string, message: string, status: string)

  /** A listing: the column headings, then either one row per record or a placeholder line. */
  datatype Listing<R> = Listing(columns: seq<string>, body: Body<R>)
  datatype Body<R> = Placeholder(note: string) | Rows(rows: seq<R>)

  /** A student row of the student listing carries the derived standing label. */
  datatype StudentRow = StudentRow(student: Student, status: string)

  const StudentColumns: seq<string> := ["ROLL", "NAME", "DEPT", "SEM", "CGPA", "GRADE", "STATUS"]
  const QueryColumns: seq<string> := ["ID", "ROLL", "NAME", "STATUS", "MESSAGE"]
  const NoStudentsNote: string := "(No students added yet)"
  const NoQueriesNote: string := "(No queries submitted yet)"

  /** The standing labels, from the lowest band to the highest. */
  const Labels: seq<string> := ["Needs Help", "Average", "Good", "Very Good", "Excellent"]

  /** The lower bounds of the four upper bands, ascending. */
  const Thresholds: seq<real> := [5.0, 6.0, 7.0, 8.0]

  /** The standing shown beside a student: the first threshold reached, tried from high to low. */
  function Status(cgpa: real): string
  {
    if cgpa >= 8.0 then "Excellent"
    else if cgpa >= 7.0 then "Very Good"
    else if cgpa >= 6.0 then "Good"
    else if cgpa >= 5.0 then "Average"
    else "Needs Help"
  }

  /** How many of the thresholds in `ts` the value `cgpa` reaches. */
  function CountReached(ts: seq<real>, cgpa: real): (n: nat)
    ensures n <= |ts|
    ensures n == 0 <==> forall k :: 0 <= k < |ts| ==> cgpa < ts[k]
  {
    if ts == [] then 0
    else (if cgpa >= ts[0] then 1 else 0) + CountReached(ts[1..], cgpa)
  }

  /** The band of a CGPA: an index into Labels, defined independently of Status. */
  function Band(cgpa: real): (b: nat)
    ensures b < |Labels|
  {
    CountReached(Thresholds, cgpa)
  }

  /** The if-chain agrees with the band reference: the label is the one of the band reached. */
  lemma StatusIsLabelOfBand(cgpa: real)
    ensures Status(cgpa) == Labels[Band(cgpa)]
  {
    var from8: seq<real> := [8.0];
    var from7: seq<real> := [7.0, 8.0];
    var from6: seq<real> := [6.0, 7.0, 8.0];
    assert from8[1..] == [];
    assert CountReached(from8, cgpa) == if cgpa >= 8.0 then 1 else 0;
    assert from7[1..] == from8;
    assert CountReached(from7, cgpa) == (if cgpa >= 7.0 then 1 else 0) + CountReached(from8, cgpa);
    assert from6[1..] == from7;
    assert CountReached(from6, cgpa) == (if cgpa >= 6.0 then 1 else 0) + CountReached(from7, cgpa);
    assert Thresholds[1..] == from6;
  }

  lemma {:induction false} CountReachedMonotone(ts: seq<real>, a: real, b: real)
    requires a <= b
    ensures CountReached(ts, a) <= CountReached(ts, b)
  {
    if ts != [] {
      CountReachedMonotone(ts[1..], a, b);
    }
  }

  /** A higher CGPA never gets a lower standing. */
  lemma StatusMonotone(a: real, b: real)
    requires a <= b
    ensures Band(a) <= Band(b)
    ensures Status(a) == Labels[Band(a)] && Status(b) == Labels[Band(b)]
  {
    CountReachedMonotone(Thresholds, a, b);
    StatusIsLabelOfBand(a);
    StatusIsLabelOfBand(b);
  }

  /** Each threshold belongs to the band it opens; just below it is the band beneath. */
  lemma StatusBoundaries()
    ensures Status(8.0) == "Excellent" && Status(7.999) == "Very Good"
    ensures Status(7.0) == "Very Good" && Status(6.999) == "Good"
    ensures Status(6.0) == "Good" && Status(5.999) == "Average"
    ensures Status(5.0) == "Average" && Status(4.999) == "Needs Help"
  {
  }
}
