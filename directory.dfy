/**
 The student directory as a value: an insertion-ordered sequence of student
 records in which rolls may repeat. Every lookup acts on the first match in
 insertion order; the functions here say which record that is, and the
 lemmas say how appends, deletes and the automatic roll interact with it.
 */
module Directory {
  import opened Records

  /** The test a lookup by roll applies to each record. */
  function RollIs(roll: int): Student -> bool
  {
    (x: Student) => x.roll == roll
  }

  /** The test a lookup by name applies to each record: exact, case-sensitive equality. */
  function NameIs(name: string): Student -> bool
  {
    (x: Student) => x.name == name
  }

  /** The position of the first record, in insertion order, that passes `p`, if there is one. */
  function FirstMatch(s: seq<Student>, p: Student -> bool): (r: Option<nat>)
    ensures r.Some? ==> r.value < |s| && p(s[r.value])
    ensures r.Some? ==> forall j :: 0 <= j < r.value ==> !p(s[j])
    ensures r.None? <==> forall j :: 0 <= j < |s| ==> !p(s[j])
  {
    if s == [] then None
    else if p(s[0]) then Some(0)
    else match FirstMatch(s[1..], p)
      case None => None
      case Some(i) => Some(i + 1)
  }

  /** The fields an explicit insert demands: a positive roll, a name and a department. */
  predicate AcceptsStudent(roll: int, name: string, dept: string)
  {
    roll > 0 && name != [] && dept != []
  }

  /** The roll a name-only record receives: one past the LAST record's roll, or 1. */
  function NextAutoRoll(s: seq<Student>): int
  {
    if s == [] then 1 else s[|s| - 1].roll + 1
  }

  /** The record created for a name that is not in the directory. */
  function NameOnlyRecord(roll: int, name: string): Student
  {
    Student(roll, name, "N/A", 0, 0.0, '-')
  }

  /** Appending a record leaves an earlier first match in place, and otherwise the new record may become it. */
  lemma FirstMatchAppend(s: seq<Student>, x: Student, p: Student -> bool)
    ensures FirstMatch(s + [x], p) ==
      if FirstMatch(s, p).Some? then FirstMatch(s, p)
      else if p(x) then Some(|s|)
      else None
  {
    var t := s + [x];
    assert forall j :: 0 <= j < |s| ==> t[j] == s[j];
    assert t[|s|] == x;
    match FirstMatch(s, p)
    case Some(k) =>
      FirstMatchAt(t, p, k);
    case None =>
      if p(x) {
        FirstMatchAt(t, p, |s|);
      }
  }

  /** Inserting a record under a roll not yet present makes it the one a lookup by that roll finds. */
  lemma LookupAfterInsert(s: seq<Student>, x: Student)
    requires FirstMatch(s, RollIs(x.roll)).None?
    ensures FirstMatch(s + [x], RollIs(x.roll)) == Some(|s|)
    ensures (s + [x])[|s|] == x
  {
    FirstMatchAppend(s, x, RollIs(x.roll));
  }

  /** Inserting under a roll already present changes nothing a lookup by that roll sees. */
  lemma InsertDuplicateIsShadowed(s: seq<Student>, x: Student)
    requires FirstMatch(s, RollIs(x.roll)).Some?
    ensures FirstMatch(s + [x], RollIs(x.roll)) == FirstMatch(s, RollIs(x.roll))
  {
    FirstMatchAppend(s, x, RollIs(x.roll));
  }

  /** The first match is the one position that matches with no match before it. */
  lemma FirstMatchAt(s: seq<Student>, p: Student -> bool, k: nat)
    requires k < |s| && p(s[k])
    requires forall j :: 0 <= j < k ==> !p(s[j])
    ensures FirstMatch(s, p) == Some(k)
  {
  }

  /** Behind a prefix without a match, the first match is the suffix's, shifted. */
  lemma FirstMatchBehind(a: seq<Student>, b: seq<Student>, p: Student -> bool)
    requires FirstMatch(a, p).None?
    ensures FirstMatch(a + b, p) ==
      match FirstMatch(b, p)
      case None => None
      case Some(k) => Some(|a| + k)
  {
    var t := a + b;
    assert forall j :: 0 <= j < |a| ==> t[j] == a[j];
    assert forall j :: |a| <= j < |t| ==> t[j] == b[j - |a|];
    match FirstMatch(b, p)
    case None =>
    case Some(k) =>
      FirstMatchAt(t, p, |a| + k);
  }

  /** The records before the first match contain no match. */
  lemma NoMatchBeforeFirst(s: seq<Student>, p: Student -> bool, i: nat)
    requires FirstMatch(s, p) == Some(i)
    ensures FirstMatch(s[..i], p).None?
  {
    var before := s[..i];
    assert forall j :: 0 <= j < |before| ==> before[j] == s[j];
  }

  /** After the first match is removed, the next record with the same roll, if any, becomes the first match. */
  lemma DeleteExposesNextDuplicate(s: seq<Student>, roll: int)
    requires FirstMatch(s, RollIs(roll)).Some?
    ensures var i := FirstMatch(s, RollIs(roll)).value;
      FirstMatch(s[..i] + s[i + 1..], RollIs(roll)) ==
        match FirstMatch(s[i + 1..], RollIs(roll))
        case None => None
        case Some(k) => Some(i + k)
  {
    var i := FirstMatch(s, RollIs(roll)).value;
    NoMatchBeforeFirst(s, RollIs(roll), i);
    FirstMatchBehind(s[..i], s[i + 1..], RollIs(roll));
  }

  /** Rolls strictly increase along the directory, as when every record was added by name. */
  ghost predicate RollsAscending(s: seq<Student>)
  {
    forall i, j :: 0 <= i < j < |s| ==> s[i].roll < s[j].roll
  }

  /** While the rolls ascend, the automatic roll is new and keeps them ascending. */
  lemma AutoRollFreshWhileAscending(s: seq<Student>, name: string)
    requires RollsAscending(s)
    ensures FirstMatch(s, RollIs(NextAutoRoll(s))).None?
    ensures RollsAscending(s + [NameOnlyRecord(NextAutoRoll(s), name)])
  {
    var t := s + [NameOnlyRecord(NextAutoRoll(s), name)];
    assert forall j :: 0 <= j < |s| ==> t[j] == s[j];
  }

  /** The automatic roll is new, but once the last record is deleted it repeats a roll still present. */
  ghost predicate CollidesAfterDeletingLast(s: seq<Student>)
  {
    && |s| > 0
    && FirstMatch(s, RollIs(NextAutoRoll(s))).None?
    && FirstMatch(s[..|s| - 1], RollIs(NextAutoRoll(s[..|s| - 1]))).Some?
  }

  /** The automatic roll can repeat an existing roll: after an out-of-order insert, deleting the last record exposes it. */
  lemma AutoRollCanCollide()
    ensures exists s :: CollidesAfterDeletingLast(s)
  {
    var a := Student(2, "Asha", "CSE", 3, 8.5, 'A');
    var b := Student(1, "Ravi", "ECE", 1, 6.0, 'C');
    var c := Student(5, "Mira", "EEE", 2, 7.0, 'B');
    var s := [a, b, c];
    assert FirstMatch(s, RollIs(NextAutoRoll(s))).None? by {
      assert NextAutoRoll(s) == 6;
      assert forall j :: 0 <= j < |s| ==> s[j].roll != 6;
    }
    assert FirstMatch(s[..|s| - 1], RollIs(NextAutoRoll(s[..|s| - 1]))).Some? by {
      var kept := s[..|s| - 1];
      assert kept == [a, b];
      assert NextAutoRoll(kept) == 2;
      FirstMatchAt(kept, RollIs(2), 0);
    }
    assert CollidesAfterDeletingLast(s);
  }
}
