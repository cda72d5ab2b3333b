/**
 * The teacher's student list: the search-and-course filter and the
 * per-status counts shown above the table. The progress badge is the one of
 * the student's course page (`StudentCourse.StatusBadge`).
 */
module TeacherStudents {
  import opened Text
  import opened Sequences
  import opened StudentCourse

  /** A row of the list. */
  datatype Student = Student(
    id: nat, firstName: string, lastName: string, email: string,
    courseTitle: string, progress: string)

  /** The course selector's value meaning every course. */
  const AllCourses := "all"

  /** The search term occurs, ignoring case, in the first name, the last
      name or the e-mail. */
  predicate MatchesSearch(s: Student, term: string) {
    var t := ToLower(term);
    Contains(ToLower(s.firstName), t) || Contains(ToLower(s.lastName), t) ||
    Contains(ToLower(s.email), t)
  }

  /** `"all"` selects every course; any other value selects the course with
      exactly that title. */
  predicate MatchesCourse(s: Student, selected: string) {
    selected == AllCourses || s.courseTitle == selected
  }

  /** The student passes both the search and the course selector. */
  predicate Matches(s: Student, term: string, selected: string) {
    MatchesSearch(s, term) && MatchesCourse(s, selected)
  }

  /** `filteredStudents`: the students that match both the search and the
      course, in their original order, each as often as in the input. */
  function FilterStudents(students: seq<Student>, term: string, selected: string): (r: seq<Student>)
    ensures IsSublist(r, students)
    ensures |r| <= |students|
    ensures forall i :: 0 <= i < |r| ==> Matches(r[i], term, selected)
    ensures forall x :: x in r <==> x in students && Matches(x, term, selected)
    ensures forall x :: multiset(r)[x] == (if Matches(x, term, selected) then multiset(students)[x] else 0)
  {
    if students == [] then []
    else
      var s0 := students[0];
      var rest := FilterStudents(students[1..], term, selected);
      assert students == [s0] + students[1..];
      KeepCounts(s0, students[1..], rest, term, selected);
      KeepMembers(s0, students[1..], rest, term, selected);
      if Matches(s0, term, selected) then [s0] + rest
      else
        SublistOfTail(rest, students);
        rest
  }

  /** One step of the filter keeps exactly the matching students. */
  lemma KeepMembers(s0: Student, tail: seq<Student>, rest: seq<Student>, term: string, selected: string)
    requires forall i :: 0 <= i < |rest| ==> Matches(rest[i], term, selected)
    requires forall x :: x in rest <==> x in tail && Matches(x, term, selected)
    ensures var r := if Matches(s0, term, selected) then [s0] + rest else rest;
      (forall i :: 0 <= i < |r| ==> Matches(r[i], term, selected)) &&
      (forall x :: x in r <==> x in [s0] + tail && Matches(x, term, selected))
  {
  }

  /** One step of the filter keeps the count of every student: a matching head
      adds one occurrence of itself, any other head adds nothing. */
  lemma KeepCounts(s0: Student, tail: seq<Student>, rest: seq<Student>, term: string, selected: string)
    requires forall x :: multiset(rest)[x] == (if Matches(x, term, selected) then multiset(tail)[x] else 0)
    ensures var r := if Matches(s0, term, selected) then [s0] + rest else rest;
      forall x :: multiset(r)[x] == (if Matches(x, term, selected) then multiset([s0] + tail)[x] else 0)
  {
    assert multiset([s0] + tail) == multiset{s0} + multiset(tail);
    assert multiset([s0] + rest) == multiset{s0} + multiset(rest);
  }

  /** The lowercase of the empty term is empty. */
  lemma ToLowerEmpty()
    ensures ToLower("") == ""
  {
  }

  /** With nothing typed and every course selected, the list is complete. */
  lemma {:induction false} EmptySearchKeepsAll(students: seq<Student>)
    ensures FilterStudents(students, "", AllCourses) == students
  {
    if students != [] {
      var s0 := students[0];
      EverythingMatchesEmpty(s0);
      EmptySearchKeepsAll(students[1..]);
      assert FilterStudents(students, "", AllCourses) == [s0] + FilterStudents(students[1..], "", AllCourses);
      assert [s0] + students[1..] == students;
    }
  }

  /** Every student matches the empty search with every course selected. */
  lemma EverythingMatchesEmpty(s: Student)
    ensures Matches(s, "", AllCourses)
  {
    ToLowerEmpty();
    ContainsEmpty(ToLower(s.firstName));
  }

  /** The students' statuses, in order. */
  function Statuses(students: seq<Student>): (r: seq<string>)
    ensures |r| == |students|
    ensures forall i :: 0 <= i < |students| ==> r[i] == students[i].progress
  {
    seq(|students|, i requires 0 <= i < |students| => students[i].progress)
  }

  /** `students.filter(s => s.progress === status).length`: the number of
      times the status occurs among the students' statuses. */
  function CountStatus(students: seq<Student>, status: string): (n: nat)
    ensures n <= |students|
    ensures n == 0 <==> forall i :: 0 <= i < |students| ==> students[i].progress != status
    ensures n == multiset(Statuses(students))[status]
  {
    if students == [] then 0
    else
      assert Statuses(students) == [students[0].progress] + Statuses(students[1..]);
      (if students[0].progress == status then 1 else 0) + CountStatus(students[1..], status)
  }

  /** Every student is counted under at most one of the three status cards,
      so the three counts never add up to more than the number of students;
      they fall short by the students whose status is some other string. */
  lemma {:induction false} StatusCountsBounded(students: seq<Student>)
    ensures CountStatus(students, Completed) + CountStatus(students, InProgress) +
            CountStatus(students, NotStarted) + CountOther(students) == |students|
  {
    if students != [] {
      StatusCountsBounded(students[1..]);
    }
  }

  /** The students whose status is none of the three the cards count. */
  function CountOther(students: seq<Student>): (n: nat)
    ensures n <= |students|
  {
    if students == [] then 0
    else
      var p := students[0].progress;
      (if p != Completed && p != InProgress && p != NotStarted then 1 else 0) + CountOther(students[1..])
  }
}
