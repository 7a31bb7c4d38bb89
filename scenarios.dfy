/**
 * Worked admissions. One course in a room of capacity two, three students: the first
 * student gets in, cannot enrol twice, the second gets in, the third finds the course
 * full. Then the first student asks for a course overlapping the one held (refused as a
 * schedule conflict) and for one starting when it ends (admitted).
 */
module Scenarios {
  import opened Wrappers
  import opened Schedules
  import opened Store
  import opened Admission

  const Monday: Schedule := Schedule(["Monday"], "09:00", "10:00")
  const Lecture: Course := Course("C1", "Logic", "A", Monday, "R1", "Ada", Some(0), "c1")
  const Rooms: seq<Room> := [Room("R1", Some(2))]
  const Students: seq<Student> := [Student("S1", "One", "s1"), Student("S2", "Two", "s2"), Student("S3", "Three", "s3")]

  /** The tables after a successful admission, as `enroll_in_course` leaves them. */
  function Admit(courses: seq<Course>, enrollments: seq<Enrollment>, eId: string, studentId: string, courseId: string)
    : (r: (seq<Course>, seq<Enrollment>))
    ensures r.1 == enrollments + [Enrollment(eId, studentId, courseId, UngradedMark)]
  {
    (IncrementCount(courses, courseId), enrollments + [Enrollment(eId, studentId, courseId, UngradedMark)])
  }

  /** The tables after the first student's admission. */
  function AfterFirst(): (seq<Course>, seq<Enrollment>)
  {
    Admit([Lecture], [], "e1", "S1", "C1")
  }

  /** The tables after the second student's admission. */
  function AfterSecond(): (seq<Course>, seq<Enrollment>)
  {
    Admit(AfterFirst().0, AfterFirst().1, "e2", "S2", "C1")
  }

  /** Each admission bumps the one course and appends one enrollment. */
  lemma {:induction false} TablesAfterAdmissions()
    ensures AfterFirst().0 == [Bump(Lecture)]
    ensures AfterSecond().0 == [Bump(Bump(Lecture))]
    ensures AfterSecond().1 == [Enrollment("e1", "S1", "C1", UngradedMark), Enrollment("e2", "S2", "C1", UngradedMark)]
  {
    assert AfterFirst().0 == [Bump(Lecture)];
  }

  /** An empty course admits the first student. */
  lemma {:induction false} FirstStudentAdmitted(rev: Revision)
    ensures EnrollOutcome(rev, Students, [Lecture], [], Rooms, "S1", "C1") == Ok(Lecture)
  {
    assert HasStudent(Students, "S1") by { assert Students[0] in Students; }
    NoEnrollmentsNoClash([], [Lecture], "S1", Monday);
  }

  /** The first student cannot enrol a second time. */
  lemma {:induction false} DuplicateRejected(rev: Revision)
    ensures EnrollOutcome(rev, Students, AfterFirst().0, AfterFirst().1, Rooms, "S1", "C1") == Err(AlreadyEnrolled)
  {
    TablesAfterAdmissions();
    assert HasStudent(Students, "S1") by { assert Students[0] in Students; }
    var e1 := AfterFirst().1;
    assert IsEnrolled(e1, "S1", "C1") by { assert e1[0] in e1; }
  }

  /** With one seat taken the second student gets in. */
  lemma {:induction false} SecondStudentAdmitted(rev: Revision)
    ensures EnrollOutcome(rev, Students, AfterFirst().0, AfterFirst().1, Rooms, "S2", "C1") == Ok(Bump(Lecture))
  {
    TablesAfterAdmissions();
    assert HasStudent(Students, "S2") by { assert Students[1] in Students; }
    NoEnrollmentsNoClash(AfterFirst().1, AfterFirst().0, "S2", Monday);
  }

  /** With both seats taken the third student finds the course full. */
  lemma {:induction false} ThirdStudentTurnedAway(rev: Revision)
    ensures EnrollOutcome(rev, Students, AfterSecond().0, AfterSecond().1, Rooms, "S3", "C1") == Err(CourseFull(2))
  {
    TablesAfterAdmissions();
    assert HasStudent(Students, "S3") by { assert Students[2] in Students; }
    assert !IsEnrolled(AfterSecond().1, "S3", "C1");
    assert CountOf(Bump(Bump(Lecture))) == 2;
  }

  /** The whole sequence: in, duplicate, in, full. */
  lemma {:induction false} FillingARoom(rev: Revision)
    ensures EnrollOutcome(rev, Students, [Lecture], [], Rooms, "S1", "C1") == Ok(Lecture)
    ensures var (c1, e1) := Admit([Lecture], [], "e1", "S1", "C1");
      EnrollOutcome(rev, Students, c1, e1, Rooms, "S1", "C1") == Err(AlreadyEnrolled)
    ensures var (c1, e1) := Admit([Lecture], [], "e1", "S1", "C1");
      EnrollOutcome(rev, Students, c1, e1, Rooms, "S2", "C1") == Ok(Bump(Lecture))
    ensures var (c1, e1) := Admit([Lecture], [], "e1", "S1", "C1");
      var (c2, e2) := Admit(c1, e1, "e2", "S2", "C1");
      EnrollOutcome(rev, Students, c2, e2, Rooms, "S3", "C1") == Err(CourseFull(2))
  {
    FirstStudentAdmitted(rev);
    DuplicateRejected(rev);
    SecondStudentAdmitted(rev);
    ThirdStudentTurnedAway(rev);
  }

  // The time-conflict case: the first student holds the Monday 09:00-10:00 lecture and
  // asks for a course that overlaps it, then for one that starts when it ends.

  const Overlapping: Course := Course("C2", "Sets", "A", Schedule(["Monday"], "09:30", "10:30"), "R2", "Bea", Some(0), "c2")
  const Following: Course := Course("C3", "Proof", "A", Schedule(["Monday"], "10:00", "11:00"), "R3", "Cy", Some(0), "c3")

  /** The course table after the first admission, with the two further courses. */
  function Timetable(): seq<Course>
  {
    AfterFirst().0 + [Overlapping, Following]
  }

  /** A Monday course from 09:30 to 10:30 clashes with the student's 09:00-10:00 lecture. */
  lemma {:induction false} OverlapRejected(rev: Revision)
    ensures EnrollOutcome(rev, Students, Timetable(), AfterFirst().1, Rooms, "S1", "C2") == Err(ScheduleConflict)
  {
    TablesAfterAdmissions();
    assert HasStudent(Students, "S1") by { assert Students[0] in Students; }
    var courses, e1 := Timetable(), AfterFirst().1;
    assert courses == [Bump(Lecture), Overlapping, Following];
    assert FindCourse(courses, "C2") == Some(Overlapping);
    assert FindRoom(Rooms, "R2").None?;
    assert !IsEnrolled(e1, "S1", "C2");
    LexLessIsMinutesOrder("09:00", "10:30");
    LexLessIsMinutesOrder("09:30", "10:00");
    assert "Monday" in Monday.days && "Monday" in Overlapping.schedule.days;
    assert Conflicts(Bump(Lecture).schedule, Overlapping.schedule);
    assert IsEnrolled(e1, "S1", "C1") by { assert e1[0] in e1; }
    assert courses[0] in courses;
  }

  /** A Monday course from 10:00 to 11:00 only touches the lecture, so the student gets in. */
  lemma {:induction false} TouchingAdmitted(rev: Revision)
    ensures EnrollOutcome(rev, Students, Timetable(), AfterFirst().1, Rooms, "S1", "C3") == Ok(Following)
  {
    TablesAfterAdmissions();
    assert HasStudent(Students, "S1") by { assert Students[0] in Students; }
    var courses, e1 := Timetable(), AfterFirst().1;
    assert courses == [Bump(Lecture), Overlapping, Following];
    assert FindCourse(courses, "C3") == Some(Following);
    assert FindRoom(Rooms, "R3").None?;
    assert !IsEnrolled(e1, "S1", "C3");
    TouchingDoNotConflict(Monday, Following.schedule);
    forall c | c in courses && IsEnrolled(e1, "S1", c.courseId)
      ensures !Conflicts(c.schedule, Following.schedule)
    {
      assert c.courseId == "C1";
      assert c == Bump(Lecture);
    }
  }
}
