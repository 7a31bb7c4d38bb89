/**
 * The read side of the information service: `get_course_details` (both revisions)
 * and `get_available_courses_for_registration`.
 */
module Retrieval {
  import opened Wrappers
  import opened SeqUtil
  import opened Store
  import opened Activity

  /** The `task_info` dictionary built for each assignment. */
  datatype TaskInfo = TaskInfo(assignmentId: string, title: string, description: string, deadline: string, maxGrade: string)

  /** A completed task: its `task_info` with the student's `grade` and `answer` (each None when absent). */
  datatype CompletedTask = CompletedTask(info: TaskInfo, grade: Option<string>, answer: Option<string>)

  /** The reply of `get_course_details(courseID, studentID)`: the error dictionary or the three lists. */
  datatype CourseDetails =
    | DetailsNotFound
    | CourseDetails(course: Course, completed: seq<CompletedTask>, pending: seq<TaskInfo>)

  function InfoOf(a: Assignment): TaskInfo
  {
    TaskInfo(a.assignmentId, a.title, a.description, a.deadline, a.maxGrade)
  }

  function ValueOf(e: Option<Entry>): Option<string>
  {
    match e
    case None => None
    case Some(x) => Some(x.value)
  }

  function CompletedOf(studentId: string): Assignment -> CompletedTask
  {
    (a: Assignment) => CompletedTask(InfoOf(a), ValueOf(FirstEntry(a.grades, studentId)), ValueOf(FirstEntry(a.answers, studentId)))
  }

  function AnsweredBy(studentId: string): Assignment -> bool { (a: Assignment) => Answered(a, studentId) }

  function OfCourse(courseId: string): Assignment -> bool { (a: Assignment) => a.courseId == courseId }

  /** `get_course_details` on the given tables. */
  function DetailsOf(courses: seq<Course>, assignments: seq<Assignment>, courseId: string, studentId: string): (r: CourseDetails)
    ensures r.DetailsNotFound? <==> forall c :: c in courses ==> c.courseId != courseId
    ensures r.CourseDetails? ==> r.course in courses && r.course.courseId == courseId
  {
    match FindCourse(courses, courseId)
    case None => DetailsNotFound
    case Some(c) =>
      var mine := Filter(assignments, OfCourse(courseId));
      CourseDetails(c, Map(Filter(mine, AnsweredBy(studentId)), CompletedOf(studentId)),
                    Map(Filter(mine, Unanswered(studentId)), InfoOf))
  }

  /** The two lists together have one task per assignment of the course. */
  lemma {:induction false} DetailsCount(courses: seq<Course>, assignments: seq<Assignment>, courseId: string, studentId: string)
    requires FindCourse(courses, courseId).Some?
    ensures var d := DetailsOf(courses, assignments, courseId, studentId);
      |d.completed| + |d.pending| == |Filter(assignments, OfCourse(courseId))|
  {
    FilterSplitLength(Filter(assignments, OfCourse(courseId)), AnsweredBy(studentId), Unanswered(studentId));
  }

  /**
   * Every assignment of the course lands in the list its answer status selects: the
   * answered ones as completed tasks, the others as pending tasks.
   */
  lemma {:induction false} DetailsPartition(courses: seq<Course>, assignments: seq<Assignment>, courseId: string, studentId: string)
    requires FindCourse(courses, courseId).Some?
    ensures var d := DetailsOf(courses, assignments, courseId, studentId);
      forall a :: a in assignments && a.courseId == courseId ==>
        if Answered(a, studentId) then CompletedOf(studentId)(a) in d.completed else InfoOf(a) in d.pending
  {
    var mine := Filter(assignments, OfCourse(courseId));
    FilterMembership(assignments, OfCourse(courseId));
    FilterMembership(mine, AnsweredBy(studentId));
    FilterMembership(mine, Unanswered(studentId));
    MapMembership(Filter(mine, AnsweredBy(studentId)), CompletedOf(studentId));
    MapMembership(Filter(mine, Unanswered(studentId)), InfoOf);
  }

  /** Every completed task carries the student's answer. */
  lemma {:induction false} CompletedHaveAnswers(courses: seq<Course>, assignments: seq<Assignment>, courseId: string, studentId: string)
    requires FindCourse(courses, courseId).Some?
    ensures var d := DetailsOf(courses, assignments, courseId, studentId);
      forall t :: t in d.completed ==> t.answer.Some?
  {
    var done := Filter(Filter(assignments, OfCourse(courseId)), AnsweredBy(studentId));
    FilterMembership(Filter(assignments, OfCourse(courseId)), AnsweredBy(studentId));
    MapMembership(done, CompletedOf(studentId));
    forall a | a in done
      ensures FirstEntry(a.answers, studentId).Some?
    {
      assert Answered(a, studentId);
    }
  }

  /**
   * Both lists are built, one task per assignment in store order, from the course's
   * answered and unanswered assignments; a completed task carries the student's first
   * grade (or None) and first answer.
   */
  lemma {:induction false} DetailsFromSources(courses: seq<Course>, assignments: seq<Assignment>, courseId: string, studentId: string)
    requires FindCourse(courses, courseId).Some?
    ensures var d := DetailsOf(courses, assignments, courseId, studentId);
      d.completed == Map(CompletedSources(assignments, courseId, studentId), CompletedOf(studentId))
      && d.pending == Map(PendingSources(assignments, courseId, studentId), InfoOf)
    ensures var d := DetailsOf(courses, assignments, courseId, studentId);
      var src := CompletedSources(assignments, courseId, studentId);
      forall i :: 0 <= i < |d.completed| ==>
        d.completed[i].grade == ValueOf(FirstEntry(src[i].grades, studentId))
        && d.completed[i].answer == ValueOf(FirstEntry(src[i].answers, studentId))
  {
    FilterFilter(assignments, OfCourse(courseId), AnsweredBy(studentId), CompletedTest(courseId, studentId));
    FilterFilter(assignments, OfCourse(courseId), Unanswered(studentId), PendingDetailTest(courseId, studentId));
  }

  /**
   * The sources are order-preserving subsequences of the assignment table holding exactly
   * the course's answered (respectively unanswered) assignments.
   */
  lemma {:induction false} SourcesExactly(assignments: seq<Assignment>, courseId: string, studentId: string)
    ensures IsSubsequence(CompletedSources(assignments, courseId, studentId), assignments)
    ensures IsSubsequence(PendingSources(assignments, courseId, studentId), assignments)
    ensures forall a :: a in CompletedSources(assignments, courseId, studentId) <==>
      a in assignments && a.courseId == courseId && Answered(a, studentId)
    ensures forall a :: a in PendingSources(assignments, courseId, studentId) <==>
      a in assignments && a.courseId == courseId && !Answered(a, studentId)
  {
    FilterIsSubsequence(assignments, CompletedTest(courseId, studentId));
    FilterIsSubsequence(assignments, PendingDetailTest(courseId, studentId));
    FilterMembership(assignments, CompletedTest(courseId, studentId));
    FilterMembership(assignments, PendingDetailTest(courseId, studentId));
  }

  function CompletedTest(courseId: string, studentId: string): Assignment -> bool
  {
    (a: Assignment) => a.courseId == courseId && Answered(a, studentId)
  }

  function PendingDetailTest(courseId: string, studentId: string): Assignment -> bool
  {
    (a: Assignment) => a.courseId == courseId && !Answered(a, studentId)
  }

  /** The course's answered assignments, in store order, from which the completed tasks are built. */
  function CompletedSources(assignments: seq<Assignment>, courseId: string, studentId: string): seq<Assignment>
  {
    Filter(assignments, CompletedTest(courseId, studentId))
  }

  /** The course's unanswered assignments, in store order, from which the pending tasks are built. */
  function PendingSources(assignments: seq<Assignment>, courseId: string, studentId: string): seq<Assignment>
  {
    Filter(assignments, PendingDetailTest(courseId, studentId))
  }

  /** `get_course_details(courseID, studentID)` of the nested revision. */
  method GetCourseDetails(db: Database, courseId: string, studentId: string) returns (r: CourseDetails)
    ensures r == DetailsOf(db.courses, db.assignments, courseId, studentId)
  {
    var course := FindCourse(db.courses, courseId);
    if course.None? {
      return DetailsNotFound;
    }
    var completed, pending := SortTasks(Filter(db.assignments, OfCourse(courseId)), studentId);
    return CourseDetails(course.value, completed, pending);
  }

  /** One more assignment adds one task to the list its answer status selects. */
  lemma SortStep(mine: seq<Assignment>, i: nat, studentId: string)
    requires i < |mine|
    ensures Map(Filter(mine[..i + 1], AnsweredBy(studentId)), CompletedOf(studentId))
         == Map(Filter(mine[..i], AnsweredBy(studentId)), CompletedOf(studentId))
            + (if Answered(mine[i], studentId) then [CompletedOf(studentId)(mine[i])] else [])
    ensures Map(Filter(mine[..i + 1], Unanswered(studentId)), InfoOf)
         == Map(Filter(mine[..i], Unanswered(studentId)), InfoOf)
            + (if Answered(mine[i], studentId) then [] else [InfoOf(mine[i])])
  {
    var a := mine[i];
    FilterPrefixStep(mine, i, AnsweredBy(studentId));
    FilterPrefixStep(mine, i, Unanswered(studentId));
    if Answered(a, studentId) {
      MapAppend(Filter(mine[..i], AnsweredBy(studentId)), [a], CompletedOf(studentId));
      assert Filter(mine[..i + 1], Unanswered(studentId)) == Filter(mine[..i], Unanswered(studentId));
    } else {
      MapAppend(Filter(mine[..i], Unanswered(studentId)), [a], InfoOf);
      assert Filter(mine[..i + 1], AnsweredBy(studentId)) == Filter(mine[..i], AnsweredBy(studentId));
    }
  }

  /** The loop of `get_course_details` over the course's assignments. */
  method SortTasks(mine: seq<Assignment>, studentId: string) returns (completed: seq<CompletedTask>, pending: seq<TaskInfo>)
    ensures completed == Map(Filter(mine, AnsweredBy(studentId)), CompletedOf(studentId))
    ensures pending == Map(Filter(mine, Unanswered(studentId)), InfoOf)
  {
    completed, pending := [], [];
    var i := 0;
    while i < |mine|
      invariant 0 <= i <= |mine|
      invariant completed == Map(Filter(mine[..i], AnsweredBy(studentId)), CompletedOf(studentId))
      invariant pending == Map(Filter(mine[..i], Unanswered(studentId)), InfoOf)
    {
      var a := mine[i];
      SortStep(mine, i, studentId);
      var answer := FirstEntryOf(a.answers, studentId);
      var info := TaskInfo(a.assignmentId, a.title, a.description, a.deadline, a.maxGrade);
      if Answered(a, studentId) {
        var grade := FirstEntryOf(a.grades, studentId);
        completed := completed + [CompletedTask(info, ValueOf(grade), ValueOf(answer))];
      } else {
        pending := pending + [info];
      }
      i := i + 1;
    }
    assert mine[..i] == mine;
  }

  /** `get_course_details(courseID)` of the flat revision: the course, or the `ValueError`. */
  function CourseRecord(courses: seq<Course>, courseId: string): (r: Result<Course, Error>)
    ensures r.Ok? <==> exists c :: c in courses && c.courseId == courseId
    ensures r.Ok? ==> r.value in courses && r.value.courseId == courseId
    ensures r.Err? ==> r.error == CourseNotFound(courseId)
  {
    match FindCourse(courses, courseId)
    case None => Err(CourseNotFound(courseId))
    case Some(c) => Ok(c)
  }

  function NotEnrolled(enrolledIds: seq<string>): Course -> bool { (c: Course) => c.courseId !in enrolledIds }

  /** The `{"course_id": {"$nin": enrolled_ids}}` query. */
  function RegistrationCandidates(courses: seq<Course>, enrolledIds: seq<string>): seq<Course>
  {
    Filter(courses, NotEnrolled(enrolledIds))
  }

  /** Exactly the courses whose id is not among the enrolled ones, in store order. */
  lemma {:induction false} CandidatesExactly(courses: seq<Course>, enrolledIds: seq<string>)
    ensures IsSubsequence(RegistrationCandidates(courses, enrolledIds), courses)
    ensures forall c :: c in RegistrationCandidates(courses, enrolledIds) <==> c in courses && c.courseId !in enrolledIds
  {
    FilterIsSubsequence(courses, NotEnrolled(enrolledIds));
    FilterMembership(courses, NotEnrolled(enrolledIds));
  }

  /** `get_available_courses_for_registration(enrolled_ids)`: an empty list asks for every course. */
  method GetAvailableCoursesForRegistration(db: Database, enrolledIds: seq<string>) returns (cs: seq<Course>)
    ensures cs == RegistrationCandidates(db.courses, enrolledIds)
    ensures enrolledIds == [] ==> cs == db.courses
  {
    if enrolledIds == [] {
      forall i | 0 <= i < |db.courses|
        ensures NotEnrolled(enrolledIds)(db.courses[i])
      {
      }
      FilterKeepsAll(db.courses, NotEnrolled(enrolledIds));
      cs := db.courses;
    } else {
      cs := Filter(db.courses, NotEnrolled(enrolledIds));
    }
  }

  /** The flat revision's projection `{"course_name": 1, "course_id": 1}`. */
  datatype CourseSummary = CourseSummary(courseId: string, courseName: string)

  function SummaryOf(c: Course): CourseSummary { CourseSummary(c.courseId, c.courseName) }

  /** `get_available_courses_for_registration(enrolled_ids)` of the flat revision. */
  method GetAvailableCourseSummaries(db: Database, enrolledIds: seq<string>) returns (ss: seq<CourseSummary>)
    ensures ss == Map(RegistrationCandidates(db.courses, enrolledIds), SummaryOf)
    ensures enrolledIds == [] ==> ss == Map(db.courses, SummaryOf)
  {
    var cs := GetAvailableCoursesForRegistration(db, enrolledIds);
    ss := Map(cs, SummaryOf);
  }
}
