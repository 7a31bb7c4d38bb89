/**
 * The course creation gate (`create_course`) and the enrollment admission
 * controller (`enroll_in_course`, `has_time_conflict`) of both revisions,
 * with `validate_required_fields`.
 */
module Admission {
  import opened Wrappers
  import opened SeqUtil
  import opened Schedules
  import opened Store
  import opened Availability

  /** The first required key, in list order, that `present` lacks. */
  function FirstMissing(present: set<string>, required: seq<string>): (r: Option<string>)
    ensures r.None? <==> forall i :: 0 <= i < |required| ==> required[i] in present
    ensures r.Some? ==> r.value !in present
    ensures r.Some? ==> exists i :: 0 <= i < |required| && required[i] == r.value && (forall j :: 0 <= j < i ==> required[j] in present)
  {
    if required == [] then None
    else if required[0] !in present then Some(required[0])
    else
      var r := FirstMissing(present, required[1..]);
      assert forall i :: 1 <= i < |required| ==> required[i] == required[1..][i - 1];
      r
  }

  /** `validate_required_fields(data, required)`, with `present` the keys of `data`. */
  method ValidateRequiredFields(present: set<string>, required: seq<string>) returns (r: Result<(), Error>)
    ensures r.Ok? <==> FirstMissing(present, required).None?
    ensures r.Err? ==> r.error == MissingField(FirstMissing(present, required).value)
  {
    var i := 0;
    while i < |required|
      invariant 0 <= i <= |required|
      invariant forall j :: 0 <= j < i ==> required[j] in present
      invariant FirstMissing(present, required) == FirstMissing(present, required[i..])
    {
      assert required[i..][0] == required[i] && required[i..][1..] == required[i + 1..];
      if required[i] !in present {
        return Err(MissingField(required[i]));
      }
      i := i + 1;
    }
    return Ok(());
  }

  // ---------------------------------------------------------------- has_time_conflict

  function EnrollmentCourse(e: Enrollment): string { e.courseId }

  function OfStudent(studentId: string): Enrollment -> bool { (e: Enrollment) => e.studentId == studentId }

  /** `enrolled_ids`: the course ids of the student's enrollments, in store order. */
  function EnrolledCourseIds(enrollments: seq<Enrollment>, studentId: string): (ids: seq<string>)
    ensures forall id :: id in ids <==> IsEnrolled(enrollments, studentId, id)
  {
    var mine := Filter(enrollments, OfStudent(studentId));
    FilterMembership(enrollments, OfStudent(studentId));
    MapMembership(mine, EnrollmentCourse);
    Map(mine, EnrollmentCourse)
  }

  /** Some course carrying one of the student's enrolled ids conflicts with the candidate schedule. */
  predicate ScheduleClash(enrollments: seq<Enrollment>, courses: seq<Course>, studentId: string, candidate: Schedule)
  {
    exists c :: c in courses && IsEnrolled(enrollments, studentId, c.courseId) && Conflicts(c.schedule, candidate)
  }

  /** `has_time_conflict`: a student without enrollments never has a conflict. */
  lemma NoEnrollmentsNoClash(enrollments: seq<Enrollment>, courses: seq<Course>, studentId: string, candidate: Schedule)
    requires forall e :: e in enrollments ==> e.studentId != studentId
    ensures !ScheduleClash(enrollments, courses, studentId, candidate)
  {
  }

  /** `has_time_conflict(student_id, new_course)` on the new course's schedule. */
  method HasTimeConflict(db: Database, studentId: string, candidate: Schedule) returns (conflict: bool)
    ensures conflict == ScheduleClash(db.enrollments, db.courses, studentId, candidate)
  {
    var enrolledIds := EnrolledCourseIds(db.enrollments, studentId);
    if enrolledIds == [] {
      return false;
    }
    var i := 0;
    while i < |db.courses|
      invariant 0 <= i <= |db.courses|
      invariant forall k :: 0 <= k < i ==>
        !(db.courses[k].courseId in enrolledIds && Conflicts(db.courses[k].schedule, candidate))
    {
      var course := db.courses[i];
      if course.courseId in enrolledIds {
        var s1, e1 := course.schedule.startTime, course.schedule.endTime;
        var s2, e2 := candidate.startTime, candidate.endTime;
        if SharesDay(course.schedule.days, candidate.days) {
          if LexLess(s1, e2) && LexLess(s2, e1) {
            return true;
          }
        }
      }
      i := i + 1;
    }
    return false;
  }

  // ---------------------------------------------------------------- create_course

  /** The course fields a request may carry; each may be absent. */
  datatype CourseFields = CourseFields(
    courseName: Option<string>, section: Option<string>, schedule: Option<Schedule>,
    room: Option<string>, instructorName: Option<string>, count: Option<int>)

  const NoFields := CourseFields(None, None, None, None, None, None)

  /**
   * `courseData`: `course_id` and the course fields. In the nested revision the
   * fields are the `details` sub-document, which may itself be absent; in the flat
   * revision they are the document's own top-level fields (`None` = none of them).
   */
  datatype CourseRequest = CourseRequest(courseId: Option<string>, details: Option<CourseFields>)

  /** The counter's key: `registered_students_count` (nested) or `registered_student_count` (flat). */
  function CounterKey(rev: Revision): string
  {
    if rev == Nested then "registered_students_count" else "registered_student_count"
  }

  function FieldKeys(rev: Revision, f: CourseFields): set<string>
  {
    (if f.courseName.Some? then {"course_name"} else {})
    + (if f.section.Some? then {"section"} else {})
    + (if f.schedule.Some? then {"schedule"} else {})
    + (if f.room.Some? then {"room"} else {})
    + (if f.instructorName.Some? then {"instructor_name"} else {})
    + (if f.count.Some? then {CounterKey(rev)} else {})
  }

  /** The keys `validate_required_fields` is given: of `details` (nested) or of the document (flat). */
  function RequestKeys(rev: Revision, req: CourseRequest): set<string>
  {
    FieldKeys(rev, req.details.GetOr(NoFields))
    + (if rev == Flat && req.courseId.Some? then {"course_id"} else {})
  }

  function RequiredCourseFields(rev: Revision): seq<string>
  {
    if rev == Nested then
      ["course_name", "section", "schedule", "room", "instructor_name", "registered_students_count"]
    else
      ["course_id", "course_name", "section", "schedule", "room", "instructor_name", "registered_student_count"]
  }

  /** A key of the course fields is present only when its field is. */
  lemma FieldKeysPresent(rev: Revision, f: CourseFields)
    ensures "course_name" in FieldKeys(rev, f) ==> f.courseName.Some?
    ensures "section" in FieldKeys(rev, f) ==> f.section.Some?
    ensures "schedule" in FieldKeys(rev, f) ==> f.schedule.Some?
    ensures "room" in FieldKeys(rev, f) ==> f.room.Some?
    ensures "instructor_name" in FieldKeys(rev, f) ==> f.instructorName.Some?
    ensures CounterKey(rev) in FieldKeys(rev, f) ==> f.count.Some?
  {
  }

  /** Passing the required-field check means every course field is there. */
  lemma AllFieldsPresent(rev: Revision, req: CourseRequest)
    requires FirstMissing(RequestKeys(rev, req), RequiredCourseFields(rev)).None?
    ensures var f := req.details.GetOr(NoFields);
      f.courseName.Some? && f.section.Some? && f.schedule.Some? && f.room.Some?
      && f.instructorName.Some? && f.count.Some? && (rev == Flat ==> req.courseId.Some?)
  {
    var keys, req' := RequestKeys(rev, req), RequiredCourseFields(rev);
    var f := req.details.GetOr(NoFields);
    var fk := FieldKeys(rev, f);
    FieldKeysPresent(rev, f);
    var o := if rev == Nested then 0 else 1;
    assert forall k :: k in keys && k != "course_id" ==> k in fk;
    assert req'[o] == "course_name" && req'[o] in keys;
    assert req'[o + 1] == "section" && req'[o + 1] in keys;
    assert req'[o + 2] == "schedule" && req'[o + 2] in keys;
    assert req'[o + 3] == "room" && req'[o + 3] in keys;
    assert req'[o + 4] == "instructor_name" && req'[o + 4] in keys;
    assert req'[o + 5] == CounterKey(rev) && req'[o + 5] in keys;
    if rev == Flat {
      assert req'[0] == "course_id" && req'[0] in keys;
    }
  }

  /** What `create_course` does on the given tables: the course it inserts, or the error it raises. */
  function CreateCourseOutcome(rev: Revision, courses: seq<Course>, rooms: seq<Room>, instructors: seq<Instructor>,
                               req: CourseRequest, cId: string): Result<Course, Error>
  {
    if rev == Nested && req.details.None? then Err(KeyError("details"))
    else
      var f := req.details.GetOr(NoFields);
      var missing := FirstMissing(RequestKeys(rev, req), RequiredCourseFields(rev));
      if missing.Some? then Err(MissingField(missing.value))
      else if req.courseId.None? then Err(KeyError("course_id"))
      else
        AllFieldsPresent(rev, req);
        var c := Course(req.courseId.value, f.courseName.value, f.section.value, f.schedule.value,
                        f.room.value, f.instructorName.value, Some(f.count.value), cId);
        if SectionTaken(courses, c.courseId, c.section) then Err(DuplicateCourse(c.courseId, c.section))
        else if c.room !in AvailableRoomIds(rooms, courses, c.schedule) then Err(RoomUnavailable(c.room))
        else if c.instructorName !in AvailableInstructorNames(instructors, courses, c.schedule) then Err(InstructorBusy(c.instructorName))
        else Ok(c)
  }

  /** The gates fail in order: a missing field is reported whatever the tables hold. */
  lemma CreateCourseMissingFieldFirst(rev: Revision, courses: seq<Course>, rooms: seq<Room>, instructors: seq<Instructor>,
                                      req: CourseRequest, cId: string, k: string)
    requires rev == Flat || req.details.Some?
    requires FirstMissing(RequestKeys(rev, req), RequiredCourseFields(rev)) == Some(k)
    ensures CreateCourseOutcome(rev, courses, rooms, instructors, req, cId) == Err(MissingField(k))
    ensures k in RequiredCourseFields(rev) && k !in RequestKeys(rev, req)
  {
  }

  /** The request has passed the `details` lookup and the required-field check. */
  predicate PassesFieldCheck(rev: Revision, req: CourseRequest)
  {
    (rev == Flat || req.details.Some?) && FirstMissing(RequestKeys(rev, req), RequiredCourseFields(rev)).None?
  }

  /** The request-only gates come first, in the order `details`, the field check, `course_id`. */
  lemma CreateCourseRequestGates(rev: Revision, courses: seq<Course>, rooms: seq<Room>, instructors: seq<Instructor>,
                                 req: CourseRequest, cId: string)
    ensures var o := CreateCourseOutcome(rev, courses, rooms, instructors, req, cId);
      && (rev == Nested && req.details.None? ==> o == Err(KeyError("details")))
      && (PassesFieldCheck(rev, req) && req.courseId.None? ==> o == Err(KeyError("course_id")))
      && (o.Ok? ==> PassesFieldCheck(rev, req) && req.courseId.Some?)
  {
  }

  /**
   * Once the request is complete the table gates follow in order: a taken
   * `(course_id, section)`, then an unavailable room, then a busy instructor.
   */
  lemma {:induction false} CreateCourseTableGates(rev: Revision, courses: seq<Course>, rooms: seq<Room>,
                                                  instructors: seq<Instructor>, req: CourseRequest, cId: string,
                                                  section: string, schedule: Schedule, room: string, instructor: string)
    requires PassesFieldCheck(rev, req) && req.courseId.Some?
    requires var f := req.details.GetOr(NoFields);
      f.section == Some(section) && f.schedule == Some(schedule) && f.room == Some(room) && f.instructorName == Some(instructor)
    ensures var o := CreateCourseOutcome(rev, courses, rooms, instructors, req, cId);
      var id := req.courseId.value;
      var taken := SectionTaken(courses, id, section);
      var roomFree := room in AvailableRoomIds(rooms, courses, schedule);
      var instructorFree := instructor in AvailableInstructorNames(instructors, courses, schedule);
      && (o == Err(DuplicateCourse(id, section)) <==> taken)
      && (o == Err(RoomUnavailable(room)) <==> !taken && !roomFree)
      && (o == Err(InstructorBusy(instructor)) <==> !taken && roomFree && !instructorFree)
      && (o.Ok? <==> !taken && roomFree && instructorFree)
  {
    AllFieldsPresent(rev, req);
  }

  /**
   * A created course: has every field from the request, is the only course with its
   * `(course_id, section)`, uses a catalog room and instructor name, and shares neither
   * with a course that passes the day query for its schedule and overlaps it.
   */
  lemma {:induction false} CreatedCourseFits(rev: Revision, courses: seq<Course>, rooms: seq<Room>,
                                             instructors: seq<Instructor>, req: CourseRequest, cId: string)
    requires CreateCourseOutcome(rev, courses, rooms, instructors, req, cId).Ok?
    ensures var c := CreateCourseOutcome(rev, courses, rooms, instructors, req, cId).value;
      && Some(c.courseId) == req.courseId && c.cId == cId
      && !SectionTaken(courses, c.courseId, c.section)
      && (exists r :: r in rooms && r.room == c.room)
      && (exists i :: i in instructors && i.fullName == c.instructorName)
      && (forall x :: x in courses && Occupies(x, c.schedule) ==> x.room != c.room && x.instructorName != c.instructorName)
  {
    var c := CreateCourseOutcome(rev, courses, rooms, instructors, req, cId).value;
    RoomIdOffered(rooms, courses, c.schedule, c.room);
    InstructorNameOffered(instructors, courses, c.schedule, c.instructorName);
  }

  /** Success keeps the unique index on `(course_id, section)` satisfied. */
  lemma {:induction false} CreateCourseKeepsSectionsUnique(rev: Revision, courses: seq<Course>, rooms: seq<Room>,
                                                           instructors: seq<Instructor>, req: CourseRequest, cId: string)
    requires UniqueSections(courses)
    requires CreateCourseOutcome(rev, courses, rooms, instructors, req, cId).Ok?
    ensures UniqueSections(courses + [CreateCourseOutcome(rev, courses, rooms, instructors, req, cId).value])
  {
    var c := CreateCourseOutcome(rev, courses, rooms, instructors, req, cId).value;
    var all := courses + [c];
    forall i, j | 0 <= i < j < |all|
      ensures !(all[i].courseId == all[j].courseId && all[i].section == all[j].section)
    {
      if j == |courses| {
        assert all[i] in courses;
      }
    }
  }

  /** `create_course(courseData)`: the ordered gates, then one insert. */
  method CreateCourse(db: Database, rev: Revision, req: CourseRequest, cId: string) returns (r: Result<Course, Error>)
    modifies db`courses
    ensures r == CreateCourseOutcome(rev, old(db.courses), db.rooms, db.instructors, req, cId)
    ensures db.courses == if r.Ok? then old(db.courses) + [r.value] else old(db.courses)
  {
    if rev == Nested && req.details.None? {
      return Err(KeyError("details"));
    }
    var fields := req.details.GetOr(NoFields);
    var checked := ValidateRequiredFields(RequestKeys(rev, req), RequiredCourseFields(rev));
    if checked.Err? {
      return Err(checked.error);
    }
    if req.courseId.None? {
      return Err(KeyError("course_id"));
    }
    AllFieldsPresent(rev, req);
    var courseId, section := req.courseId.value, fields.section.value;
    if SectionTaken(db.courses, courseId, section) {
      return Err(DuplicateCourse(courseId, section));
    }
    var schedule, room := fields.schedule.value, fields.room.value;
    var roomFree: bool;
    if rev == Nested {
      var availableRooms := GetAvailableRooms(db, schedule);
      RoomIdsAgree(db.rooms, db.courses, schedule);
      roomFree := room in Map(availableRooms, RoomId);
    } else {
      var availableRooms := GetAvailableRoomIds(db, schedule);
      roomFree := room in availableRooms;
    }
    if !roomFree {
      return Err(RoomUnavailable(room));
    }
    var instructor := fields.instructorName.value;
    var instructorFree: bool;
    if rev == Nested {
      var availableInstructors := GetAvailableInstructors(db, schedule);
      InstructorNamesAgree(db.instructors, db.courses, schedule);
      instructorFree := instructor in Map(availableInstructors, RefName);
    } else {
      var availableInstructors := GetAvailableInstructorNames(db, schedule);
      instructorFree := instructor in availableInstructors;
    }
    if !instructorFree {
      return Err(InstructorBusy(instructor));
    }
    var course := Course(courseId, fields.courseName.value, section, schedule, room, instructor, Some(fields.count.value), cId);
    db.courses := db.courses + [course];
    return Ok(course);
  }

  // ---------------------------------------------------------------- enroll_in_course

  /** What `enroll_in_course` decides on the given tables: the course it admits to, or the error it raises. */
  function EnrollOutcome(rev: Revision, students: seq<Student>, courses: seq<Course>, enrollments: seq<Enrollment>,
                         rooms: seq<Room>, studentId: string, courseId: string): Result<Course, Error>
  {
    if !HasStudent(students, studentId) then Err(StudentNotFound(studentId))
    else match FindCourse(courses, courseId)
      case None => Err(CourseNotFound(courseId))
      case Some(course) =>
        if IsEnrolled(enrollments, studentId, courseId) then Err(AlreadyEnrolled)
        else if rev == Nested && course.count.None? then Err(KeyError(CounterKey(Nested)))
        else if FindRoom(rooms, course.room).Some? && CountOf(course) >= CapacityOf(FindRoom(rooms, course.room).value)
        then Err(CourseFull(CapacityOf(FindRoom(rooms, course.room).value)))
        else if ScheduleClash(enrollments, courses, studentId, course.schedule) then Err(ScheduleConflict)
        else Ok(course)
  }

  /** The student, the course and the duplicate test have all passed, and (nested) the counter is there. */
  predicate PassesLookups(rev: Revision, students: seq<Student>, courses: seq<Course>, enrollments: seq<Enrollment>,
                          studentId: string, courseId: string)
  {
    HasStudent(students, studentId) && FindCourse(courses, courseId).Some?
    && !IsEnrolled(enrollments, studentId, courseId)
    && (rev == Flat || FindCourse(courses, courseId).value.count.Some?)
  }

  /** The room record exists and the course's counter has reached its capacity. */
  predicate IsFull(courses: seq<Course>, rooms: seq<Room>, courseId: string)
    requires FindCourse(courses, courseId).Some?
  {
    var c := FindCourse(courses, courseId).value;
    FindRoom(rooms, c.room).Some? && CountOf(c) >= CapacityOf(FindRoom(rooms, c.room).value)
  }

  /** Admission reaches a verdict through the five gates in their fixed order. */
  lemma EnrollGateOrder(rev: Revision, students: seq<Student>, courses: seq<Course>, enrollments: seq<Enrollment>,
                        rooms: seq<Room>, studentId: string, courseId: string)
    ensures var o := EnrollOutcome(rev, students, courses, enrollments, rooms, studentId, courseId);
      && (o == Err(StudentNotFound(studentId)) <==> !HasStudent(students, studentId))
      && (o == Err(CourseNotFound(courseId)) <==> HasStudent(students, studentId) && FindCourse(courses, courseId).None?)
      && (o == Err(AlreadyEnrolled) <==>
            HasStudent(students, studentId) && FindCourse(courses, courseId).Some? && IsEnrolled(enrollments, studentId, courseId))
      && (rev == Nested && HasStudent(students, studentId) && FindCourse(courses, courseId).Some?
          && !IsEnrolled(enrollments, studentId, courseId) && FindCourse(courses, courseId).value.count.None?
          ==> o == Err(KeyError(CounterKey(Nested))))
      && (o.Err? && o.error.CourseFull? <==>
            PassesLookups(rev, students, courses, enrollments, studentId, courseId) && IsFull(courses, rooms, courseId))
      && (PassesLookups(rev, students, courses, enrollments, studentId, courseId) && IsFull(courses, rooms, courseId) ==>
            o == Err(CourseFull(CapacityOf(FindRoom(rooms, FindCourse(courses, courseId).value.room).value))))
      && (o == Err(ScheduleConflict) <==>
            PassesLookups(rev, students, courses, enrollments, studentId, courseId) && !IsFull(courses, rooms, courseId)
            && ScheduleClash(enrollments, courses, studentId, FindCourse(courses, courseId).value.schedule))
      && (o.Ok? <==>
            PassesLookups(rev, students, courses, enrollments, studentId, courseId) && !IsFull(courses, rooms, courseId)
            && !ScheduleClash(enrollments, courses, studentId, FindCourse(courses, courseId).value.schedule))
      && (o.Ok? ==> o.value == FindCourse(courses, courseId).value)
  {
  }

  /** The capacity test: a course whose room record exists is admitted to only below the room's capacity. */
  lemma EnrollBelowCapacity(rev: Revision, students: seq<Student>, courses: seq<Course>, enrollments: seq<Enrollment>,
                            rooms: seq<Room>, studentId: string, courseId: string)
    requires EnrollOutcome(rev, students, courses, enrollments, rooms, studentId, courseId).Ok?
    ensures var c := EnrollOutcome(rev, students, courses, enrollments, rooms, studentId, courseId).value;
      FindRoom(rooms, c.room).Some? ==> CountOf(Bump(c)) <= CapacityOf(FindRoom(rooms, c.room).value)
  {
  }

  /** After an admission the counter update finds the admitted course, one higher. */
  lemma {:induction false} IncrementFindsAdmitted(courses: seq<Course>, courseId: string)
    requires FindCourse(courses, courseId).Some?
    ensures FindCourse(IncrementCount(courses, courseId), courseId) == Some(Bump(FindCourse(courses, courseId).value))
  {
    var k := FirstCourseIndex(courses, courseId).value;
    var after := IncrementCount(courses, courseId);
    assert after[k] == Bump(courses[k]);
    var m := FirstCourseIndex(after, courseId);
    assert m.Some?;
    assert m.value <= k;
    assert m.value == k;
    assert FindCourse(courses, courseId) == Some(courses[k]);
    assert FindCourse(after, courseId) == Some(after[k]);
  }

  /** Raising one course's counter keeps every course within capacity when the raised counter still fits. */
  lemma {:induction false} IncrementKeepsCapacity(courses: seq<Course>, rooms: seq<Room>, courseId: string)
    requires WithinCapacity(courses, rooms)
    requires FindCourse(courses, courseId).Some?
    requires var c := FindCourse(courses, courseId).value;
      FindRoom(rooms, c.room).Some? ==> CountOf(Bump(c)) <= CapacityOf(FindRoom(rooms, c.room).value)
    ensures WithinCapacity(IncrementCount(courses, courseId), rooms)
  {
    var k := FirstCourseIndex(courses, courseId).value;
    var after := IncrementCount(courses, courseId);
    forall c | c in after && FindRoom(rooms, c.room).Some?
      ensures CountOf(c) <= CapacityOf(FindRoom(rooms, c.room).value)
    {
      var i :| 0 <= i < |after| && after[i] == c;
      if i != k {
        assert c == courses[i] && courses[i] in courses;
      } else {
        assert c == Bump(FindCourse(courses, courseId).value);
      }
    }
  }

  /** Admission keeps every course within its room's capacity. */
  lemma {:induction false} EnrollKeepsCapacity(rev: Revision, students: seq<Student>, courses: seq<Course>,
                                               enrollments: seq<Enrollment>, rooms: seq<Room>, studentId: string, courseId: string)
    requires WithinCapacity(courses, rooms)
    requires EnrollOutcome(rev, students, courses, enrollments, rooms, studentId, courseId).Ok?
    ensures WithinCapacity(IncrementCount(courses, courseId), rooms)
  {
    EnrollBelowCapacity(rev, students, courses, enrollments, rooms, studentId, courseId);
    IncrementKeepsCapacity(courses, rooms, courseId);
  }

  /** Admission keeps the `(course_id, section)` pairs unique: it changes no id or section. */
  lemma {:induction false} IncrementKeepsSectionsUnique(courses: seq<Course>, courseId: string)
    requires UniqueSections(courses)
    ensures UniqueSections(IncrementCount(courses, courseId))
  {
    var after := IncrementCount(courses, courseId);
    forall i | 0 <= i < |after|
      ensures after[i].courseId == courses[i].courseId && after[i].section == courses[i].section
    {
    }
  }

  /** Enrolling the same student in the same course again is rejected as a duplicate. */
  lemma {:induction false} SecondEnrollRejected(rev: Revision, students: seq<Student>, courses: seq<Course>,
                                                enrollments: seq<Enrollment>, rooms: seq<Room>,
                                                studentId: string, courseId: string, eId: string)
    requires EnrollOutcome(rev, students, courses, enrollments, rooms, studentId, courseId).Ok?
    ensures EnrollOutcome(rev, students, IncrementCount(courses, courseId),
                          enrollments + [Enrollment(eId, studentId, courseId, UngradedMark)],
                          rooms, studentId, courseId) == Err(AlreadyEnrolled)
  {
    IncrementFindsAdmitted(courses, courseId);
    var added := Enrollment(eId, studentId, courseId, UngradedMark);
    assert added in enrollments + [added];
  }

  /** `enroll_in_course(studentID, courseID)`: five gates, then the enrollment insert and the counter `$inc`. */
  method EnrollInCourse(db: Database, rev: Revision, studentId: string, courseId: string, eId: string)
    returns (r: Result<(), Error>)
    modifies db`enrollments, db`courses
    ensures var o := EnrollOutcome(rev, db.students, old(db.courses), old(db.enrollments), db.rooms, studentId, courseId);
      r == if o.Ok? then Ok(()) else Err(o.error)
    ensures r.Ok? ==> db.enrollments == old(db.enrollments) + [Enrollment(eId, studentId, courseId, UngradedMark)]
    ensures r.Ok? ==> db.courses == IncrementCount(old(db.courses), courseId)
    ensures r.Err? ==> db.enrollments == old(db.enrollments) && db.courses == old(db.courses)
  {
    if !HasStudent(db.students, studentId) {
      return Err(StudentNotFound(studentId));
    }
    var found := FindCourse(db.courses, courseId);
    if found.None? {
      return Err(CourseNotFound(courseId));
    }
    var course := found.value;
    if IsEnrolled(db.enrollments, studentId, courseId) {
      return Err(AlreadyEnrolled);
    }
    var room := course.room;
    if rev == Nested && course.count.None? {
      return Err(KeyError(CounterKey(Nested)));
    }
    var currentCount := CountOf(course);
    var roomDoc := FindRoom(db.rooms, room);
    if roomDoc.Some? {
      var maxCapacity := CapacityOf(roomDoc.value);
      if currentCount >= maxCapacity {
        return Err(CourseFull(maxCapacity));
      }
    }
    var conflict := HasTimeConflict(db, studentId, course.schedule);
    if conflict {
      return Err(ScheduleConflict);
    }
    db.enrollments := db.enrollments + [Enrollment(eId, studentId, courseId, UngradedMark)];
    db.courses := IncrementCount(db.courses, courseId);
    return Ok(());
  }
}
