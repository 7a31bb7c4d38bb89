/**
 * The MongoDB database the services share, as in-memory tables: each
 * collection is a sequence of records in natural (insertion) order.
 * `find_one`, `update_one` and `delete_one` act on the first matching record.
 */
module Store {
  import opened Wrappers
  import opened Schedules

  /**
   * The two revisions of the information service: `Nested` keeps a course's
   * fields under `details` (services/student_information_service.py),
   * `Flat` keeps them at the top level and spells the counter
   * `registered_student_count` (student_information_service.py).
   */
  datatype Revision = Nested | Flat

  /** The exceptions the services raise: ValueErrors with their messages' cases, and KeyErrors. */
  datatype Error =
    | MissingField(field: string)
    | KeyError(key: string)
    | DuplicateCourse(courseId: string, section: string)
    | DuplicateStudent(studentId: string)
    | DuplicateInstructor(instructorId: string)
    | RoomUnavailable(room: string)
    | InstructorBusy(instructorName: string)
    | StudentNotFound(studentId: string)
    | CourseNotFound(courseId: string)
    | AlreadyEnrolled
    | CourseFull(capacity: int)
    | ScheduleConflict
    | NoStudentProfile(userId: string)
    | NoInstructorProfile(userId: string)
    | InvalidRole
    | UserExists

  /** A room record; `capacity` may be absent. */
  datatype Room = Room(room: string, capacity: Option<int>)

  datatype Student = Student(studentId: string, fullName: string, sId: string)

  datatype Instructor = Instructor(instructorId: string, fullName: string, iId: string)

  /** An account; `passwordHash` is the bcrypt hash, an opaque string here. */
  datatype User = User(uId: string, userId: string, passwordHash: string, role: string)

  /** A course document; `count` is the registered-students counter, which a document may lack. */
  datatype Course = Course(
    courseId: string, courseName: string, section: string, schedule: Schedule,
    room: string, instructorName: string, count: Option<int>, cId: string)

  datatype Enrollment = Enrollment(eId: string, studentId: string, courseId: string, grade: string)

  /** One element of an assignment's `grades` (value = grade) or `answer_text` (value = text) list. */
  datatype Entry = Entry(studentId: string, value: string)

  datatype Assignment = Assignment(
    courseId: string, assignmentId: string, title: string, description: string,
    deadline: string, maxGrade: string, grades: seq<Entry>, answers: seq<Entry>)

  /** Capacity assumed for a room record without one. */
  const DefaultCapacity: int := 20

  /** Grade stored in a new enrollment. */
  const UngradedMark: string := "00"

  class Database {
    var users: seq<User>
    var students: seq<Student>
    var instructors: seq<Instructor>
    var courses: seq<Course>
    var enrollments: seq<Enrollment>
    var assignments: seq<Assignment>
    var rooms: seq<Room>

    constructor (rooms: seq<Room>)
      ensures this.rooms == rooms
      ensures users == [] && students == [] && instructors == [] && courses == []
      ensures enrollments == [] && assignments == []
    {
      this.rooms := rooms;
      users, students, instructors, courses := [], [], [], [];
      enrollments, assignments := [], [];
    }
  }

  predicate HasStudent(students: seq<Student>, studentId: string)
  {
    exists s :: s in students && s.studentId == studentId
  }

  predicate HasInstructor(instructors: seq<Instructor>, instructorId: string)
  {
    exists i :: i in instructors && i.instructorId == instructorId
  }

  predicate HasUser(users: seq<User>, userId: string)
  {
    exists u :: u in users && u.userId == userId
  }

  predicate IsEnrolled(enrollments: seq<Enrollment>, studentId: string, courseId: string)
  {
    exists e :: e in enrollments && e.studentId == studentId && e.courseId == courseId
  }

  /** Some course already has this `(course_id, section)` pair. */
  predicate SectionTaken(courses: seq<Course>, courseId: string, section: string)
  {
    exists c :: c in courses && c.courseId == courseId && c.section == section
  }

  /** The unique index on `(course_id, details.section)`. */
  predicate UniqueSections(courses: seq<Course>)
  {
    forall i, j :: 0 <= i < j < |courses| ==>
      !(courses[i].courseId == courses[j].courseId && courses[i].section == courses[j].section)
  }

  /** Position of the course `find_one({"course_id": id})` returns. */
  function FirstCourseIndex(courses: seq<Course>, courseId: string): (r: Option<nat>)
    ensures r.None? <==> forall i :: 0 <= i < |courses| ==> courses[i].courseId != courseId
    ensures r.Some? ==> r.value < |courses| && courses[r.value].courseId == courseId
    ensures r.Some? ==> forall i :: 0 <= i < r.value ==> courses[i].courseId != courseId
  {
    if courses == [] then None
    else if courses[0].courseId == courseId then Some(0)
    else match FirstCourseIndex(courses[1..], courseId)
      case None => None
      case Some(k) => Some(k + 1)
  }

  function FindCourse(courses: seq<Course>, courseId: string): (r: Option<Course>)
    ensures r.None? <==> forall c :: c in courses ==> c.courseId != courseId
    ensures r.Some? ==> r.value in courses && r.value.courseId == courseId
    ensures r.Some? ==> r == Some(courses[FirstCourseIndex(courses, courseId).value])
  {
    match FirstCourseIndex(courses, courseId)
    case None => None
    case Some(k) => Some(courses[k])
  }

  /** The counter as `enroll_in_course` reads it in the flat revision, `get(..., 0)`. */
  function CountOf(c: Course): int
  {
    c.count.GetOr(0)
  }

  /** The course after `$inc` of its counter by one (a missing counter becomes 1). */
  function Bump(c: Course): (r: Course)
    ensures CountOf(r) == CountOf(c) + 1
    ensures r.(count := c.count) == c
  {
    c.(count := Some(CountOf(c) + 1))
  }

  /** `update_one({"course_id": id}, {"$inc": ...})`: the first course with that id is bumped. */
  function IncrementCount(courses: seq<Course>, courseId: string): (r: seq<Course>)
    ensures |r| == |courses|
    ensures forall i :: 0 <= i < |courses| ==>
      r[i] == if FirstCourseIndex(courses, courseId) == Some(i) then Bump(courses[i]) else courses[i]
  {
    if courses == [] then []
    else if courses[0].courseId == courseId then [Bump(courses[0])] + courses[1..]
    else
      var rest := IncrementCount(courses[1..], courseId);
      assert forall i :: 1 <= i < |courses| ==>
        (FirstCourseIndex(courses, courseId) == Some(i) <==> FirstCourseIndex(courses[1..], courseId) == Some(i - 1));
      [courses[0]] + rest
  }

  /** `rooms_col.find_one({"room": id})`: the first room record with the id. */
  function FindRoom(rooms: seq<Room>, id: string): (r: Option<Room>)
    ensures r.None? <==> forall x :: x in rooms ==> x.room != id
    ensures r.Some? ==> r.value in rooms && r.value.room == id
    ensures r.Some? ==> exists i :: (0 <= i < |rooms| && rooms[i] == r.value
                                     && forall j :: 0 <= j < i ==> rooms[j].room != id)
  {
    if rooms == [] then None
    else if rooms[0].room == id then Some(rooms[0])
    else
      var r := FindRoom(rooms[1..], id);
      assert forall i :: 1 <= i < |rooms| ==> rooms[i] == rooms[1..][i - 1];
      r
  }

  /** `room_doc.get("capacity", 20)`. */
  function CapacityOf(r: Room): int
  {
    r.capacity.GetOr(DefaultCapacity)
  }

  /** Every course whose room record exists has no more students than the room holds. */
  predicate WithinCapacity(courses: seq<Course>, rooms: seq<Room>)
  {
    forall c :: c in courses && FindRoom(rooms, c.room).Some? ==> CountOf(c) <= CapacityOf(FindRoom(rooms, c.room).value)
  }
}
