/**
 * Profile and account creation: `create_student`, `create_instructor`,
 * `create_user`, and the two-step `register_student` / `register_instructor`
 * that delete the new profile again when the account cannot be created.
 * Generated ids (`generate_id`) and the bcrypt hash are parameters.
 */
module Registration {
  import opened Wrappers
  import opened Store
  import opened Admission

  datatype StudentRequest = StudentRequest(studentId: Option<string>, fullName: Option<string>)

  datatype InstructorRequest = InstructorRequest(instructorId: Option<string>, fullName: Option<string>)

  datatype UserRequest = UserRequest(userId: Option<string>, password: Option<string>, role: Option<string>)

  function StudentKeys(req: StudentRequest): set<string>
  {
    (if req.studentId.Some? then {"student_id"} else {}) + (if req.fullName.Some? then {"full_name"} else {})
  }

  function InstructorKeys(req: InstructorRequest): set<string>
  {
    (if req.instructorId.Some? then {"instructor_id"} else {}) + (if req.fullName.Some? then {"full_name"} else {})
  }

  function UserKeys(req: UserRequest): set<string>
  {
    (if req.userId.Some? then {"user_id"} else {})
    + (if req.password.Some? then {"password"} else {})
    + (if req.role.Some? then {"role"} else {})
  }

  const StudentFields: seq<string> := ["student_id", "full_name"]
  const InstructorFields: seq<string> := ["instructor_id", "full_name"]
  const UserFields: seq<string> := ["user_id", "password", "role"]

  /** What `create_student` does: the profile it inserts, or the error it raises. */
  function CreateStudentOutcome(students: seq<Student>, req: StudentRequest, sId: string): Result<Student, Error>
  {
    var missing := FirstMissing(StudentKeys(req), StudentFields);
    if missing.Some? then Err(MissingField(missing.value))
    else
      assert StudentFields[0] in StudentKeys(req) && StudentFields[1] in StudentKeys(req);
      if HasStudent(students, req.studentId.value) then Err(DuplicateStudent(req.studentId.value))
      else Ok(Student(req.studentId.value, req.fullName.value, sId))
  }

  /** What `create_instructor` does: the profile it inserts, or the error it raises. */
  function CreateInstructorOutcome(instructors: seq<Instructor>, req: InstructorRequest, iId: string): Result<Instructor, Error>
  {
    var missing := FirstMissing(InstructorKeys(req), InstructorFields);
    if missing.Some? then Err(MissingField(missing.value))
    else
      assert InstructorFields[0] in InstructorKeys(req) && InstructorFields[1] in InstructorKeys(req);
      if HasInstructor(instructors, req.instructorId.value) then Err(DuplicateInstructor(req.instructorId.value))
      else Ok(Instructor(req.instructorId.value, req.fullName.value, iId))
  }

  /** What `create_user` does: the account it inserts, or the error it raises. */
  function CreateUserOutcome(students: seq<Student>, instructors: seq<Instructor>, users: seq<User>,
                             req: UserRequest, uId: string, passwordHash: string): Result<User, Error>
  {
    var missing := FirstMissing(UserKeys(req), UserFields);
    if missing.Some? then Err(MissingField(missing.value))
    else
      assert UserFields[0] in UserKeys(req) && UserFields[2] in UserKeys(req);
      var role, target := req.role.value, req.userId.value;
      if role == "student" && !HasStudent(students, target) then Err(NoStudentProfile(target))
      else if role == "instructor" && !HasInstructor(instructors, target) then Err(NoInstructorProfile(target))
      else if role != "student" && role != "instructor" && role != "dean" then Err(InvalidRole)
      else if HasUser(users, target) then Err(UserExists)
      else Ok(User(uId, target, passwordHash, role))
  }

  /** `students_col.delete_one({"s_id": sId})`. */
  function RemoveFirstStudent(students: seq<Student>, sId: string): seq<Student>
  {
    if students == [] then []
    else if students[0].sId == sId then students[1..]
    else [students[0]] + RemoveFirstStudent(students[1..], sId)
  }

  /** `instructors_col.delete_one({"i_id": iId})`. */
  function RemoveFirstInstructor(instructors: seq<Instructor>, iId: string): seq<Instructor>
  {
    if instructors == [] then []
    else if instructors[0].iId == iId then instructors[1..]
    else [instructors[0]] + RemoveFirstInstructor(instructors[1..], iId)
  }

  /** Deleting by a fresh `s_id` removes exactly the profile just appended. */
  lemma {:induction false} RemoveStudentUndoesInsert(students: seq<Student>, s: Student)
    requires forall x :: x in students ==> x.sId != s.sId
    ensures RemoveFirstStudent(students + [s], s.sId) == students
  {
    if students != [] {
      assert (students + [s])[1..] == students[1..] + [s];
      RemoveStudentUndoesInsert(students[1..], s);
    }
  }

  /** Deleting by a fresh `i_id` removes exactly the profile just appended. */
  lemma {:induction false} RemoveInstructorUndoesInsert(instructors: seq<Instructor>, i: Instructor)
    requires forall x :: x in instructors ==> x.iId != i.iId
    ensures RemoveFirstInstructor(instructors + [i], i.iId) == instructors
  {
    if instructors != [] {
      assert (instructors + [i])[1..] == instructors[1..] + [i];
      RemoveInstructorUndoesInsert(instructors[1..], i);
    }
  }

  /** The account request `register_student` passes on: the flat revision forces `user_id` and `role`. */
  function StudentAccountRequest(rev: Revision, s: Student, req: UserRequest): UserRequest
  {
    if rev == Flat then req.(userId := Some(s.studentId), role := Some("student")) else req
  }

  /** The account request `register_instructor` passes on (both revisions force `user_id` and `role`). */
  function InstructorAccountRequest(i: Instructor, req: UserRequest): UserRequest
  {
    req.(userId := Some(i.instructorId), role := Some("instructor"))
  }

  /**
   * With `user_id` and `role` forced to the new profile, account creation can fail only for a
   * missing password or an existing account, and otherwise creates the account of that profile.
   */
  lemma {:induction false} ForcedStudentAccount(students: seq<Student>, instructors: seq<Instructor>, users: seq<User>,
                                                s: Student, req: UserRequest, uId: string, passwordHash: string)
    ensures CreateUserOutcome(students + [s], instructors, users, StudentAccountRequest(Flat, s, req), uId, passwordHash)
      == if req.password.None? then Err(MissingField("password"))
         else if HasUser(users, s.studentId) then Err(UserExists)
         else Ok(User(uId, s.studentId, passwordHash, "student"))
  {
    var req' := StudentAccountRequest(Flat, s, req);
    assert s in students + [s];
    assert UserKeys(req') == {"user_id", "role"} + (if req.password.Some? then {"password"} else {});
    if req.password.None? {
      assert UserFields[0] in UserKeys(req');
      assert FirstMissing(UserKeys(req'), UserFields[1..]) == Some("password");
    }
  }

  /** The instructor counterpart of `ForcedStudentAccount`. */
  lemma {:induction false} ForcedInstructorAccount(students: seq<Student>, instructors: seq<Instructor>, users: seq<User>,
                                                   i: Instructor, req: UserRequest, uId: string, passwordHash: string)
    ensures CreateUserOutcome(students, instructors + [i], users, InstructorAccountRequest(i, req), uId, passwordHash)
      == if req.password.None? then Err(MissingField("password"))
         else if HasUser(users, i.instructorId) then Err(UserExists)
         else Ok(User(uId, i.instructorId, passwordHash, "instructor"))
  {
    var req' := InstructorAccountRequest(i, req);
    assert i in instructors + [i];
    assert UserKeys(req') == {"user_id", "role"} + (if req.password.Some? then {"password"} else {});
    if req.password.None? {
      assert UserFields[0] in UserKeys(req');
      assert FirstMissing(UserKeys(req'), UserFields[1..]) == Some("password");
    }
  }

  /** `create_student(studentData)`. */
  method CreateStudent(db: Database, req: StudentRequest, sId: string) returns (r: Result<Student, Error>)
    modifies db`students
    ensures r == CreateStudentOutcome(old(db.students), req, sId)
    ensures db.students == if r.Ok? then old(db.students) + [r.value] else old(db.students)
  {
    var checked := ValidateRequiredFields(StudentKeys(req), StudentFields);
    if checked.Err? {
      return Err(checked.error);
    }
    assert StudentFields[0] in StudentKeys(req) && StudentFields[1] in StudentKeys(req);
    if HasStudent(db.students, req.studentId.value) {
      return Err(DuplicateStudent(req.studentId.value));
    }
    var student := Student(req.studentId.value, req.fullName.value, sId);
    db.students := db.students + [student];
    return Ok(student);
  }

  /** `create_instructor(instructorData)`. */
  method CreateInstructor(db: Database, req: InstructorRequest, iId: string) returns (r: Result<Instructor, Error>)
    modifies db`instructors
    ensures r == CreateInstructorOutcome(old(db.instructors), req, iId)
    ensures db.instructors == if r.Ok? then old(db.instructors) + [r.value] else old(db.instructors)
  {
    var checked := ValidateRequiredFields(InstructorKeys(req), InstructorFields);
    if checked.Err? {
      return Err(checked.error);
    }
    assert InstructorFields[0] in InstructorKeys(req) && InstructorFields[1] in InstructorKeys(req);
    if HasInstructor(db.instructors, req.instructorId.value) {
      return Err(DuplicateInstructor(req.instructorId.value));
    }
    var instructor := Instructor(req.instructorId.value, req.fullName.value, iId);
    db.instructors := db.instructors + [instructor];
    return Ok(instructor);
  }

  /** `create_user(userData)`. */
  method CreateUser(db: Database, req: UserRequest, uId: string, passwordHash: string) returns (r: Result<User, Error>)
    modifies db`users
    ensures r == CreateUserOutcome(db.students, db.instructors, old(db.users), req, uId, passwordHash)
    ensures db.users == if r.Ok? then old(db.users) + [r.value] else old(db.users)
  {
    var checked := ValidateRequiredFields(UserKeys(req), UserFields);
    if checked.Err? {
      return Err(checked.error);
    }
    assert UserFields[0] in UserKeys(req) && UserFields[2] in UserKeys(req);
    var targetRole, targetId := req.role.value, req.userId.value;
    if targetRole == "student" {
      if !HasStudent(db.students, targetId) {
        return Err(NoStudentProfile(targetId));
      }
    } else if targetRole == "instructor" {
      if !HasInstructor(db.instructors, targetId) {
        return Err(NoInstructorProfile(targetId));
      }
    } else if targetRole == "dean" {
    } else {
      return Err(InvalidRole);
    }
    if HasUser(db.users, targetId) {
      return Err(UserExists);
    }
    var user := User(uId, targetId, passwordHash, targetRole);
    db.users := db.users + [user];
    return Ok(user);
  }

  /** `register_student(studentData, userData)`: profile, then account; on an account error the profile is deleted. */
  method RegisterStudent(db: Database, rev: Revision, sreq: StudentRequest, ureq: UserRequest,
                         sId: string, uId: string, passwordHash: string) returns (r: Result<(), Error>)
    modifies db`students, db`users
    ensures var s := CreateStudentOutcome(old(db.students), sreq, sId);
      s.Err? ==> r == Err(s.error) && db.students == old(db.students) && db.users == old(db.users)
    ensures var s := CreateStudentOutcome(old(db.students), sreq, sId);
      s.Ok? ==>
        var u := CreateUserOutcome(old(db.students) + [s.value], db.instructors, old(db.users),
                                   StudentAccountRequest(rev, s.value, ureq), uId, passwordHash);
        if u.Ok? then r == Ok(()) && db.students == old(db.students) + [s.value] && db.users == old(db.users) + [u.value]
        else (r == Err(u.error) && db.users == old(db.users)
              && db.students == RemoveFirstStudent(old(db.students) + [s.value], sId))
    ensures r.Err? && (forall x :: x in old(db.students) ==> x.sId != sId) ==>
      db.students == old(db.students) && db.users == old(db.users)
  {
    var created := CreateStudent(db, sreq, sId);
    if created.Err? {
      return Err(created.error);
    }
    var account := CreateUser(db, StudentAccountRequest(rev, created.value, ureq), uId, passwordHash);
    if account.Err? {
      if forall x :: x in old(db.students) ==> x.sId != sId {
        RemoveStudentUndoesInsert(old(db.students), created.value);
      }
      db.students := RemoveFirstStudent(db.students, created.value.sId);
      return Err(account.error);
    }
    return Ok(());
  }

  /** `register_instructor(instructorData, userData)`: profile, then account; on an account error the profile is deleted. */
  method RegisterInstructor(db: Database, ireq: InstructorRequest, ureq: UserRequest,
                            iId: string, uId: string, passwordHash: string) returns (r: Result<(), Error>)
    modifies db`instructors, db`users
    ensures var i := CreateInstructorOutcome(old(db.instructors), ireq, iId);
      i.Err? ==> r == Err(i.error) && db.instructors == old(db.instructors) && db.users == old(db.users)
    ensures var i := CreateInstructorOutcome(old(db.instructors), ireq, iId);
      i.Ok? ==>
        var u := CreateUserOutcome(db.students, old(db.instructors) + [i.value], old(db.users),
                                   InstructorAccountRequest(i.value, ureq), uId, passwordHash);
        if u.Ok? then r == Ok(()) && db.instructors == old(db.instructors) + [i.value] && db.users == old(db.users) + [u.value]
        else (r == Err(u.error) && db.users == old(db.users)
              && db.instructors == RemoveFirstInstructor(old(db.instructors) + [i.value], iId))
    ensures r.Err? && (forall x :: x in old(db.instructors) ==> x.iId != iId) ==>
      db.instructors == old(db.instructors) && db.users == old(db.users)
  {
    var created := CreateInstructor(db, ireq, iId);
    if created.Err? {
      return Err(created.error);
    }
    var account := CreateUser(db, InstructorAccountRequest(created.value, ureq), uId, passwordHash);
    if account.Err? {
      if forall x :: x in old(db.instructors) ==> x.iId != iId {
        RemoveInstructorUndoesInsert(old(db.instructors), created.value);
      }
      db.instructors := RemoveFirstInstructor(db.instructors, created.value.iId);
      return Err(account.error);
    }
    return Ok(());
  }
}
