/**
 * The assignment side of the course activity service: `create_assignment`,
 * `get_answer`, the `$pull`-then-`$push` upserts `update_grades` and
 * `create_answer_document`, and `get_pending_assignments_for_courses`.
 */
module Activity {
  import opened Wrappers
  import opened SeqUtil
  import opened Store

  /** The fields `create_assignment` copies from `assignmentData`; a `course_id` there overrides the argument. */
  datatype AssignmentRequest = AssignmentRequest(
    courseId: Option<string>, assignmentId: string, title: string, description: string,
    deadline: string, maxGrade: string)

  /** The document `create_assignment` stores. */
  function NewAssignment(courseId: string, req: AssignmentRequest): (a: Assignment)
    ensures a.grades == [] && a.answers == []
    ensures a.courseId == req.courseId.GetOr(courseId) && a.assignmentId == req.assignmentId
  {
    Assignment(req.courseId.GetOr(courseId), req.assignmentId, req.title, req.description, req.deadline, req.maxGrade, [], [])
  }

  /** `create_assignment(courseID, assignmentData)`; always reports success. */
  method CreateAssignment(db: Database, courseId: string, req: AssignmentRequest) returns (success: bool)
    modifies db`assignments
    ensures success
    ensures db.assignments == old(db.assignments) + [NewAssignment(courseId, req)]
  {
    db.assignments := db.assignments + [NewAssignment(courseId, req)];
    return true;
  }

  /** Position of the assignment `find_one` / `update_one` on `{"assignment_id": id}` reaches. */
  function FirstAssignmentIndex(assignments: seq<Assignment>, assignmentId: string): (r: Option<nat>)
    ensures r.None? <==> forall i :: 0 <= i < |assignments| ==> assignments[i].assignmentId != assignmentId
    ensures r.Some? ==> r.value < |assignments| && assignments[r.value].assignmentId == assignmentId
    ensures r.Some? ==> forall i :: 0 <= i < r.value ==> assignments[i].assignmentId != assignmentId
  {
    if assignments == [] then None
    else if assignments[0].assignmentId == assignmentId then Some(0)
    else match FirstAssignmentIndex(assignments[1..], assignmentId)
      case None => None
      case Some(k) => Some(k + 1)
  }

  function FindAssignment(assignments: seq<Assignment>, assignmentId: string): Option<Assignment>
  {
    match FirstAssignmentIndex(assignments, assignmentId)
    case None => None
    case Some(k) => Some(assignments[k])
  }

  /** The first entry of the student in a `grades` or `answer_text` list. */
  function FirstEntry(entries: seq<Entry>, studentId: string): (r: Option<Entry>)
    ensures r.None? <==> forall e :: e in entries ==> e.studentId != studentId
    ensures r.Some? ==> r.value.studentId == studentId
    ensures r.Some? ==> exists i :: (0 <= i < |entries| && entries[i] == r.value
                                     && forall j :: 0 <= j < i ==> entries[j].studentId != studentId)
  {
    if entries == [] then None
    else if entries[0].studentId == studentId then Some(entries[0])
    else
      var r := FirstEntry(entries[1..], studentId);
      assert forall i :: 1 <= i < |entries| ==> entries[i] == entries[1..][i - 1];
      r
  }

  /** The student is among `submitted_students`, the ids in the assignment's `answer_text`. */
  predicate Answered(a: Assignment, studentId: string)
  {
    exists e :: e in a.answers && e.studentId == studentId
  }

  /** The reply `{"success": ..., "answer": ...}` of `get_answer`. */
  datatype AnswerReply = AnswerReply(success: bool, answer: Option<Entry>)

  /** `get_answer` on the given table: the student's first answer entry in the first matching assignment. */
  function AnswerOf(assignments: seq<Assignment>, studentId: string, assignmentId: string): AnswerReply
  {
    match FindAssignment(assignments, assignmentId)
    case None => AnswerReply(false, None)
    case Some(a) =>
      match FirstEntry(a.answers, studentId)
      case None => AnswerReply(false, None)
      case Some(e) => AnswerReply(true, Some(e))
  }

  /** `get_answer(studentID, assignmentID)`: scan the assignment's answers for the student's. */
  method GetAnswer(db: Database, studentId: string, assignmentId: string) returns (r: AnswerReply)
    ensures r == AnswerOf(db.assignments, studentId, assignmentId)
    ensures r.success <==> r.answer.Some?
    ensures r.success <==> (FindAssignment(db.assignments, assignmentId).Some?
                            && Answered(FindAssignment(db.assignments, assignmentId).value, studentId))
  {
    var found := FindAssignment(db.assignments, assignmentId);
    if found.None? {
      return AnswerReply(false, None);
    }
    var entry := FirstEntryOf(found.value.answers, studentId);
    return AnswerReply(entry.Some?, entry);
  }

  /** The `for ... if ans["student_id"] == studentID: ... break` scan over an entry list. */
  method FirstEntryOf(entries: seq<Entry>, studentId: string) returns (r: Option<Entry>)
    ensures r == FirstEntry(entries, studentId)
  {
    var i := 0;
    while i < |entries|
      invariant 0 <= i <= |entries|
      invariant FirstEntry(entries, studentId) == FirstEntry(entries[i..], studentId)
    {
      assert entries[i..][0] == entries[i] && entries[i..][1..] == entries[i + 1..];
      if entries[i].studentId == studentId {
        return Some(entries[i]);
      }
      i := i + 1;
    }
    return None;
  }

  /** Which list of an assignment an upsert works on. */
  datatype EntryList = GradesList | AnswersList

  function EntriesOf(a: Assignment, which: EntryList): seq<Entry>
  {
    if which == GradesList then a.grades else a.answers
  }

  function WithEntries(a: Assignment, which: EntryList, es: seq<Entry>): (r: Assignment)
    ensures EntriesOf(r, which) == es
    ensures r.assignmentId == a.assignmentId && r.courseId == a.courseId
    ensures EntriesOf(r, if which == GradesList then AnswersList else GradesList)
         == EntriesOf(a, if which == GradesList then AnswersList else GradesList)
  {
    if which == GradesList then a.(grades := es) else a.(answers := es)
  }

  function NotOf(studentId: string): Entry -> bool { (e: Entry) => e.studentId != studentId }

  /** One document after the `$pull` of a student's entries from the list. */
  function Pulled(a: Assignment, which: EntryList, studentId: string): Assignment
  {
    WithEntries(a, which, Filter(EntriesOf(a, which), NotOf(studentId)))
  }

  /** One document after the `$push` of an entry onto the list. */
  function Pushed(a: Assignment, which: EntryList, e: Entry): Assignment
  {
    WithEntries(a, which, EntriesOf(a, which) + [e])
  }

  /** `{"$pull": {list: {"student_id": s}}}` on the first assignment with the id. */
  function Pull(assignments: seq<Assignment>, assignmentId: string, which: EntryList, studentId: string): seq<Assignment>
  {
    match FirstAssignmentIndex(assignments, assignmentId)
    case None => assignments
    case Some(k) => assignments[k := Pulled(assignments[k], which, studentId)]
  }

  /** `{"$push": {list: e}}` on the first assignment with the id. */
  function Push(assignments: seq<Assignment>, assignmentId: string, which: EntryList, e: Entry): seq<Assignment>
  {
    match FirstAssignmentIndex(assignments, assignmentId)
    case None => assignments
    case Some(k) => assignments[k := Pushed(assignments[k], which, e)]
  }

  /** "Replace this student's entry": the pull, then the push, of the student's new entry. */
  function Upsert(assignments: seq<Assignment>, assignmentId: string, which: EntryList, e: Entry): seq<Assignment>
  {
    Push(Pull(assignments, assignmentId, which, e.studentId), assignmentId, which, e)
  }

  /** Two tables with the same assignment id at every position share their first match. */
  lemma {:induction false} SameIdsSameFirstIndex(xs: seq<Assignment>, ys: seq<Assignment>, assignmentId: string)
    requires |xs| == |ys|
    requires forall i :: 0 <= i < |xs| ==> xs[i].assignmentId == ys[i].assignmentId
    ensures FirstAssignmentIndex(xs, assignmentId) == FirstAssignmentIndex(ys, assignmentId)
  {
    var m, k := FirstAssignmentIndex(xs, assignmentId), FirstAssignmentIndex(ys, assignmentId);
    if m.Some? {
      assert ys[m.value].assignmentId == assignmentId;
    }
    if k.Some? {
      assert xs[k.value].assignmentId == assignmentId;
    }
  }

  /** Pulling keeps every assignment id, so both updates reach the same document. */
  lemma {:induction false} PullKeepsFirstIndex(assignments: seq<Assignment>, assignmentId: string, which: EntryList, studentId: string)
    ensures FirstAssignmentIndex(Pull(assignments, assignmentId, which, studentId), assignmentId)
         == FirstAssignmentIndex(assignments, assignmentId)
  {
    var after := Pull(assignments, assignmentId, which, studentId);
    assert forall i :: 0 <= i < |after| ==> after[i].assignmentId == assignments[i].assignmentId;
    SameIdsSameFirstIndex(after, assignments, assignmentId);
  }

  /**
   * After an upsert the list of the first assignment with the id is the other students'
   * entries in their old order, then the new entry; nothing else in the table changes.
   */
  lemma {:induction false} UpsertReplaces(assignments: seq<Assignment>, assignmentId: string, which: EntryList, e: Entry)
    ensures |Upsert(assignments, assignmentId, which, e)| == |assignments|
    ensures forall i :: 0 <= i < |assignments| ==>
      Upsert(assignments, assignmentId, which, e)[i]
        == if FirstAssignmentIndex(assignments, assignmentId) == Some(i)
           then WithEntries(assignments[i], which, Filter(EntriesOf(assignments[i], which), NotOf(e.studentId)) + [e])
           else assignments[i]
  {
    PullKeepsFirstIndex(assignments, assignmentId, which, e.studentId);
  }

  /** Replacing an entry twice is replacing it once. */
  lemma {:induction false} ReplaceEntryIdempotent(entries: seq<Entry>, e: Entry)
    ensures Filter(Filter(entries, NotOf(e.studentId)) + [e], NotOf(e.studentId)) + [e]
         == Filter(entries, NotOf(e.studentId)) + [e]
  {
    var p := NotOf(e.studentId);
    FilterAppend(Filter(entries, p), [e], p);
    FilterIdempotent(entries, p);
    assert [e][..0] == [];
    assert Filter([e], p) == [];
  }

  /** `update_grades` / `create_answer_document` applied twice with the same arguments equal one application. */
  lemma {:induction false} UpsertIdempotent(assignments: seq<Assignment>, assignmentId: string, which: EntryList, e: Entry)
    ensures Upsert(Upsert(assignments, assignmentId, which, e), assignmentId, which, e)
         == Upsert(assignments, assignmentId, which, e)
  {
    var once := Upsert(assignments, assignmentId, which, e);
    var twice := Upsert(once, assignmentId, which, e);
    UpsertReplaces(assignments, assignmentId, which, e);
    UpsertReplaces(once, assignmentId, which, e);
    var k := FirstAssignmentIndex(assignments, assignmentId);
    assert FirstAssignmentIndex(once, assignmentId) == k by {
      assert forall i :: 0 <= i < |once| ==> once[i].assignmentId == assignments[i].assignmentId;
      SameIdsSameFirstIndex(once, assignments, assignmentId);
    }
    forall i | 0 <= i < |assignments|
      ensures twice[i] == once[i]
    {
      if k == Some(i) {
        ReplaceEntryIdempotent(EntriesOf(assignments[i], which), e);
      }
    }
  }

  /** An entry appended behind entries of other students is the first one of its student. */
  lemma {:induction false} FirstEntryAfterOthers(others: seq<Entry>, e: Entry)
    requires forall x :: x in others ==> x.studentId != e.studentId
    ensures FirstEntry(others + [e], e.studentId) == Some(e)
  {
    if others != [] {
      assert (others + [e])[1..] == others[1..] + [e];
      FirstEntryAfterOthers(others[1..], e);
    }
  }

  /** After `create_answer_document(s, a, {"text": t})` on an existing assignment, `get_answer(s, a)` returns that answer. */
  lemma {:induction false} AnswerAfterSubmit(assignments: seq<Assignment>, assignmentId: string, studentId: string, text: string)
    requires FindAssignment(assignments, assignmentId).Some?
    ensures AnswerOf(Upsert(assignments, assignmentId, AnswersList, Entry(studentId, text)), studentId, assignmentId)
         == AnswerReply(true, Some(Entry(studentId, text)))
  {
    var e := Entry(studentId, text);
    var after := Upsert(assignments, assignmentId, AnswersList, e);
    UpsertReplaces(assignments, assignmentId, AnswersList, e);
    PullKeepsFirstIndex(assignments, assignmentId, AnswersList, studentId);
    var k := FirstAssignmentIndex(assignments, assignmentId).value;
    assert FirstAssignmentIndex(after, assignmentId) == Some(k) by {
      assert forall i :: 0 <= i < |after| ==> after[i].assignmentId == assignments[i].assignmentId;
      var m := FirstAssignmentIndex(after, assignmentId);
      assert assignments[m.value].assignmentId == assignmentId;
    }
    var kept := Filter(assignments[k].answers, NotOf(studentId));
    FilterMembership(assignments[k].answers, NotOf(studentId));
    assert after[k].answers == kept + [e];
    FirstEntryAfterOthers(kept, e);
  }

  /** Upserting into an assignment id no document has changes nothing. */
  lemma UpsertMissingAssignment(assignments: seq<Assignment>, assignmentId: string, which: EntryList, e: Entry)
    requires FindAssignment(assignments, assignmentId).None?
    ensures Upsert(assignments, assignmentId, which, e) == assignments
  {
    UpsertReplaces(assignments, assignmentId, which, e);
  }

  /** `update_grades(assignmentID, studentID, grade)`; always reports success. */
  method UpdateGrades(db: Database, assignmentId: string, studentId: string, grade: string) returns (success: bool)
    modifies db`assignments
    ensures success
    ensures db.assignments == Upsert(old(db.assignments), assignmentId, GradesList, Entry(studentId, grade))
  {
    db.assignments := Pull(db.assignments, assignmentId, GradesList, studentId);
    db.assignments := Push(db.assignments, assignmentId, GradesList, Entry(studentId, grade));
    return true;
  }

  /**
   * `create_answer_document(studentID, assignmentID, answerData)`: only `answerData["text"]` is stored.
   * Without a `text` the `$pull` has already happened when the lookup raises the `KeyError`.
   */
  method CreateAnswerDocument(db: Database, studentId: string, assignmentId: string, text: Option<string>)
    returns (r: Result<(), Error>)
    modifies db`assignments
    ensures text.Some? ==> (r == Ok(())
      && db.assignments == Upsert(old(db.assignments), assignmentId, AnswersList, Entry(studentId, text.value)))
    ensures text.None? ==> (r == Err(KeyError("text"))
      && db.assignments == Pull(old(db.assignments), assignmentId, AnswersList, studentId))
  {
    db.assignments := Pull(db.assignments, assignmentId, AnswersList, studentId);
    if text.None? {
      return Err(KeyError("text"));
    }
    db.assignments := Push(db.assignments, assignmentId, AnswersList, Entry(studentId, text.value));
    return Ok(());
  }

  /** A submission without `text` still removes the student's earlier answer: `get_answer` then fails. */
  lemma {:induction false} MissingTextDropsAnswer(assignments: seq<Assignment>, assignmentId: string, studentId: string)
    ensures AnswerOf(Pull(assignments, assignmentId, AnswersList, studentId), studentId, assignmentId)
         == AnswerReply(false, None)
  {
    PullKeepsFirstIndex(assignments, assignmentId, AnswersList, studentId);
    match FirstAssignmentIndex(assignments, assignmentId)
    case None =>
    case Some(k) =>
      var after := Pull(assignments, assignmentId, AnswersList, studentId);
      assert after[k] == Pulled(assignments[k], AnswersList, studentId);
      FilterMembership(assignments[k].answers, NotOf(studentId));
  }

  function InCourses(courseIds: seq<string>): Assignment -> bool { (a: Assignment) => a.courseId in courseIds }

  function Unanswered(studentId: string): Assignment -> bool { (a: Assignment) => !Answered(a, studentId) }

  function PendingTest(courseIds: seq<string>, studentId: string): Assignment -> bool
  {
    (a: Assignment) => a.courseId in courseIds && !Answered(a, studentId)
  }

  /** The `tasks` of `get_pending_assignments_for_courses`: the `$in` query, then the unanswered ones. */
  function PendingFor(assignments: seq<Assignment>, courseIds: seq<string>, studentId: string): seq<Assignment>
  {
    Filter(Filter(assignments, InCourses(courseIds)), Unanswered(studentId))
  }

  /** Pending tasks are, in store order, exactly the listed courses' assignments the student has not answered. */
  lemma {:induction false} PendingExactly(assignments: seq<Assignment>, courseIds: seq<string>, studentId: string)
    ensures IsSubsequence(PendingFor(assignments, courseIds, studentId), assignments)
    ensures forall a :: a in PendingFor(assignments, courseIds, studentId) <==>
      a in assignments && a.courseId in courseIds && !Answered(a, studentId)
  {
    var inCourses := Filter(assignments, InCourses(courseIds));
    var both := PendingTest(courseIds, studentId);
    FilterFilter(assignments, InCourses(courseIds), Unanswered(studentId), both);
    FilterIsSubsequence(assignments, both);
    FilterMembership(assignments, both);
  }

  /** `get_pending_assignments_for_courses(studentID, courseIDs)`. */
  method GetPendingAssignmentsForCourses(db: Database, studentId: string, courseIds: seq<string>)
    returns (success: bool, tasks: seq<Assignment>)
    ensures success
    ensures tasks == PendingFor(db.assignments, courseIds, studentId)
  {
    var found := Filter(db.assignments, InCourses(courseIds));
    tasks := [];
    var i := 0;
    while i < |found|
      invariant 0 <= i <= |found|
      invariant tasks == Filter(found[..i], Unanswered(studentId))
    {
      assert found[..i + 1][..i] == found[..i];
      var a := found[i];
      if !(exists e :: e in a.answers && e.studentId == studentId) {
        tasks := tasks + [a];
      }
      i := i + 1;
    }
    assert found[..i] == found;
    return true, tasks;
  }
}
