# University Portal: scheduling, admission and course activity, in Dafny

This project models the core of the University Portal back end. That core has three parts.

- **Information service**, in two revisions:
  - `services/student_information_service.py` keeps the course fields under `details`;
  - `student_information_service.py` keeps them at the top level.

  It covers required-field validation, the availability resolver (`get_available_rooms`, `get_available_instructors`), course creation, profile and account creation with its compensating delete, the enrollment admission controller (`enroll_in_course`, `has_time_conflict`), course details, and the course list offered for registration.
- **Course activity service** (`services/course_activity_service.py`):
  - assignments: creation, answer lookup, the `$pull`-then-`$push` upserts of grades and answers, pending tasks;
  - the Redis cache: key formatters, writers, readers and invalidation.

The MongoDB collections are modelled as `seq` fields of the class `Store.Database`, one per collection. The methods change only the fields named in their `modifies` clauses. `find_one`, `update_one` and `delete_one` act on the first matching document in store order. The Redis database is a `map<string, string>` field of the class `Cache.Redis`.

A parameter `Revision = Nested | Flat` selects what differs between the two revisions:

- the required field names;
- the nested `create_course` raises a `KeyError` on a missing `details` or `course_id`, where the flat one reports a missing `course_id` as a missing field from validation;
- the counter read by `enroll_in_course`: a `KeyError` when it is missing (nested) versus `get(..., 0)` (flat);
- the forced `user_id`/`role` in the flat `register_student`;
- the shapes the availability queries return.

Each operation follows the same pattern:

- A specification function gives the outcome (`CreateCourseOutcome`, `EnrollOutcome`, `AvailableRooms`, `DetailsOf`, `Upsert`, `CachedValue`, ...).
- A method with the source's loops and updates is proved equal to that function.
- Lemmas state the properties the service promises.

Two modelling choices about strings and days:

- Time strings are compared with Python's `<` on `str`. This is modelled as `Schedules.LexLess`, lexicographic by code point. `LexLessIsMinutesOrder` shows that on zero-padded `HH:MM` times it is the order of minutes.
- The Mongo day filter `{"$all": days, "$size": len(days)}` is modelled as `Schedules.DayMatch`.

Files:

| file | module | contents |
|---|---|---|
| wrappers.dfy | Wrappers | `Option`, `Result` |
| seq_util.dfy | SeqUtil | `Filter`, `Map`, `IsSubsequence` and their lemmas |
| schedules.dfy | Schedules | schedules, string order, conflict and day-match predicates |
| store.dfy | Store | documents, errors, the `Database` class, first-match lookups, the counter `$inc` |
| availability.dfy | Availability | `get_available_rooms` / `get_available_instructors` of both revisions |
| admission.dfy | Admission | `validate_required_fields`, `has_time_conflict`, `create_course`, `enroll_in_course` |
| registration.dfy | Registration | `create_student` / `create_instructor` / `create_user`, `register_*` with rollback |
| retrieval.dfy | Retrieval | `get_course_details` (both revisions), `get_available_courses_for_registration` |
| activity.dfy | Activity | the assignment operations of the activity service |
| cache.dfy | Cache | the Redis keys and map operations |
| scenarios.dfy | Scenarios | worked admissions: filling a room of capacity two, and a schedule conflict next to a course that only touches |

## Model

| member | source | states |
|---|---|---|
| Schedules.LexLess | services/student_information_service.py:67 | defines Python's `<` on strings: code point by code point, a proper prefix before its extensions |
| Schedules.Overlaps | services/student_information_service.py:67 | defines the half-open overlap test `s1 < e2 and s2 < e1` |
| Schedules.Conflicts | services/student_information_service.py:56-68 | defines the conflict of two schedules: some common day (`set(days1) & set(days2)`) and overlapping times |
| Schedules.DayMatch | services/student_information_service.py:305-313 | defines the `{"$all": days, "$size": len(days)}` filter: a non-empty target whose every day occurs in the course's list, of the same length |
| Schedules.LexLessIrreflexive | services/student_information_service.py:67 | no time string is before itself under the `<` the conflict test uses |
| Schedules.LexLessAsymmetric | services/student_information_service.py:67 | the string order never holds both ways |
| Schedules.LexLessTransitive | services/student_information_service.py:67 | the string order is transitive |
| Schedules.LexLessTotal | services/student_information_service.py:67 | distinct strings are ordered one way or the other |
| Schedules.LexLessIsMinutesOrder | services/student_information_service.py:56-67 | on zero-padded `HH:MM` times, string `<` holds exactly when the first time has fewer minutes since midnight |
| Schedules.ConflictsSymmetric | services/student_information_service.py:56-68 | the shared-day plus `s1 < e2 and s2 < e1` test gives the same answer with the two schedules swapped |
| Schedules.NoCommonDayNoConflict | services/student_information_service.py:66 | schedules with no common day never conflict |
| Schedules.TouchingDoNotConflict | services/student_information_service.py:67 | a course ending exactly when the other starts conflicts with it in neither role (half-open intervals) |
| Schedules.ConflictsInMinutes | student_information_service.py:52-64 | for padded times a conflict is a shared day plus overlapping minute intervals |
| Schedules.DayMatchSharesDay | services/student_information_service.py:305-313 | a course passing the `$all`/`$size` filter shares a day with the candidate |
| Schedules.SharedDayWithoutDayMatch | services/student_information_service.py:305-313 | the converse fails: a [Monday] course shares a day with a [Monday, Wednesday] candidate but fails the filter |
| Store.FirstCourseIndex | services/student_information_service.py:389 | the position `find_one({"course_id": id})` returns: none exactly when no course has the id, otherwise the first course with it |
| Store.FindCourse | services/student_information_service.py:389-391 | none exactly when no course has the id; otherwise the course at the first position holding that id |
| Store.Bump | services/student_information_service.py:427 | `$inc` raises the counter by exactly one (a missing counter becomes 1) and changes no other field |
| Store.IncrementCount | student_information_service.py:354 | `update_one(... $inc ...)` bumps the first course with the id and leaves every other course as it was |
| Store.FindRoom | services/student_information_service.py:404 | none exactly when no room has the id; otherwise the first room record with that id in store order |
| Store.CapacityOf | services/student_information_service.py:408 | defines a room's capacity as its `capacity` field, 20 when the field is missing |
| Availability.BusyRooms | services/student_information_service.py:305-326 | a room is busy exactly when some course passing the day filter and overlapping in time uses it |
| Availability.BusyInstructors | services/student_information_service.py:350-369 | an instructor name is busy exactly when some course passing the day filter and overlapping in time uses it |
| Availability.AvailableRooms | services/student_information_service.py:299-333 | the offered rooms are an order-preserving subsequence of the catalog, holding exactly the catalog rooms no occupying course uses |
| Availability.AvailableInstructors | services/student_information_service.py:336-377 | the offered instructors are an order-preserving subsequence of the catalog's id/name pairs, holding exactly those whose name no occupying course uses |
| Availability.AvailableRoomIds | student_information_service.py:237-268 | defines the flat room-id list: catalog ids in order, minus the ids on the busy list |
| Availability.AvailableInstructorNames | student_information_service.py:271-305 | defines the flat name list: catalog names in order, minus the names on the busy list |
| Availability.RoomIdsAgree | student_information_service.py:237-268 | the flat revision's room-id list is the nested revision's room list reduced to ids |
| Availability.InstructorNamesAgree | student_information_service.py:271-305 | the flat revision's name list is the nested revision's instructor list reduced to names |
| Availability.RoomIdOffered | student_information_service.py:237-268 | an id is offered exactly when it is a catalog room and no occupying course uses it |
| Availability.InstructorNameOffered | student_information_service.py:271-305 | a name is offered exactly when it is a catalog name and no occupying course uses it |
| Availability.UnusedRoomAvailable | services/student_information_service.py:328-331 | a catalog room that no course is assigned to is always offered |
| Availability.WithheldRoomConflicts | services/student_information_service.py:320-331 | a withheld room is held by a course that truly conflicts (shared day and overlap) with the candidate |
| Availability.SameNameSameFate | services/student_information_service.py:371-374 | two instructors with the same full name are offered or withheld together |
| Availability.NonMatchingCourseIgnored | services/student_information_service.py:305-313 | inserting a course whose day list fails the filter, at any position, changes neither availability result |
| Availability.PartialDayOverlapMissed | services/student_information_service.py:305-333 | a concrete case where a room stays offered to a candidate that conflicts with the room's course, because the day lists differ |
| Availability.GetAvailableRooms | services/student_information_service.py:299-333 | the loops compute `AvailableRooms` |
| Availability.FreeRooms | services/student_information_service.py:328-333 | the loop keeps, in catalog order, exactly the rooms not on the busy list |
| Availability.GetAvailableRoomIds | student_information_service.py:237-268 | the loops compute `AvailableRoomIds` |
| Availability.FreeNames | student_information_service.py:263-268 | the loop keeps, in order, exactly the ids (or names) not on the busy list |
| Availability.BusyRoomsOf | services/student_information_service.py:320-326 | the busy loop computes `BusyRooms` |
| Availability.BusyInstructorsOf | services/student_information_service.py:364-369 | the busy loop computes `BusyInstructors` |
| Availability.GetAvailableInstructors | services/student_information_service.py:336-377 | the loops compute `AvailableInstructors` |
| Availability.FreeRefs | services/student_information_service.py:371-374 | the loop keeps, in catalog order, exactly the instructors whose name is not on the busy list |
| Availability.GetAvailableInstructorNames | student_information_service.py:271-305 | the loops compute `AvailableInstructorNames` |
| Admission.FirstMissing | services/student_information_service.py:33-36 | none exactly when every required key is present; otherwise an absent required key with every earlier one present |
| Admission.ValidateRequiredFields | services/student_information_service.py:33-36 | the loop fails exactly when a required key is absent, reporting the first absent one in list order |
| Admission.EnrolledCourseIds | services/student_information_service.py:41-46 | the `enrolled_ids` list holds exactly the course ids the student has an enrollment for |
| Admission.ScheduleClash | services/student_information_service.py:40-70 | defines a clash: some course carrying one of the student's enrolled ids conflicts with the candidate schedule |
| Admission.NoEnrollmentsNoClash | services/student_information_service.py:48-49 | a student without enrollments never has a time conflict |
| Admission.HasTimeConflict | services/student_information_service.py:40-70 | the loop answers true exactly when some course carrying an enrolled id shares a day with the candidate and overlaps it |
| Admission.FieldKeysPresent | services/student_information_service.py:33-36 | a course field's key is among the request keys only when the field is present |
| Admission.AllFieldsPresent | student_information_service.py:153-156 | passing the required-field check means every course field (and, flat, `course_id`) is present |
| Admission.CreateCourseOutcome | services/student_information_service.py:155-202 | defines `create_course`'s verdict: nested `KeyError` on `details`, first missing field, `KeyError` on `course_id`, taken `(course_id, section)`, room not offered, instructor not offered, in that order; otherwise the course with the fresh `c_id` |
| Admission.CreateCourseRequestGates | services/student_information_service.py:155-168 | the nested `details` lookup fails first with a `KeyError`; a request that passes the field check but has no `course_id` fails with a `KeyError`; success needs both to pass |
| Admission.CreateCourseTableGates | services/student_information_service.py:166-194 | for a complete request: duplicate exactly when the `(course_id, section)` pair is taken; room unavailable exactly when it is free but the room is not offered; instructor busy exactly when both pass but the name is not offered; success exactly when all three pass |
| Admission.CreateCourseMissingFieldFirst | services/student_information_service.py:157-164 | a missing field is reported whatever the tables hold, and it is a required field absent from the request |
| Admission.CreatedCourseFits | services/student_information_service.py:166-197 | a created course carries the request's id and the fresh `c_id`, has a new `(course_id, section)`, uses a catalog room and catalog instructor name, and shares neither with an occupying course |
| Admission.CreateCourseKeepsSectionsUnique | services/student_information_service.py:19-22 | success keeps `(course_id, section)` unique across the table |
| Admission.CreateCourse | services/student_information_service.py:155-202 | the method's result is `CreateCourseOutcome`; the course table gains exactly that course on success and is untouched on every error |
| Admission.EnrollOutcome | services/student_information_service.py:384-428 | defines `enroll_in_course`'s verdict: unknown student, unknown course, already enrolled, nested missing counter, full (room record present and count at capacity), schedule conflict, in that order; otherwise the course |
| Admission.EnrollGateOrder | services/student_information_service.py:384-420 | the unknown-student, unknown-course and duplicate rejections occur exactly under their conditions, in that order; then a missing nested counter raises a `KeyError`; after those, full exactly when the room record exists and the count has reached its capacity (reported with that capacity), conflict exactly when not full and the schedule clashes, success exactly when every gate passes |
| Admission.EnrollBelowCapacity | services/student_information_service.py:402-411 | when the room record exists, an admitted course's count after the increment is at most its capacity (default 20) |
| Admission.IncrementFindsAdmitted | services/student_information_service.py:427 | after the `$inc` the course lookup returns the admitted course with its count one higher |
| Admission.IncrementKeepsCapacity | services/student_information_service.py:427 | raising one course's counter keeps every course within capacity when the raised counter still fits |
| Admission.EnrollKeepsCapacity | services/student_information_service.py:402-427 | if every course with a room record was within capacity before, it still is after an admission |
| Admission.IncrementKeepsSectionsUnique | services/student_information_service.py:427 | the counter update keeps `(course_id, section)` unique |
| Admission.SecondEnrollRejected | services/student_information_service.py:393-397 | right after a successful admission the same request is rejected as already enrolled |
| Admission.EnrollInCourse | services/student_information_service.py:384-428 | the result follows `EnrollOutcome`; success appends exactly `(eId, student, course, "00")` and bumps that course's counter; every rejection leaves enrollments and courses unchanged |
| Registration.RemoveStudentUndoesInsert | services/student_information_service.py:209-214 | deleting by a fresh `s_id` removes exactly the student just appended |
| Registration.RemoveInstructorUndoesInsert | services/student_information_service.py:223-229 | deleting by a fresh `i_id` removes exactly the instructor just appended |
| Registration.ForcedStudentAccount | student_information_service.py:187-201 | with `user_id` and `role` forced, the account step fails only for a missing password or an existing account, and otherwise creates the student's account |
| Registration.ForcedInstructorAccount | services/student_information_service.py:216-229 | the same for instructors |
| Registration.CreateStudentOutcome | services/student_information_service.py:122-138 | defines `create_student`'s verdict: first missing field, then an existing `student_id`; otherwise the profile with the fresh `s_id` |
| Registration.CreateInstructorOutcome | services/student_information_service.py:140-153 | defines `create_instructor`'s verdict: first missing field, then an existing `instructor_id`; otherwise the profile with the fresh `i_id` |
| Registration.CreateUserOutcome | services/student_information_service.py:78-120 | defines `create_user`'s verdict: first missing field, missing student or instructor profile for that role, a role other than student/instructor/dean, an existing account; otherwise the account with the given hash |
| Registration.CreateStudent | services/student_information_service.py:122-138 | the result is `CreateStudentOutcome`; the students table gains exactly that profile on success, nothing otherwise |
| Registration.CreateInstructor | services/student_information_service.py:140-153 | the result is `CreateInstructorOutcome`; the instructors table gains exactly that profile on success, nothing otherwise |
| Registration.CreateUser | services/student_information_service.py:78-120 | the result is `CreateUserOutcome` (profile check per role, invalid role, existing account, in that order); users gain exactly that account on success |
| Registration.RegisterStudent | student_information_service.py:187-201 | profile, then account; on an account error the profile is deleted again, so with a fresh `s_id` both tables end as they began and the error is returned |
| Registration.RegisterInstructor | services/student_information_service.py:216-229 | the same two-step insert with a compensating delete, for instructors |
| Retrieval.DetailsOf | services/student_information_service.py:234-241 | the error reply exactly when no course has the id; otherwise a stored course with that id |
| Retrieval.DetailsCount | services/student_information_service.py:250-280 | the completed and pending lists together have one task per assignment of the course |
| Retrieval.DetailsPartition | services/student_information_service.py:250-280 | each assignment of the course appears as a completed task when the student answered it and as a pending task otherwise |
| Retrieval.CompletedHaveAnswers | services/student_information_service.py:251-277 | every completed task carries the student's answer |
| Retrieval.DetailsFromSources | services/student_information_service.py:243-280 | both lists are built in store order, one task per answered (resp. unanswered) assignment of the course; a completed task carries the student's first grade (or None) and first answer |
| Retrieval.SourcesExactly | services/student_information_service.py:243-280 | those sources are order-preserving subsequences of the assignment table holding exactly the course's answered (resp. unanswered) assignments |
| Retrieval.GetCourseDetails | services/student_information_service.py:234-286 | the loops compute `DetailsOf` |
| Retrieval.SortTasks | services/student_information_service.py:250-280 | the loop over the course's assignments builds the completed list from the answered ones and the pending list from the others, in order |
| Retrieval.SortStep | services/student_information_service.py:250-280 | one more assignment adds one task, to the list its answer status selects |
| Retrieval.CourseRecord | student_information_service.py:221-225 | the course exactly when one has the id, otherwise the course-not-found error |
| Retrieval.RegistrationCandidates | services/student_information_service.py:431-443 | defines the `{"course_id": {"$nin": enrolled_ids}}` query as a filter of the course table in store order |
| Retrieval.CandidatesExactly | student_information_service.py:365-368 | the `$nin` query returns, in store order, exactly the courses whose id is not enrolled |
| Retrieval.GetAvailableCoursesForRegistration | services/student_information_service.py:431-443 | the result is the `$nin` filter, and the whole course table when the enrolled list is empty |
| Retrieval.GetAvailableCourseSummaries | student_information_service.py:358-370 | the flat revision's id/name projection of the same list, all courses when the enrolled list is empty |
| Activity.NewAssignment | services/course_activity_service.py:189-195 | the stored document has empty grades and answers and takes `course_id` from the input when it carries one |
| Activity.CreateAssignment | services/course_activity_service.py:180-197 | appends exactly that document and reports success |
| Activity.FirstAssignmentIndex | services/course_activity_service.py:203 | the position `find_one({"assignment_id": id})` returns: none exactly when no assignment has the id, otherwise the first one with it |
| Activity.FirstEntry | services/course_activity_service.py:208-210 | none exactly when no entry has the student; otherwise the first entry of that student |
| Activity.FirstEntryOf | services/course_activity_service.py:208-210 | the scan-and-break loop returns `FirstEntry` |
| Activity.GetAnswer | services/course_activity_service.py:202-212 | success exactly when the first assignment with the id exists and holds an answer of the student, which is then returned, otherwise `(False, None)` |
| Activity.SameIdsSameFirstIndex | services/course_activity_service.py:217-225 | tables with equal assignment ids position by position select the same first document |
| Activity.Pull | services/course_activity_service.py:217-220 | defines `$pull` of a student's entries from one list of the first assignment with the id; no match changes nothing |
| Activity.Push | services/course_activity_service.py:222-225 | defines `$push` of an entry at the end of that list |
| Activity.Upsert | services/course_activity_service.py:215-256 | defines the pull-then-push pair that `update_grades` and `create_answer_document` perform |
| Activity.PullKeepsFirstIndex | services/course_activity_service.py:217-225 | the `$pull` keeps assignment ids, so the following `$push` reaches the same document |
| Activity.UpsertReplaces | services/course_activity_service.py:215-229 | after pull-then-push the list of the matched assignment is the other students' entries in their old order followed by the new entry; every other assignment is unchanged |
| Activity.ReplaceEntryIdempotent | services/course_activity_service.py:215-229 | replacing a student's entry twice is replacing it once |
| Activity.UpsertIdempotent | services/course_activity_service.py:215-256 | `update_grades` / `create_answer_document` applied twice equal one application |
| Activity.FirstEntryAfterOthers | services/course_activity_service.py:208-210 | an entry behind other students' entries is the first entry of its student |
| Activity.AnswerAfterSubmit | services/course_activity_service.py:202-256 | after `create_answer_document(s, a, t)` on an existing assignment, `get_answer(s, a)` succeeds with `(s, t)` |
| Activity.UpsertMissingAssignment | services/course_activity_service.py:217-225 | upserting into an assignment id no document has changes nothing |
| Activity.UpdateGrades | services/course_activity_service.py:215-229 | the table becomes the grades upsert of `(student, grade)`; success is reported |
| Activity.CreateAnswerDocument | services/course_activity_service.py:232-256 | the table becomes the answers upsert of `(student, text)`; only the text is stored; without a `text` the `$pull` has already run and a `KeyError` for `text` is raised |
| Activity.MissingTextDropsAnswer | services/course_activity_service.py:238-249 | after the `$pull` of a submission without `text`, `get_answer` for that student fails, so the earlier answer is gone |
| Activity.PendingFor | services/course_activity_service.py:259-277 | defines the pending tasks: the `$in` query on the course ids, then the assignments the student has not answered |
| Activity.PendingExactly | services/course_activity_service.py:259-277 | the pending tasks are, in store order, exactly the listed courses' assignments the student has not answered |
| Activity.GetPendingAssignmentsForCourses | services/course_activity_service.py:259-277 | the loop computes `PendingFor` and reports success |
| Cache.Key | services/course_activity_service.py:19-41 | every key splits at its first `:` into the family prefix and the id part |
| Cache.SplitAtColon | services/course_activity_service.py:19-41 | a colon-free head followed by `:` is split off exactly |
| Cache.PrefixColonFree | services/course_activity_service.py:19-41 | no family prefix contains the `:` separator |
| Cache.PrefixNamesFamily | services/course_activity_service.py:19-41 | the eight prefixes are colon-free and pairwise distinct |
| Cache.KeyInjective | services/course_activity_service.py:19-41 | distinct items have distinct keys, provided a details key's student id holds no `:` |
| Cache.DetailsKeysCanCollide | services/course_activity_service.py:37-38 | without that proviso two details items share a key |
| Cache.OnlyAvailableKeysMatch | services/course_activity_service.py:22-23 | a key matches `available_courses:*` exactly when it belongs to the available-courses family |
| Cache.CachedValue | services/course_activity_service.py:128-175 | a value exactly when the key is present with a non-empty text (`if not data`), and then the stored text |
| Cache.ReadAfterWrite | services/course_activity_service.py:83-175 | a non-empty value written by `cache_*` is what the matching `get_cached_*` returns |
| Cache.ReadAfterInvalidate | services/course_activity_service.py:46-175 | after `invalidate_*` for an item the matching `get_cached_*` returns None |
| Cache.OtherItemsUntouched | services/course_activity_service.py:46-123 | writing or deleting one item's key leaves every other item's cached value alone |
| Cache.SweepEffect | services/course_activity_service.py:50-54 | after the sweep every available-courses item reads None and every other item reads as before |
| Cache.SweepExactly | services/course_activity_service.py:50-54 | the sweep removes exactly the matching keys and changes no remaining value |
| Cache.Redis.Put | services/course_activity_service.py:83-123 | `set` of the item's key to the value, nothing else |
| Cache.Redis.Invalidate | services/course_activity_service.py:46-78 | `delete` of the item's key, nothing else |
| Cache.Redis.InvalidateAllAvailableCourses | services/course_activity_service.py:50-54 | the map loses exactly the matching keys and the count of deleted keys is returned |
| Cache.Redis.Get | services/course_activity_service.py:128-175 | returns `CachedValue` |
| Scenarios.TablesAfterAdmissions | services/student_information_service.py:419-427 | after each admission the course counter is one higher and the enrollment list one longer |
| Scenarios.FirstStudentAdmitted | services/student_information_service.py:384-428 | the first student is admitted to the empty course |
| Scenarios.DuplicateRejected | services/student_information_service.py:393-397 | the first student's second request is rejected as already enrolled |
| Scenarios.SecondStudentAdmitted | services/student_information_service.py:384-428 | the second student is admitted with one seat taken |
| Scenarios.ThirdStudentTurnedAway | services/student_information_service.py:402-411 | the third student is rejected as full, capacity 2 |
| Scenarios.FillingARoom | services/student_information_service.py:384-428 | room R1 of capacity two: S1 is admitted, S1 again is rejected as already enrolled, S2 is admitted, S3 is rejected as full with capacity 2 (both revisions) |
| Scenarios.OverlapRejected | services/student_information_service.py:40-70 | a student holding a Monday 09:00-10:00 course is refused a Monday 09:30-10:30 course as a schedule conflict (both revisions) |
| Scenarios.TouchingAdmitted | services/student_information_service.py:416-428 | the same student is admitted to a Monday 10:00-11:00 course, which only touches the first (both revisions) |

## Left out

- I/O and libraries: the MongoDB and Redis clients, `PyMongoError` handling, JSON (de)serialisation of cached values, and the Redis TTL (`expire`, `DEFAULT_CACHE_TTL`). Cached values are opaque strings.
- Ids and hashes: `generate_id` (uuid) and the bcrypt hash of `create_user` are parameters supplied by the caller. The rollback postconditions of `RegisterStudent`/`RegisterInstructor` are stated for the case where the supplied `s_id`/`i_id` is fresh.
- Concurrency: the non-atomic capacity check then `$inc`, and the gap between `$pull` and `$push`. Each call is one sequential step.
- Mongo document selection: when several documents match, `find_one`/`update_one`/`delete_one` are taken to pick the first in store order.
- Document shape:
  - documents carry the fields the core reads; other fields, insertion order and `_id` are not represented;
  - a course field missing from a stored document (and the `KeyError` reading it would raise) is not represented, except the nested counter;
  - the projections of availability results are represented only where they change the returned type.
- Retrieval.GetCourseDetails: the `{"_id": 0}` projection and the dictionary layout of the reply are abstracted into `CourseDetails`.
- `get_courses`, `get_student_performance`, `get_student_course_performance`: not part of the core modelled here. The same goes for the menus, the network service, the seeders and the health check.
- The source has no writer or reader for instructor course assignments and no single-key invalidation for course assignment lists. `Cache.Redis.Put`/`Get` and `Cache.Redis.Invalidate` require an item that has one.
- Schedules.DayMatch follows the source: both revisions pre-filter busy courses with `$all` plus `$size`, not with any shared day. An empty candidate day list therefore matches no course, as with Mongo's `$all: []`.
  - Rooms and instructors of courses that share only some days with the candidate stay offered (`Availability.PartialDayOverlapMissed`).
  - A course is busy only when its day list has the candidate's length and contains every candidate day. A course sharing only some of them, e.g. `[Monday]` against `[Monday, Wednesday]`, is not.
- Request schedules (`CourseFields.schedule`): a schedule lacking `days`, `start_time` or `end_time` makes the source raise a `KeyError` in the room query, after the duplicate check. The model's `Schedule` always has all three parts, so that failure is not represented.
- Admission.CreateCourseOutcome: uniqueness is by the `(course_id, section)` pair that the code queries and indexes, not by `course_id` alone.
- Admission.CreateCourse stores the request's counter value as given. The code does not force it to 0, and neither does the model.
- Scenarios.FillingARoom checks the capacity-two case only. The general statement, that exactly `capacity` distinct fresh students get in and the next is refused, is not proved for all capacities.
- Activity.UpdateGrades: `grade` is typed `Any` in the source; the model narrows it to a string, stored opaquely.
- Activity.CreateAnswerDocument: `answerData` is reduced to its optional `text`. Its `student_id` field is not read by the code, and the model leaves it out.
