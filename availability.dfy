/**
 * The availability resolver: `get_available_rooms` and
 * `get_available_instructors` of both revisions. A course holds its room and
 * its instructor against a candidate schedule when its day list passes the
 * `$all`/`$size` query and its times overlap the candidate's.
 */
module Availability {
  import opened Wrappers
  import opened SeqUtil
  import opened Schedules
  import opened Store

  /** The course is returned by the busy query for `target` and overlaps it in time. */
  predicate Occupies(c: Course, target: Schedule)
  {
    DayMatch(c.schedule.days, target.days)
    && Overlaps(c.schedule.startTime, c.schedule.endTime, target.startTime, target.endTime)
  }

  /** The `busy_rooms` list: rooms of occupying courses, in store order. */
  function BusyRooms(courses: seq<Course>, target: Schedule): (busy: seq<string>)
    ensures forall id :: id in busy <==> exists c :: c in courses && Occupies(c, target) && c.room == id
  {
    if courses == [] then []
    else
      var c := courses[|courses| - 1];
      assert forall x :: x in courses <==> x in courses[..|courses| - 1] || x == c by {
        assert courses == courses[..|courses| - 1] + [c];
      }
      BusyRooms(courses[..|courses| - 1], target) + (if Occupies(c, target) then [c.room] else [])
  }

  /** The `busy_instructors` list: instructor names of occupying courses, in store order. */
  function BusyInstructors(courses: seq<Course>, target: Schedule): (busy: seq<string>)
    ensures forall n :: n in busy <==> exists c :: c in courses && Occupies(c, target) && c.instructorName == n
  {
    if courses == [] then []
    else
      var c := courses[|courses| - 1];
      assert forall x :: x in courses <==> x in courses[..|courses| - 1] || x == c by {
        assert courses == courses[..|courses| - 1] + [c];
      }
      BusyInstructors(courses[..|courses| - 1], target) + (if Occupies(c, target) then [c.instructorName] else [])
  }

  function RoomId(r: Room): string { r.room }

  /** The `{"instructor_id", "full_name"}` projection of the nested revision. */
  datatype InstructorRef = InstructorRef(instructorId: string, fullName: string)

  function RefOf(i: Instructor): InstructorRef { InstructorRef(i.instructorId, i.fullName) }

  function RefName(i: InstructorRef): string { i.fullName }

  function NameOf(i: Instructor): string { i.fullName }

  function RoomFree(busy: seq<string>): Room -> bool { (r: Room) => r.room !in busy }

  function RefFree(busy: seq<string>): InstructorRef -> bool { (i: InstructorRef) => i.fullName !in busy }

  function NotListed(busy: seq<string>): string -> bool { (s: string) => s !in busy }

  /** Nested `get_available_rooms`: room records, catalog order, minus busy rooms. */
  function AvailableRooms(rooms: seq<Room>, courses: seq<Course>, target: Schedule): (r: seq<Room>)
    ensures IsSubsequence(r, rooms)
    ensures forall x :: x in r <==> x in rooms && !(exists c :: c in courses && Occupies(c, target) && c.room == x.room)
  {
    var busy := BusyRooms(courses, target);
    FilterMembership(rooms, RoomFree(busy));
    FilterIsSubsequence(rooms, RoomFree(busy));
    Filter(rooms, RoomFree(busy))
  }

  /** Flat `get_available_rooms`: room ids, catalog order, minus busy rooms. */
  function AvailableRoomIds(rooms: seq<Room>, courses: seq<Course>, target: Schedule): seq<string>
  {
    Filter(Map(rooms, RoomId), NotListed(BusyRooms(courses, target)))
  }

  /** Nested `get_available_instructors`: id/name pairs, catalog order, minus busy names. */
  function AvailableInstructors(instructors: seq<Instructor>, courses: seq<Course>, target: Schedule): (r: seq<InstructorRef>)
    ensures IsSubsequence(r, Map(instructors, RefOf))
    ensures forall x :: x in r <==>
      (x in Map(instructors, RefOf) && !(exists c :: c in courses && Occupies(c, target) && c.instructorName == x.fullName))
  {
    var busy := BusyInstructors(courses, target);
    FilterMembership(Map(instructors, RefOf), RefFree(busy));
    FilterIsSubsequence(Map(instructors, RefOf), RefFree(busy));
    Filter(Map(instructors, RefOf), RefFree(busy))
  }

  /** Flat `get_available_instructors`: names, catalog order, minus busy names. */
  function AvailableInstructorNames(instructors: seq<Instructor>, courses: seq<Course>, target: Schedule): seq<string>
  {
    Filter(Map(instructors, NameOf), NotListed(BusyInstructors(courses, target)))
  }

  /** The flat revision's room list is the nested one's, reduced to ids. */
  lemma {:induction false} RoomIdsAgree(rooms: seq<Room>, courses: seq<Course>, target: Schedule)
    ensures AvailableRoomIds(rooms, courses, target) == Map(AvailableRooms(rooms, courses, target), RoomId)
  {
    var busy := BusyRooms(courses, target);
    FilterMapCommute(rooms, RoomId, NotListed(busy), RoomFree(busy));
  }

  /** The flat revision's instructor list is the nested one's, reduced to names. */
  lemma {:induction false} InstructorNamesAgree(instructors: seq<Instructor>, courses: seq<Course>, target: Schedule)
    ensures AvailableInstructorNames(instructors, courses, target) == Map(AvailableInstructors(instructors, courses, target), RefName)
  {
    var busy := BusyInstructors(courses, target);
    var refs := Map(instructors, RefOf);
    assert Map(instructors, NameOf) == Map(refs, RefName);
    FilterMapCommute(refs, RefName, NotListed(busy), RefFree(busy));
  }

  /** Offered room ids are exactly catalog ids no occupying course uses. */
  lemma {:induction false} RoomIdOffered(rooms: seq<Room>, courses: seq<Course>, target: Schedule, id: string)
    ensures id in AvailableRoomIds(rooms, courses, target) <==>
      (exists r :: r in rooms && r.room == id) && !(exists c :: c in courses && Occupies(c, target) && c.room == id)
  {
    var busy := BusyRooms(courses, target);
    FilterMembership(Map(rooms, RoomId), NotListed(busy));
    MapMembership(rooms, RoomId);
  }

  /** Offered instructor names are exactly catalog names no occupying course uses. */
  lemma {:induction false} InstructorNameOffered(instructors: seq<Instructor>, courses: seq<Course>, target: Schedule, n: string)
    ensures n in AvailableInstructorNames(instructors, courses, target) <==>
      (exists i :: i in instructors && i.fullName == n) && !(exists c :: c in courses && Occupies(c, target) && c.instructorName == n)
  {
    var busy := BusyInstructors(courses, target);
    FilterMembership(Map(instructors, NameOf), NotListed(busy));
    MapMembership(instructors, NameOf);
  }

  /** A room no course is assigned to is always offered. */
  lemma UnusedRoomAvailable(rooms: seq<Room>, courses: seq<Course>, target: Schedule, r: Room)
    requires r in rooms
    requires forall c :: c in courses ==> c.room != r.room
    ensures r in AvailableRooms(rooms, courses, target)
  {
  }

  /** A room left out is held by a course that really conflicts with the candidate. */
  lemma {:induction false} WithheldRoomConflicts(rooms: seq<Room>, courses: seq<Course>, target: Schedule, r: Room)
    requires r in rooms && r !in AvailableRooms(rooms, courses, target)
    ensures exists c :: c in courses && c.room == r.room && Conflicts(c.schedule, target)
  {
    var c :| c in courses && Occupies(c, target) && c.room == r.room;
    DayMatchSharesDay(c.schedule.days, target.days);
  }

  /** Instructors with the same full name are offered or withheld together. */
  lemma SameNameSameFate(instructors: seq<Instructor>, courses: seq<Course>, target: Schedule, i: Instructor, j: Instructor)
    requires i in instructors && j in instructors && i.fullName == j.fullName
    ensures (RefOf(i) in AvailableInstructors(instructors, courses, target)) == (RefOf(j) in AvailableInstructors(instructors, courses, target))
  {
    MapMembership(instructors, RefOf);
  }

  /** Inserting a course whose day list fails the query, anywhere in the table, changes no result. */
  lemma {:induction false} NonMatchingCourseIgnored(rooms: seq<Room>, instructors: seq<Instructor>, courses: seq<Course>, target: Schedule, c: Course, k: nat)
    requires k <= |courses|
    requires !DayMatch(c.schedule.days, target.days)
    ensures AvailableRooms(rooms, courses[..k] + [c] + courses[k..], target) == AvailableRooms(rooms, courses, target)
    ensures AvailableInstructors(instructors, courses[..k] + [c] + courses[k..], target) == AvailableInstructors(instructors, courses, target)
  {
    var more := courses[..k] + [c] + courses[k..];
    assert forall x :: x in more <==> x in courses || x == c by {
      assert courses == courses[..k] + courses[k..];
    }
    var b1, b2 := BusyRooms(more, target), BusyRooms(courses, target);
    assert forall id :: id in b1 <==> id in b2;
    FilterCongruent(rooms, RoomFree(b1), RoomFree(b2));
    var n1, n2 := BusyInstructors(more, target), BusyInstructors(courses, target);
    assert forall n :: n in n1 <==> n in n2;
    FilterCongruent(Map(instructors, RefOf), RefFree(n1), RefFree(n2));
  }

  /**
   * The query misses partial day overlaps: a [Monday] 10:00-11:00 course in room C101
   * leaves C101 offered to a [Monday, Wednesday] 10:00-11:00 candidate, although the
   * two schedules conflict.
   */
  lemma PartialDayOverlapMissed()
    ensures
      var cand := Schedule(["Monday", "Wednesday"], "10:00", "11:00");
      var existing := Course("CS101", "Intro", "1", Schedule(["Monday"], "10:00", "11:00"), "C101", "Dr. A", Some(0), "course_1");
      Conflicts(existing.schedule, cand)
      && AvailableRooms([Room("C101", Some(20))], [existing], cand) == [Room("C101", Some(20))]
  {
    var cand := Schedule(["Monday", "Wednesday"], "10:00", "11:00");
    var existing := Course("CS101", "Intro", "1", Schedule(["Monday"], "10:00", "11:00"), "C101", "Dr. A", Some(0), "course_1");
    var r := Room("C101", Some(20));
    SharedDayWithoutDayMatch();
    LexLessIsMinutesOrder("10:00", "11:00");
    assert "Monday" in existing.schedule.days && "Monday" in cand.days;
    assert !Occupies(existing, cand);
    assert [existing][..0] == [];
    assert BusyRooms([existing], cand) == [];
    assert [r][..0] == [];
    assert Filter([r], RoomFree([])) == [r];
  }

  /** `get_available_rooms` of the nested revision: collect busy rooms, then keep the free records. */
  method GetAvailableRooms(db: Database, target: Schedule) returns (available: seq<Room>)
    ensures available == AvailableRooms(db.rooms, db.courses, target)
  {
    var busy := BusyRoomsOf(db, target);
    available := FreeRooms(db.rooms, busy);
  }

  /** `get_available_rooms` of the flat revision: the same, over room-id strings. */
  method GetAvailableRoomIds(db: Database, target: Schedule) returns (available: seq<string>)
    ensures available == AvailableRoomIds(db.rooms, db.courses, target)
  {
    var busy := BusyRoomsOf(db, target);
    available := FreeNames(Map(db.rooms, RoomId), busy);
  }

  /** The second loop of the nested `get_available_rooms`: room records whose id is not busy. */
  method FreeRooms(allRooms: seq<Room>, busy: seq<string>) returns (available: seq<Room>)
    ensures available == Filter(allRooms, RoomFree(busy))
  {
    available := [];
    var j := 0;
    while j < |allRooms|
      invariant 0 <= j <= |allRooms|
      invariant available == Filter(allRooms[..j], RoomFree(busy))
    {
      FilterPrefixStep(allRooms, j, RoomFree(busy));
      if allRooms[j].room !in busy {
        available := available + [allRooms[j]];
      }
      j := j + 1;
    }
    assert allRooms[..j] == allRooms;
  }

  /** The second loop of the flat `get_available_rooms` / `get_available_instructors`: strings not busy. */
  method FreeNames(all: seq<string>, busy: seq<string>) returns (available: seq<string>)
    ensures available == Filter(all, NotListed(busy))
  {
    available := [];
    var j := 0;
    while j < |all|
      invariant 0 <= j <= |all|
      invariant available == Filter(all[..j], NotListed(busy))
    {
      FilterPrefixStep(all, j, NotListed(busy));
      if all[j] !in busy {
        available := available + [all[j]];
      }
      j := j + 1;
    }
    assert all[..j] == all;
  }

  /** The second loop of the nested `get_available_instructors`: id/name pairs whose name is not busy. */
  method FreeRefs(all: seq<InstructorRef>, busy: seq<string>) returns (available: seq<InstructorRef>)
    ensures available == Filter(all, RefFree(busy))
  {
    available := [];
    var j := 0;
    while j < |all|
      invariant 0 <= j <= |all|
      invariant available == Filter(all[..j], RefFree(busy))
    {
      FilterPrefixStep(all, j, RefFree(busy));
      if all[j].fullName !in busy {
        available := available + [all[j]];
      }
      j := j + 1;
    }
    assert all[..j] == all;
  }

  /** The busy-room loop both revisions share: scan the query's result, keep overlapping rooms. */
  method BusyRoomsOf(db: Database, target: Schedule) returns (busy: seq<string>)
    ensures busy == BusyRooms(db.courses, target)
  {
    busy := [];
    var i := 0;
    while i < |db.courses|
      invariant 0 <= i <= |db.courses|
      invariant busy == BusyRooms(db.courses[..i], target)
    {
      var doc := db.courses[i];
      assert db.courses[..i + 1][..i] == db.courses[..i];
      if DayMatch(doc.schedule.days, target.days) {
        if LexLess(doc.schedule.startTime, target.endTime) && LexLess(target.startTime, doc.schedule.endTime) {
          busy := busy + [doc.room];
        }
      }
      i := i + 1;
    }
    assert db.courses[..i] == db.courses;
  }

  /** The busy-instructor loop both revisions share. */
  method BusyInstructorsOf(db: Database, target: Schedule) returns (busy: seq<string>)
    ensures busy == BusyInstructors(db.courses, target)
  {
    busy := [];
    var i := 0;
    while i < |db.courses|
      invariant 0 <= i <= |db.courses|
      invariant busy == BusyInstructors(db.courses[..i], target)
    {
      var doc := db.courses[i];
      assert db.courses[..i + 1][..i] == db.courses[..i];
      if DayMatch(doc.schedule.days, target.days) {
        if LexLess(doc.schedule.startTime, target.endTime) && LexLess(target.startTime, doc.schedule.endTime) {
          busy := busy + [doc.instructorName];
        }
      }
      i := i + 1;
    }
    assert db.courses[..i] == db.courses;
  }

  /** `get_available_instructors` of the nested revision. */
  method GetAvailableInstructors(db: Database, target: Schedule) returns (available: seq<InstructorRef>)
    ensures available == AvailableInstructors(db.instructors, db.courses, target)
  {
    var busy := BusyInstructorsOf(db, target);
    available := FreeRefs(Map(db.instructors, RefOf), busy);
  }

  /** `get_available_instructors` of the flat revision, over name strings. */
  method GetAvailableInstructorNames(db: Database, target: Schedule) returns (available: seq<string>)
    ensures available == AvailableInstructorNames(db.instructors, db.courses, target)
  {
    var busy := BusyInstructorsOf(db, target);
    available := FreeNames(Map(db.instructors, NameOf), busy);
  }
}
