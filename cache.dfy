/**
 * The Redis layer of the course activity service: the `_k_*` key formatters, the
 * `cache_*` writers, the `get_cached_*` readers and the `invalidate_*` deleters over
 * one string-to-string map. Values are the JSON texts the writers store.
 */
module Cache {
  import opened Wrappers

  /** One cached item, named by the key helper that addresses it. */
  datatype CacheRef =
    | InstructorCourses(instructorId: string)
    | AvailableCourses(studentId: string)
    | InstructorCourseAssignments(instructorId: string)
    | CourseAssignments(courseId: string)
    | EnrolledStudents(courseId: string)
    | StudentCourses(studentId: string)
    | StudentCourseDetails(studentId: string, courseId: string)
    | PendingTasks(studentId: string)

  /** The key family of each helper, the text before the first `:`. */
  function Prefix(ref: CacheRef): string
  {
    match ref
    case InstructorCourses(_) => "instructor_courses"
    case AvailableCourses(_) => "available_courses"
    case InstructorCourseAssignments(_) => "instructor_course_assignments"
    case CourseAssignments(_) => "assignment_list"
    case EnrolledStudents(_) => "enrolled_students"
    case StudentCourses(_) => "student_courses"
    case StudentCourseDetails(_, _) => "student_course_details"
    case PendingTasks(_) => "pending_tasks"
  }

  /** The text after the family's `:`. */
  function Suffix(ref: CacheRef): string
  {
    match ref
    case StudentCourseDetails(s, c) => s + ":" + c
    case InstructorCourses(id) => id
    case AvailableCourses(id) => id
    case InstructorCourseAssignments(id) => id
    case CourseAssignments(id) => id
    case EnrolledStudents(id) => id
    case StudentCourses(id) => id
    case PendingTasks(id) => id
  }

  /** Keys can be told apart only when the student id of a two-part key holds no `:`. */
  predicate Unambiguous(ref: CacheRef)
  {
    ref.StudentCourseDetails? ==> ':' !in ref.studentId
  }

  /** Everything before the first `:` of a text (all of it when there is none). */
  function BeforeColon(s: string): (r: string)
    ensures |r| <= |s| && r == s[..|r|] && ':' !in r
  {
    if s == [] || s[0] == ':' then [] else [s[0]] + BeforeColon(s[1..])
  }

  /** Everything after the first `:` (nothing when there is none). */
  function AfterColon(s: string): (r: string)
    ensures |r| < |s| || r == []
  {
    if s == [] then [] else if s[0] == ':' then s[1..] else AfterColon(s[1..])
  }

  /** A colon-free head followed by `:` is split off exactly. */
  lemma {:induction false} SplitAtColon(head: string, rest: string)
    requires ':' !in head
    ensures BeforeColon(head + ":" + rest) == head
    ensures AfterColon(head + ":" + rest) == rest
  {
    if head != [] {
      assert (head + ":" + rest)[0] == head[0];
      assert (head + ":" + rest)[1..] == head[1..] + ":" + rest;
      SplitAtColon(head[1..], rest);
    } else {
      assert head + ":" + rest == [':'] + rest;
    }
  }

  /**
   * `_k_*(...)`: `"<prefix>:<id>"`, and `"student_course_details:<student>:<course>"`.
   * The key's text before its first `:` is the family prefix, the rest is the id part.
   */
  function Key(ref: CacheRef): (k: string)
    ensures BeforeColon(k) == Prefix(ref) && AfterColon(k) == Suffix(ref)
  {
    PrefixNamesFamily(ref);
    SplitAtColon(Prefix(ref), Suffix(ref));
    Prefix(ref) + ":" + Suffix(ref)
  }

  /** The family a key prefix names, as an index. */
  function FamilyOf(prefix: string): int
  {
    if prefix == "instructor_courses" then 0
    else if prefix == "available_courses" then 1
    else if prefix == "instructor_course_assignments" then 2
    else if prefix == "assignment_list" then 3
    else if prefix == "enrolled_students" then 4
    else if prefix == "student_courses" then 5
    else if prefix == "student_course_details" then 6
    else if prefix == "pending_tasks" then 7
    else -1
  }

  function Family(ref: CacheRef): int
  {
    match ref
    case InstructorCourses(_) => 0
    case AvailableCourses(_) => 1
    case InstructorCourseAssignments(_) => 2
    case CourseAssignments(_) => 3
    case EnrolledStudents(_) => 4
    case StudentCourses(_) => 5
    case StudentCourseDetails(_, _) => 6
    case PendingTasks(_) => 7
  }

  /** No prefix contains the separator. */
  lemma PrefixColonFree(ref: CacheRef)
    ensures ':' !in Prefix(ref)
  {
  }

  /** The eight prefixes are distinct and colon-free, so the prefix determines the family. */
  lemma PrefixNamesFamily(ref: CacheRef)
    ensures FamilyOf(Prefix(ref)) == Family(ref)
    ensures ':' !in Prefix(ref)
  {
    PrefixColonFree(ref);
  }

  /** Different items never share a key, as long as two-part keys are unambiguous. */
  lemma {:induction false} KeyInjective(a: CacheRef, b: CacheRef)
    requires Unambiguous(a) && Unambiguous(b)
    requires Key(a) == Key(b)
    ensures a == b
  {
    PrefixNamesFamily(a);
    PrefixNamesFamily(b);
    assert Prefix(a) == Prefix(b) && Suffix(a) == Suffix(b);
    if a.StudentCourseDetails? {
      assert b.StudentCourseDetails?;
      SplitAtColon(a.studentId, a.courseId);
      SplitAtColon(b.studentId, b.courseId);
    }
  }

  /** Without that condition two details entries collide. */
  lemma DetailsKeysCanCollide()
    ensures Key(StudentCourseDetails("a:b", "c")) == Key(StudentCourseDetails("a", "b:c"))
  {
    assert "a:b" + ":" + "c" == "a" + ":" + "b:c";
  }

  /** The pattern `available_courses:*` of `invalidate_available_courses_cache`. */
  const AvailablePattern: string := "available_courses:"

  predicate MatchesAvailable(k: string)
  {
    |AvailablePattern| <= |k| && k[..|AvailablePattern|] == AvailablePattern
  }

  /** Only the keys of `_k_available_courses` match the pattern. */
  lemma {:induction false} OnlyAvailableKeysMatch(ref: CacheRef)
    ensures MatchesAvailable(Key(ref)) <==> ref.AvailableCourses?
  {
    PrefixNamesFamily(ref);
    var k := Key(ref);
    if MatchesAvailable(k) {
      assert k == k[..18] + k[18..];
      assert AvailablePattern == "available_courses" + ":";
      SplitAtColon("available_courses", k[18..]);
      assert Prefix(ref) == "available_courses";
    }
    if ref.AvailableCourses? {
      assert k == Prefix(ref) + ":" + Suffix(ref);
      assert k[..18] == AvailablePattern;
    }
  }

  /** `get_cached_*`: None when the key is missing or holds an empty text (`if not data`). */
  function CachedValue(entries: map<string, string>, ref: CacheRef): (r: Option<string>)
    ensures r.Some? <==> Key(ref) in entries && entries[Key(ref)] != ""
    ensures r.Some? ==> r.value == entries[Key(ref)]
  {
    if Key(ref) in entries && entries[Key(ref)] != "" then Some(entries[Key(ref)]) else None
  }

  /** The map after the sweep of `invalidate_available_courses_cache`. */
  function WithoutAvailable(entries: map<string, string>): map<string, string>
  {
    map k | k in entries && !MatchesAvailable(k) :: entries[k]
  }

  /** The keys the sweep deletes. */
  function AvailableKeys(entries: map<string, string>): set<string>
  {
    set k | k in entries && MatchesAvailable(k)
  }

  /** A non-empty value written by `cache_*` is what the matching `get_cached_*` returns. */
  lemma ReadAfterWrite(entries: map<string, string>, ref: CacheRef, value: string)
    requires value != ""
    ensures CachedValue(entries[Key(ref) := value], ref) == Some(value)
  {
  }

  /** After `invalidate_*` the matching `get_cached_*` returns None. */
  lemma ReadAfterInvalidate(entries: map<string, string>, ref: CacheRef)
    ensures CachedValue(entries - {Key(ref)}, ref) == None
  {
  }

  /** Writing or deleting one item's key leaves every other item's cached value alone. */
  lemma {:induction false} OtherItemsUntouched(entries: map<string, string>, changed: CacheRef, other: CacheRef, value: string)
    requires Unambiguous(changed) && Unambiguous(other) && changed != other
    ensures CachedValue(entries - {Key(changed)}, other) == CachedValue(entries, other)
    ensures CachedValue(entries[Key(changed) := value], other) == CachedValue(entries, other)
  {
    if Key(changed) == Key(other) {
      KeyInjective(changed, other);
    }
  }

  /** The sweep empties every available-courses item and keeps every other item. */
  lemma {:induction false} SweepEffect(entries: map<string, string>, ref: CacheRef)
    ensures CachedValue(WithoutAvailable(entries), ref)
         == if ref.AvailableCourses? then None else CachedValue(entries, ref)
  {
    OnlyAvailableKeysMatch(ref);
  }

  /** The sweep removes exactly the matching keys and changes no remaining value. */
  lemma SweepExactly(entries: map<string, string>)
    ensures WithoutAvailable(entries).Keys == entries.Keys - AvailableKeys(entries)
    ensures forall k :: k in WithoutAvailable(entries) ==> WithoutAvailable(entries)[k] == entries[k]
  {
  }

  /** Items that have a `cache_*` writer and a `get_cached_*` reader (instructor course assignments have neither). */
  predicate HasWriter(ref: CacheRef)
  {
    !ref.InstructorCourseAssignments?
  }

  /** Items that have a single-key `invalidate_*` (course assignment lists have none). */
  predicate HasDeleter(ref: CacheRef)
  {
    !ref.CourseAssignments?
  }

  /** The Redis database: key to stored text. */
  class Redis {
    var entries: map<string, string>

    constructor ()
      ensures entries == map[]
    {
      entries := map[];
    }

    /** `cache_*(..., data)`: `set` of the key (the TTL is not modelled). */
    method Put(ref: CacheRef, value: string) returns (success: bool)
      requires HasWriter(ref)
      modifies this
      ensures success
      ensures entries == old(entries)[Key(ref) := value]
    {
      entries := entries[Key(ref) := value];
      return true;
    }

    /** `invalidate_*(...)` for one item: `delete` of its key. */
    method Invalidate(ref: CacheRef) returns (success: bool)
      requires HasDeleter(ref)
      modifies this
      ensures success
      ensures entries == old(entries) - {Key(ref)}
    {
      entries := entries - {Key(ref)};
      return true;
    }

    /** `invalidate_available_courses_cache()`: delete every key matching the pattern and report how many. */
    method InvalidateAllAvailableCourses() returns (success: bool, deletedKeys: nat)
      modifies this
      ensures success
      ensures deletedKeys == |AvailableKeys(old(entries))|
      ensures entries == WithoutAvailable(old(entries))
    {
      var keys := AvailableKeys(entries);
      entries := WithoutAvailable(entries);
      return true, |keys|;
    }

    /** `get_cached_*(...)`. */
    method Get(ref: CacheRef) returns (r: Option<string>)
      requires HasWriter(ref)
      ensures r == CachedValue(entries, ref)
    {
      var k := Key(ref);
      if k in entries && entries[k] != "" {
        return Some(entries[k]);
      }
      return None;
    }
  }
}
