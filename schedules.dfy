/**
 * Weekly schedules and the conflict tests of the information service.
 * Times are the "HH:MM" strings the course documents store; the services
 * compare them with Python's `<` on `str`, which is lexicographic order by
 * code point (`LexLess`). For zero-padded times that order is the order of
 * minutes since midnight (`LexLessIsMinutesOrder`).
 */
module Schedules {

  datatype Schedule = Schedule(days: seq<string>, startTime: string, endTime: string)

  /** Python's `a < b` on strings. */
  predicate LexLess(a: string, b: string)
  {
    if |a| == 0 then |b| > 0
    else if |b| == 0 then false
    else if a[0] != b[0] then a[0] < b[0]
    else LexLess(a[1..], b[1..])
  }

  lemma {:induction false} LexLessIrreflexive(a: string)
    ensures !LexLess(a, a)
  {
    if |a| > 0 {
      LexLessIrreflexive(a[1..]);
    }
  }

  lemma {:induction false} LexLessAsymmetric(a: string, b: string)
    ensures !(LexLess(a, b) && LexLess(b, a))
  {
    if |a| > 0 && |b| > 0 && a[0] == b[0] {
      LexLessAsymmetric(a[1..], b[1..]);
    }
  }

  lemma {:induction false} LexLessTransitive(a: string, b: string, c: string)
    requires LexLess(a, b) && LexLess(b, c)
    ensures LexLess(a, c)
  {
    if |a| > 0 && a[0] == b[0] && b[0] == c[0] {
      LexLessTransitive(a[1..], b[1..], c[1..]);
    }
  }

  /** Distinct strings are always ordered one way or the other. */
  lemma {:induction false} LexLessTotal(a: string, b: string)
    ensures a == b || LexLess(a, b) || LexLess(b, a)
  {
    if |a| > 0 && |b| > 0 && a[0] == b[0] {
      LexLessTotal(a[1..], b[1..]);
      if a[1..] == b[1..] {
        assert a == [a[0]] + a[1..] && b == [b[0]] + b[1..];
      }
    }
  }

  predicate IsDigit(c: char) { '0' <= c <= '9' }

  function DigitValue(c: char): (d: nat)
    requires IsDigit(c)
    ensures d <= 9
  {
    (c as int) - ('0' as int)
  }

  /** A zero-padded "HH:MM" time whose minutes are below 60. */
  predicate IsPaddedTime(t: string)
  {
    |t| == 5 && IsDigit(t[0]) && IsDigit(t[1]) && t[2] == ':' && '0' <= t[3] <= '5' && IsDigit(t[4])
  }

  function Minutes(t: string): (m: nat)
    requires IsPaddedTime(t)
  {
    (DigitValue(t[0]) * 10 + DigitValue(t[1])) * 60 + DigitValue(t[3]) * 10 + DigitValue(t[4])
  }

  /** On padded times the string comparison the code uses is the comparison of minutes. */
  lemma LexLessIsMinutesOrder(a: string, b: string)
    requires IsPaddedTime(a) && IsPaddedTime(b)
    ensures LexLess(a, b) <==> Minutes(a) < Minutes(b)
  {
    assert a[1..][0] == a[1] && b[1..][0] == b[1];
    assert a[1..][1..] == a[2..] && b[1..][1..] == b[2..];
    assert a[2..][1..] == a[3..] && b[2..][1..] == b[3..];
    assert a[3..][1..] == a[4..] && b[3..][1..] == b[4..];
    assert a[4..][1..] == [] && b[4..][1..] == [];
    assert a[2..][0] == a[2] && a[3..][0] == a[3] && a[4..][0] == a[4];
    assert b[2..][0] == b[2] && b[3..][0] == b[3] && b[4..][0] == b[4];
    if a[0] != b[0] {
    } else if a[1] != b[1] {
      assert LexLess(a, b) == LexLess(a[1..], b[1..]);
    } else if a[3] != b[3] {
      assert LexLess(a, b) == LexLess(a[1..], b[1..]) == LexLess(a[2..], b[2..]) == LexLess(a[3..], b[3..]);
    } else {
      assert LexLess(a, b) == LexLess(a[1..], b[1..]) == LexLess(a[2..], b[2..]) == LexLess(a[3..], b[3..]) == LexLess(a[4..], b[4..]);
      assert LexLess(a[4..], b[4..]) == (a[4] < b[4]);
    }
  }

  /** The test `set(days1) & set(days2)` of `has_time_conflict`: some day in both lists. */
  predicate SharesDay(days1: seq<string>, days2: seq<string>)
  {
    exists d :: d in days1 && d in days2
  }

  /** Half-open interval overlap `s1 < e2 and s2 < e1`. */
  predicate Overlaps(s1: string, e1: string, s2: string, e2: string)
  {
    LexLess(s1, e2) && LexLess(s2, e1)
  }

  /** An enrolled course's schedule clashes with a candidate course's schedule (`has_time_conflict`'s loop body). */
  predicate Conflicts(existing: Schedule, candidate: Schedule)
  {
    SharesDay(existing.days, candidate.days)
    && Overlaps(existing.startTime, existing.endTime, candidate.startTime, candidate.endTime)
  }

  /**
   * The Mongo filter `{"$all": target, "$size": len(target)}` on a course's day list:
   * every target day occurs in it and it has exactly as many entries as the target.
   * `$all` with an empty array matches no document.
   */
  predicate DayMatch(courseDays: seq<string>, targetDays: seq<string>)
  {
    |targetDays| > 0
    && (forall t :: t in targetDays ==> t in courseDays)
    && |courseDays| == |targetDays|
  }

  lemma {:induction false} ConflictsSymmetric(a: Schedule, b: Schedule)
    ensures Conflicts(a, b) <==> Conflicts(b, a)
  {
    if SharesDay(a.days, b.days) {
      var d :| d in a.days && d in b.days;
      assert d in b.days && d in a.days;
    }
    if SharesDay(b.days, a.days) {
      var d :| d in b.days && d in a.days;
      assert d in a.days && d in b.days;
    }
  }

  /** Schedules with no common day never conflict, whatever their times. */
  lemma NoCommonDayNoConflict(a: Schedule, b: Schedule)
    requires forall d :: d in a.days ==> d !in b.days
    ensures !Conflicts(a, b)
  {
  }

  /** A course ending exactly when the other starts does not conflict with it, in either role. */
  lemma {:induction false} TouchingDoNotConflict(a: Schedule, b: Schedule)
    requires a.endTime == b.startTime
    ensures !Conflicts(a, b) && !Conflicts(b, a)
  {
    LexLessIrreflexive(a.endTime);
  }

  /** For padded times, a conflict is a shared day plus an overlap of minute intervals. */
  lemma ConflictsInMinutes(a: Schedule, b: Schedule)
    requires IsPaddedTime(a.startTime) && IsPaddedTime(a.endTime)
    requires IsPaddedTime(b.startTime) && IsPaddedTime(b.endTime)
    ensures Conflicts(a, b) <==>
      SharesDay(a.days, b.days)
      && Minutes(a.startTime) < Minutes(b.endTime) && Minutes(b.startTime) < Minutes(a.endTime)
  {
    LexLessIsMinutesOrder(a.startTime, b.endTime);
    LexLessIsMinutesOrder(b.startTime, a.endTime);
  }

  /** A course passing the `$all`/`$size` filter shares a day with the candidate. */
  lemma DayMatchSharesDay(courseDays: seq<string>, targetDays: seq<string>)
    requires DayMatch(courseDays, targetDays)
    ensures SharesDay(courseDays, targetDays)
  {
    assert targetDays[0] in targetDays;
  }

  /**
   * The converse fails: a Monday course shares a day with a Monday-and-Wednesday
   * candidate but does not pass the `$all`/`$size` filter for it.
   */
  lemma SharedDayWithoutDayMatch()
    ensures SharesDay(["Monday"], ["Monday", "Wednesday"])
    ensures !DayMatch(["Monday"], ["Monday", "Wednesday"])
  {
    assert "Monday" in ["Monday"];
  }
}
