/**
  The "week ending" bucketing of src/utils.py (`round_to_end_of_week`).

  A timestamp is a day number plus the second of that day. Day 0 is
  1970-01-01, a Thursday, so the Python `weekday()` (Monday = 0 ... Sunday = 6)
  of day `d` is `(d + 3) % 7`; Dafny's `%` is Euclidean, so this also holds for
  days before 1970.
*/
module Dates {

  type Day = int

  const SecondsPerDay: nat := 86400

  type SecondOfDay = s: nat | s < SecondsPerDay

  datatype Timestamp = Timestamp(day: Day, second: SecondOfDay)

  const Monday: nat := 0
  const Tuesday: nat := 1
  const Wednesday: nat := 2
  const Thursday: nat := 3
  const Friday: nat := 4
  const Saturday: nat := 5
  const Sunday: nat := 6

  /** Python's `date.weekday()`. */
  function Weekday(d: Day): (w: nat)
    ensures w < 7
  {
    (d + 3) % 7
  }

  /**
    `round_to_end_of_week`: Monday and Tuesday go back `3 + weekday` days, every
    other day goes back `weekday - 4` days (forward when that is negative).
    Only whole days are subtracted: the time of day is kept.
  */
  function RoundToEndOfWeek(t: Timestamp): (r: Timestamp)
    ensures Weekday(r.day) == Friday
    ensures t.day - 4 <= r.day <= t.day + 2
    ensures r.second == t.second
  {
    var w := Weekday(t.day);
    var r := if w < 2 then t.(day := t.day - (3 + w)) else t.(day := t.day - (w - 4));
    WeekdayAfter(t.day, r.day - t.day);
    r
  }

  /** pandas `.dt.floor("D")`: midnight of the same day. */
  function FloorToDay(t: Timestamp): Timestamp
  {
    t.(second := 0)
  }

  /** The "Week ending" column: the rounded timestamp floored to its day, a Friday near the completion day. */
  function WeekEnding(t: Timestamp): (d: Day)
    ensures Weekday(d) == Friday
    ensures t.day - 4 <= d <= t.day + 2
  {
    FloorToDay(RoundToEndOfWeek(t)).day
  }

  /** Reference table of the shift applied to each weekday, in days. */
  function ShiftFor(w: nat): int
    requires w < 7
  {
    match w
    case 0 => -3  // Monday: back to the previous Friday
    case 1 => -4  // Tuesday: back to the previous Friday
    case 2 => 2   // Wednesday: forward to the coming Friday
    case 3 => 1   // Thursday: forward to the coming Friday
    case 4 => 0   // Friday: itself
    case 5 => -1  // Saturday: BACK to the Friday just gone
    case _ => -2  // Sunday: BACK to the Friday just gone
  }

  lemma {:induction false} WeekdayAfter(d: Day, k: int)
    ensures Weekday(d + k) == (Weekday(d) + k) % 7
  {
    var q := (d + 3) / 7;
    assert d + 3 == 7 * q + Weekday(d);
    assert d + k + 3 == 7 * q + (Weekday(d) + k);
  }

  /** Each weekday is shifted by exactly the table's amount, and the time of day is kept. */
  lemma RoundShift(t: Timestamp)
    ensures RoundToEndOfWeek(t).day == t.day + ShiftFor(Weekday(t.day))
    ensures RoundToEndOfWeek(t).second == t.second
  {
  }

  /** Saturday and Sunday are rounded back to the Friday just gone, not forward. */
  lemma WeekendRoundsBack(t: Timestamp)
    requires Weekday(t.day) == Saturday || Weekday(t.day) == Sunday
    ensures RoundToEndOfWeek(t).day < t.day
    ensures t.day - RoundToEndOfWeek(t).day == Weekday(t.day) - Friday
  {
  }

  /** Whatever the weekday of the input, the result is a Friday. */
  lemma {:induction false} RoundLandsOnFriday(t: Timestamp)
    ensures Weekday(RoundToEndOfWeek(t).day) == Friday
  {
    var w := Weekday(t.day);
    RoundShift(t);
    WeekdayAfter(t.day, ShiftFor(w));
  }

  /** Two Fridays less than a week apart are the same day. */
  lemma {:induction false} FridaysAWeekApart(f: Day, g: Day)
    requires Weekday(f) == Friday && Weekday(g) == Friday
    requires f <= g < f + 7
    ensures f == g
  {
    WeekdayAfter(f, g - f);
  }

  /**
    Friday `f` is the week ending of exactly the seven days from the Wednesday
    before it (`f - 2`) to the Tuesday after it (`f + 4`).
  */
  lemma {:induction false} FridayOwnsWindow(t: Timestamp, f: Day)
    ensures RoundToEndOfWeek(t).day == f <==> Weekday(f) == Friday && f - 2 <= t.day <= f + 4
  {
    var g := RoundToEndOfWeek(t).day;
    RoundShift(t);
    RoundLandsOnFriday(t);
    assert g - 2 <= t.day <= g + 4;
    if Weekday(f) == Friday && f - 2 <= t.day <= f + 4 {
      if f <= g {
        FridaysAWeekApart(f, g);
      } else {
        FridaysAWeekApart(g, f);
      }
    }
  }

  /** Later days never get an earlier week ending: the buckets are ordered. */
  lemma {:induction false} RoundMonotone(t1: Timestamp, t2: Timestamp)
    requires t1.day <= t2.day
    ensures RoundToEndOfWeek(t1).day <= RoundToEndOfWeek(t2).day
  {
    var f1, f2 := RoundToEndOfWeek(t1).day, RoundToEndOfWeek(t2).day;
    FridayOwnsWindow(t1, f1);
    FridayOwnsWindow(t2, f2);
    if f2 < f1 {
      FridaysAWeekApart(f2, f1);
    }
  }

  /** Rounding a result again changes nothing. */
  lemma {:induction false} RoundIdempotent(t: Timestamp)
    ensures RoundToEndOfWeek(RoundToEndOfWeek(t)) == RoundToEndOfWeek(t)
  {
    RoundLandsOnFriday(t);
    RoundShift(RoundToEndOfWeek(t));
  }

  /**
    The "Week ending" of a timestamp is the midnight of a Friday at most four
    days before and at most two days after the timestamp's day.
  */
  lemma {:induction false} WeekEndingIsNearbyFriday(t: Timestamp)
    ensures Weekday(WeekEnding(t)) == Friday
    ensures t.day - 4 <= WeekEnding(t) <= t.day + 2
    ensures FloorToDay(RoundToEndOfWeek(t)).second == 0
  {
    RoundLandsOnFriday(t);
    RoundShift(t);
  }
}
