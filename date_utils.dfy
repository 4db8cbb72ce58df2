/** The weekday registry: the fixed Monday-first table of seven weekdays and
    the lookups and cyclic moves over it. */
module DateUtils {
  import opened Wrappers
  import opened Types
  import Seqs

  /** `WEEKDAYS`: Monday through Sunday; only Saturday and Sunday are weekend days. */
  const Weekdays: seq<WeekdayInfo> := [
    WeekdayInfo(Monday, "Monday", "Mon", false),
    WeekdayInfo(Tuesday, "Tuesday", "Tue", false),
    WeekdayInfo(Wednesday, "Wednesday", "Wed", false),
    WeekdayInfo(Thursday, "Thursday", "Thu", false),
    WeekdayInfo(Friday, "Friday", "Fri", false),
    WeekdayInfo(Saturday, "Saturday", "Sat", true),
    WeekdayInfo(Sunday, "Sunday", "Sun", true)
  ]

  /** Reference numbering of the days, independent of the table: Monday = 0 … Sunday = 6. */
  function Ordinal(w: Weekday): (i: nat)
    ensures i < 7
  {
    match w
    case Monday => 0
    case Tuesday => 1
    case Wednesday => 2
    case Thursday => 3
    case Friday => 4
    case Saturday => 5
    case Sunday => 6
  }

  function FromOrdinal(i: nat): Weekday
    requires i < 7
  {
    if i == 0 then Monday
    else if i == 1 then Tuesday
    else if i == 2 then Wednesday
    else if i == 3 then Thursday
    else if i == 4 then Friday
    else if i == 5 then Saturday
    else Sunday
  }

  /** The key as the TypeScript code spells it, for the error message. */
  function KeyName(w: Weekday): string
  {
    match w
    case Monday => "monday"
    case Tuesday => "tuesday"
    case Wednesday => "wednesday"
    case Thursday => "thursday"
    case Friday => "friday"
    case Saturday => "saturday"
    case Sunday => "sunday"
  }

  lemma OrdinalRoundTrip(w: Weekday, i: nat)
    requires i < 7
    ensures Ordinal(w) < 7 && FromOrdinal(Ordinal(w)) == w
    ensures Ordinal(FromOrdinal(i)) == i
  {
  }

  /** The table has seven entries, in Monday-first order, with distinct keys,
      and exactly the last two are weekend days. */
  lemma WeekdaysTable()
    ensures |Weekdays| == 7
    ensures forall i :: 0 <= i < 7 ==> Weekdays[i].key == FromOrdinal(i)
    ensures forall i :: 0 <= i < 7 ==> Weekdays[i].isWeekend == (i >= 5)
    ensures forall i, j :: 0 <= i < j < 7 ==> Weekdays[i].key != Weekdays[j].key
  {
  }

  function HasKey(w: Weekday): WeekdayInfo -> bool
  {
    (d: WeekdayInfo) => d.key == w
  }

  /** Searching the table for a key always finds it, at the key's ordinal. */
  lemma IndexOfKey(w: Weekday)
    ensures Seqs.FindIndex(Weekdays, HasKey(w)) == Ordinal(w)
  {
    WeekdaysTable();
    var i := Seqs.FindIndex(Weekdays, HasKey(w));
    assert HasKey(w)(Weekdays[Ordinal(w)]);
    assert i != -1;
    assert FromOrdinal(i) == w;
    OrdinalRoundTrip(w, i);
  }

  /** `weekdayMap` of `getCurrentWeekday`: the host's Sunday-first day index
      (0 = Sunday … 6 = Saturday) to a weekday key. */
  const WeekdayMap: map<int, Weekday> :=
    map[0 := Sunday, 1 := Monday, 2 := Tuesday, 3 := Wednesday, 4 := Thursday, 5 := Friday, 6 := Saturday]

  /** The pure part of `getCurrentWeekday`: the day index the clock gives is always in 0..6. */
  function WeekdayOfDayIndex(dayIndex: int): (w: Weekday)
    requires 0 <= dayIndex < 7
    ensures w == FromOrdinal((dayIndex + 6) % 7)
    ensures dayIndex == 0 <==> w == Sunday
  {
    WeekdayMap[dayIndex]
  }

  /** The Sunday-first index of a weekday. */
  function DayIndex(w: Weekday): (i: nat)
    ensures i < 7
  {
    (Ordinal(w) + 1) % 7
  }

  /** The day-index map is a bijection from 0..6 onto the seven keys. */
  lemma DayIndexBijection(w: Weekday, i: int)
    requires 0 <= i < 7
    ensures WeekdayOfDayIndex(DayIndex(w)) == w
    ensures DayIndex(WeekdayOfDayIndex(i)) == i
  {
  }

  /** `getWeekdayInfo`: the table entry for a key; the "Invalid weekday" error
      is raised when the key is not in the table. */
  function GetWeekdayInfo(w: Weekday): (r: Result<WeekdayInfo, string>)
    ensures r.Success? && r.value.key == w
    ensures r.Success? && r.value == Weekdays[Ordinal(w)]
  {
    IndexOfKey(w);
    match Seqs.Find(Weekdays, HasKey(w))
    case None => Failure("Invalid weekday: " + KeyName(w))
    case Some(info) => Success(info)
  }

  /** The weekend test: Saturday and Sunday, the last two days of the
      Monday-first week. */
  function IsWeekend(w: Weekday): (b: bool)
    ensures b <==> Ordinal(w) >= 5
  {
    w == Saturday || w == Sunday
  }

  /** The weekend test agrees with the flag stored in the weekday's table entry. */
  lemma IsWeekendMatchesTable(w: Weekday)
    ensures IsWeekend(w) == GetWeekdayInfo(w).value.isWeekend
    ensures IsWeekend(w) <==> Ordinal(w) >= 5
  {
    WeekdaysTable();
  }

  /** `getWeekdays(weekendOnly?)`: the whole table, or the entries whose flag
      equals `weekendOnly`, in table order. */
  function GetWeekdays(weekendOnly: Option<bool>): (r: seq<WeekdayInfo>)
    ensures weekendOnly.None? ==> r == Weekdays
    ensures weekendOnly == Some(true) ==> r == Weekdays[5..]
    ensures weekendOnly == Some(false) ==> r == Weekdays[..5]
  {
    match weekendOnly
    case None => Weekdays
    case Some(b) =>
      WeekdaysSplitByFlag(b);
      Seqs.Filter(Weekdays, FlagIs(b))
  }

  function FlagIs(b: bool): WeekdayInfo -> bool
  {
    (d: WeekdayInfo) => d.isWeekend == b
  }

  /** Filtering the table by its weekend flag keeps the last two entries for
      `true` and the first five for `false`. */
  lemma WeekdaysSplitByFlag(b: bool)
    ensures Seqs.Filter(Weekdays, FlagIs(b)) == if b then Weekdays[5..] else Weekdays[..5]
  {
    if b {
      assert Seqs.Filter(Weekdays, FlagIs(true)) == Weekdays[5..];
    } else {
      assert Seqs.Filter(Weekdays, FlagIs(false)) == Weekdays[..5];
    }
  }

  /** The weekend selection holds exactly the entries flagged as weekend,
      Saturday then Sunday; the other selection holds exactly the remaining
      five, Monday through Friday. */
  lemma GetWeekdaysSelections(b: bool)
    ensures |GetWeekdays(Some(b))| == if b then 2 else 5
    ensures forall i :: 0 <= i < |GetWeekdays(Some(b))| ==> GetWeekdays(Some(b))[i].isWeekend == b
    ensures forall i :: 0 <= i < 7 && Weekdays[i].isWeekend == b ==> Weekdays[i] in GetWeekdays(Some(b))
    ensures b ==> GetWeekdays(Some(b))[0].key == Saturday && GetWeekdays(Some(b))[1].key == Sunday
    ensures !b ==> forall i :: 0 <= i < 5 ==> GetWeekdays(Some(b))[i].key == FromOrdinal(i)
  {
    WeekdaysTable();
    var r := GetWeekdays(Some(b));
    forall i | 0 <= i < 7 && Weekdays[i].isWeekend == b
      ensures Weekdays[i] in r
    {
      if b { assert Weekdays[i] == r[i - 5]; } else { assert Weekdays[i] == r[i]; }
    }
  }

  /** Reference successor in the Monday-first cycle, independent of the table. */
  function Succ(w: Weekday): (r: Weekday)
    ensures Ordinal(r) == (Ordinal(w) + 1) % 7
  {
    match w
    case Monday => Tuesday
    case Tuesday => Wednesday
    case Wednesday => Thursday
    case Thursday => Friday
    case Friday => Saturday
    case Saturday => Sunday
    case Sunday => Monday
  }

  /** Reference predecessor in the Monday-first cycle. */
  function Pred(w: Weekday): (r: Weekday)
    ensures Ordinal(r) == (Ordinal(w) + 6) % 7
  {
    match w
    case Monday => Sunday
    case Tuesday => Monday
    case Wednesday => Tuesday
    case Thursday => Wednesday
    case Friday => Thursday
    case Saturday => Friday
    case Sunday => Saturday
  }

  lemma NextEntry(w: Weekday)
    ensures |Weekdays| == 7 && Weekdays[(Ordinal(w) + 1) % 7].key == Succ(w)
  {
    match w
    case Monday =>
    case Tuesday =>
    case Wednesday =>
    case Thursday =>
    case Friday =>
    case Saturday =>
    case Sunday =>
  }

  lemma PreviousEntry(w: Weekday)
    ensures |Weekdays| == 7 && Weekdays[if Ordinal(w) == 0 then 6 else Ordinal(w) - 1].key == Pred(w)
  {
    match w
    case Monday =>
    case Tuesday =>
    case Wednesday =>
    case Thursday =>
    case Friday =>
    case Saturday =>
    case Sunday =>
  }

  /** `getNextWeekday`: the key of the entry at `(i + 1) % 7`, where `i` is the
      current key's index, so Sunday wraps round to Monday. */
  function GetNextWeekday(current: Weekday): (r: Weekday)
    ensures r == Succ(current)
    ensures Ordinal(r) == (Ordinal(current) + 1) % 7
  {
    IndexOfKey(current);
    NextEntry(current);
    var currentIndex := Seqs.FindIndex(Weekdays, HasKey(current));
    var nextIndex := (currentIndex + 1) % |Weekdays|;
    Weekdays[nextIndex].key
  }

  /** `getPreviousWeekday`: the key of the entry before the current one; index
      0 (Monday) goes to the last index (Sunday). */
  function GetPreviousWeekday(current: Weekday): (r: Weekday)
    ensures r == Pred(current)
    ensures Ordinal(r) == (Ordinal(current) + 6) % 7
  {
    IndexOfKey(current);
    PreviousEntry(current);
    var currentIndex := Seqs.FindIndex(Weekdays, HasKey(current));
    var prevIndex := if currentIndex == 0 then |Weekdays| - 1 else currentIndex - 1;
    Weekdays[prevIndex].key
  }

  lemma NextOfSundayIsMonday()
    ensures GetNextWeekday(Sunday) == Monday
    ensures GetPreviousWeekday(Monday) == Sunday
  {
  }

  /** Previous and next undo each other. */
  lemma PreviousNextInverse(w: Weekday)
    ensures GetPreviousWeekday(GetNextWeekday(w)) == w
    ensures GetNextWeekday(GetPreviousWeekday(w)) == w
  {
  }

  /** `n` applications of a step function to a weekday. */
  function Iterate(step: Weekday -> Weekday, w: Weekday, n: nat): Weekday
  {
    if n == 0 then w else step(Iterate(step, w, n - 1))
  }

  lemma ModSucc(m: nat)
    ensures (m % 7 + 1) % 7 == (m + 1) % 7
  {
    var q, k := m / 7, m % 7;
    assert m == 7 * q + k;
    if k < 6 {
      assert m + 1 == 7 * q + (k + 1);
    } else {
      assert m + 1 == 7 * (q + 1);
    }
  }

  /** Iterating a step that moves one day forward moves `n` days forward. */
  lemma {:induction false} IterateIsRotation(step: Weekday -> Weekday, w: Weekday, n: nat)
    requires forall x :: Ordinal(step(x)) == (Ordinal(x) + 1) % 7
    ensures Ordinal(Iterate(step, w, n)) == (Ordinal(w) + n) % 7
  {
    if n > 0 {
      IterateIsRotation(step, w, n - 1);
      ModSucc(Ordinal(w) + n - 1);
    }
  }

  /** Applying `getNextWeekday` `n` times returns to the starting day exactly
      when `n` is a multiple of seven; in particular seven times does. */
  lemma NextRepeatedReturnsWhenMultipleOfSeven(w: Weekday, n: nat)
    ensures Iterate(GetNextWeekday, w, n) == w <==> n % 7 == 0
  {
    IterateIsRotation(GetNextWeekday, w, n);
    OrdinalInjective(Iterate(GetNextWeekday, w, n), w);
    ModShift(Ordinal(w), n);
  }

  lemma ModShift(o: nat, n: nat)
    requires o < 7
    ensures (o + n) % 7 == o <==> n % 7 == 0
  {
    var q, k := n / 7, n % 7;
    assert n == 7 * q + k;
    assert o + n == 7 * q + (o + k);
    if o + k < 7 {
      assert (o + n) % 7 == o + k;
    } else {
      assert o + n == 7 * (q + 1) + (o + k - 7);
      assert (o + n) % 7 == o + k - 7;
    }
  }

  lemma OrdinalInjective(a: Weekday, b: Weekday)
    ensures Ordinal(a) == Ordinal(b) ==> a == b
  {
    OrdinalRoundTrip(a, 0);
    OrdinalRoundTrip(b, 0);
  }
}
