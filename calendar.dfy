/** `src/pages/calendar.tsx`: the month grid (leading blanks, then the days
    of the month), the `YYYY-MM-DD` key of a grid day, the selection state
    and month navigation, the day's entries with their indicator bars, and
    the summary of the month shown. Months are the 0-based indices of
    `getMonth`; the proleptic Gregorian calendar stands in for `Date`. */
module Calendar {
  import opened Wrappers
  import opened JsString
  import opened DateUtils
  import Diary

  // ---------------------------------------------------------------------
  // The Gregorian calendar behind `new Date(year, month, day)`

  predicate IsLeapYear(y: int) {
    y % 4 == 0 && (y % 100 != 0 || y % 400 == 0)
  }

  /** `new Date(year, month + 1, 0).getDate()`. */
  function DaysInMonth(y: int, m: nat): (n: nat)
    requires m < 12
    ensures 28 <= n <= 31
    ensures m == 1 ==> (n == 29 <==> IsLeapYear(y))
  {
    if m == 1 then (if IsLeapYear(y) then 29 else 28)
    else if m == 3 || m == 5 || m == 8 || m == 10 then 30
    else 31
  }

  /** Days from 1 January of year 1 to 1 January of year `y`. */
  function DaysBeforeYear(y: int): int {
    365 * (y - 1) + (y - 1) / 4 - (y - 1) / 100 + (y - 1) / 400
  }

  /** Days from 1 January to the first of month `m` of year `y`. */
  function DaysBeforeMonth(y: int, m: nat): int
    requires m <= 12
  {
    if m == 0 then 0 else DaysBeforeMonth(y, m - 1) + DaysInMonth(y, m - 1)
  }

  /** The number of a date counted from 1 January of year 1, which was a
      Monday. */
  function DayNumber(y: int, m: nat, d: int): int
    requires m < 12
  {
    DaysBeforeYear(y) + DaysBeforeMonth(y, m) + d - 1
  }

  /** `getDay()`: 0 for Sunday to 6 for Saturday. */
  function Weekday(n: int): (w: nat)
    ensures w < 7
  {
    (n + 1) % 7
  }

  /** `firstDayOfMonth.getDay()`. */
  function FirstWeekday(y: int, m: nat): (w: nat)
    requires m < 12
    ensures w < 7
  {
    Weekday(DayNumber(y, m, 1))
  }

  /** A year has 366 days when it is a leap year and 365 otherwise, counted
      either month by month or from one 1 January to the next. */
  lemma YearLength(y: int)
    ensures DaysBeforeMonth(y, 12) == if IsLeapYear(y) then 366 else 365
    ensures DaysBeforeYear(y + 1) - DaysBeforeYear(y) == if IsLeapYear(y) then 366 else 365
  {
    MonthsOfYear(y);
    DivStep4(y);
    DivStep100(y);
    DivStep400(y);
  }

  lemma MonthsOfYear(y: int)
    ensures DaysBeforeMonth(y, 12) == 337 + DaysInMonth(y, 1)
  {
    var feb := DaysInMonth(y, 1);
    assert DaysBeforeMonth(y, 1) == 31;
    assert DaysBeforeMonth(y, 2) == 31 + feb;
    assert DaysBeforeMonth(y, 3) == 62 + feb;
    assert DaysBeforeMonth(y, 4) == 92 + feb;
    assert DaysBeforeMonth(y, 5) == 123 + feb;
    assert DaysBeforeMonth(y, 6) == 153 + feb;
    assert DaysBeforeMonth(y, 7) == 184 + feb;
    assert DaysBeforeMonth(y, 8) == 215 + feb;
    assert DaysBeforeMonth(y, 9) == 245 + feb;
    assert DaysBeforeMonth(y, 10) == 276 + feb;
    assert DaysBeforeMonth(y, 11) == 306 + feb;
  }

  lemma DivStep4(y: int)
    ensures y / 4 - (y - 1) / 4 == if y % 4 == 0 then 1 else 0
  {
  }

  lemma DivStep100(y: int)
    ensures y / 100 - (y - 1) / 100 == if y % 100 == 0 then 1 else 0
  {
  }

  lemma DivStep400(y: int)
    ensures y / 400 - (y - 1) / 400 == if y % 400 == 0 then 1 else 0
    ensures y % 400 == 0 ==> y % 100 == 0 && y % 4 == 0
    ensures y % 100 == 0 ==> y % 4 == 0
  {
  }

  /** Moving `days` days on moves the weekday by `days` modulo 7. */
  lemma WeekdayAfter(n: int, days: int)
    ensures Weekday(n + days) == (Weekday(n) + days) % 7
  {
  }

  /** The weekdays agree with the calendar. Day 0 is 1 January of year 1,
      a Monday; with `WeekdayAfter` this fixes the weekday of every date. */
  lemma WeekdayEpoch()
    ensures DayNumber(1, 0, 1) == 0 && Weekday(0) == 1
  {
  }

  /** 1 January 1970 was a Thursday. */
  lemma FirstWeekday1970()
    ensures FirstWeekday(1970, 0) == 4
  {
    assert DaysBeforeYear(1970) == 719162;
  }

  /** 1 January 2025 was a Wednesday and 1 February 2025 a Saturday. */
  lemma FirstWeekday2025()
    ensures FirstWeekday(2025, 0) == 3 && FirstWeekday(2025, 1) == 6
  {
    assert DaysBeforeYear(2025) == 739251;
    assert DaysBeforeMonth(2025, 1) == 31;
  }

  /** `setMonth` with a month outside 0 to 11 carries into the year: the
      month index `12 * year + month` moves by exactly `delta`. */
  function MonthShift(y: int, m: nat, delta: int): (r: (int, nat))
    requires m < 12
    ensures r.1 < 12 && 12 * r.0 + r.1 == 12 * y + m + delta
  {
    (y + (m + delta) / 12, (m + delta) % 12)
  }

  /** The month after starts on the weekday that follows this month's last
      day: the grids of consecutive months fit together. */
  lemma NextMonthWeekday(y: int, m: nat)
    requires m < 12
    ensures var next := MonthShift(y, m, 1);
      FirstWeekday(next.0, next.1) == (FirstWeekday(y, m) + DaysInMonth(y, m)) % 7
  {
    var next := MonthShift(y, m, 1);
    var start := DayNumber(y, m, 1);
    if m == 11 {
      YearLength(y);
      assert next == (y + 1, 0);
      assert DayNumber(y + 1, 0, 1) == start + DaysInMonth(y, m);
    } else {
      assert next == (y, m + 1);
      assert DayNumber(y, m + 1, 1) == start + DaysInMonth(y, m);
    }
    WeekdayAfter(start, DaysInMonth(y, m));
  }

  // ---------------------------------------------------------------------
  // The month grid

  /** The grid cells: `startingDayOfWeek` blanks (`null`), then the days
      1 to `daysInMonth` in order. */
  method CalendarDays(year: int, month: nat) returns (cells: seq<Option<nat>>)
    requires month < 12
    ensures |cells| == FirstWeekday(year, month) + DaysInMonth(year, month)
    ensures forall i :: 0 <= i < FirstWeekday(year, month) ==> cells[i] == None
    ensures forall d :: 1 <= d <= DaysInMonth(year, month) ==>
      cells[FirstWeekday(year, month) + d - 1] == Some(d)
  {
    var startingDayOfWeek := FirstWeekday(year, month);
    var daysInMonth := DaysInMonth(year, month);
    cells := [];
    var i := 0;
    while i < startingDayOfWeek
      invariant 0 <= i <= startingDayOfWeek
      invariant |cells| == i && forall k :: 0 <= k < i ==> cells[k] == None
    {
      cells := cells + [None];
      i := i + 1;
    }
    var day := 1;
    while day <= daysInMonth
      invariant 1 <= day <= daysInMonth + 1
      invariant |cells| == startingDayOfWeek + day - 1
      invariant forall k :: 0 <= k < startingDayOfWeek ==> cells[k] == None
      invariant forall d :: 1 <= d < day ==> cells[startingDayOfWeek + d - 1] == Some(d)
    {
      cells := cells + [Some(day)];
      day := day + 1;
    }
  }

  // ---------------------------------------------------------------------
  // Keys and entries

  /** The key the page builds for a grid day: the year as `${currentYear}`,
      the month and day padded to two digits. */
  function DateKey(year: int, month: nat, day: nat): string {
    IntToString(year) + "-" + ZeroPad(month + 1, 2) + "-" + ZeroPad(day, 2)
  }

  /** For four-digit years the page's key is the key `groupEntriesByDate`
      files that date under. */
  lemma DateKeyIsDayKey(year: int, month: nat, day: nat)
    requires year >= 1000
    ensures DateKey(year, month, day) == DayKey(CivilDate(year, month, day))
  {
    ZeroPadWide(year);
  }

  /** What the calendar reads of an entry: its id, its mood and the local
      date it was created on. */
  datatype DatedEntry = DatedEntry(id: string, mood: Diary.MoodField, created: CivilDate)

  function EntryKey(e: DatedEntry): string {
    DayKey(e.created)
  }

  /** The entries created on `date`, in input order. */
  function EntriesOn(entries: seq<DatedEntry>, date: CivilDate): (r: seq<DatedEntry>)
    ensures forall x :: x in r ==> x.created == date
  {
    if |entries| == 0 then []
    else
      var n := |entries| - 1;
      EntriesOn(entries[..n], date) + (if entries[n].created == date then [entries[n]] else [])
  }

  lemma {:induction false} EntriesWithDayKey(entries: seq<DatedEntry>, date: CivilDate)
    ensures EntriesWithKey(entries, EntryKey, DayKey(date)) == EntriesOn(entries, date)
  {
    if |entries| > 0 {
      var n := |entries| - 1;
      EntriesWithDayKey(entries[..n], date);
      if EntryKey(entries[n]) == DayKey(date) {
        DayKeyInjective(entries[n].created, date);
      }
    }
  }

  /** `getEntriesForDate`: the group under the day's key, or `[]`. */
  function EntriesForDate(groups: seq<Group<DatedEntry>>, year: int, month: nat, day: nat): seq<DatedEntry> {
    Lookup(groups, DateKey(year, month, day))
  }

  /** On the groups of the entries, a grid day of a four-digit year shows
      exactly the entries created that day, in their order, and `[]` when
      there are none. */
  lemma EntriesForDateOfGroups(entries: seq<DatedEntry>, year: int, month: nat, day: nat)
    requires year >= 1000
    ensures EntriesForDate(GroupBy(entries, EntryKey), year, month, day) ==
      EntriesOn(entries, CivilDate(year, month, day))
  {
    DateKeyIsDayKey(year, month, day);
    GroupByLookup(entries, EntryKey, DayKey(CivilDate(year, month, day)));
    EntriesWithDayKey(entries, CivilDate(year, month, day));
  }

  // ---------------------------------------------------------------------
  // Indicators

  const BorderColor: string := "var(--color-border)"

  function KnownMoodColor(m: Diary.Mood): (c: string)
    ensures |c| == 7 && c[0] == '#'
  {
    match m
    case Happy => "#FCD34D"
    case Sad => "#60A5FA"
    case Angry => "#F87171"
    case Anxious => "#A78BFA"
    case Excited => "#FB923C"
    case Calm => "#34D399"
    case Frustrated => "#6B7280"
    case Content => "#10B981"
  }

  /** `moodColors[mood] || "var(--color-border)"`. */
  function MoodColor(mood: Diary.MoodField): (c: string)
    ensures c == BorderColor <==> mood.Unknown?
  {
    match mood
    case Known(m) =>
      var c := KnownMoodColor(m);
      assert c[0] != BorderColor[0];
      c
    case Unknown(_) => BorderColor
  }

  /** The bars under a day: the colours of its first three entries. */
  function Indicators(dayEntries: seq<DatedEntry>): (bars: seq<string>)
    ensures |bars| == if |dayEntries| < 3 then |dayEntries| else 3
    ensures forall i :: 0 <= i < |bars| ==> bars[i] == MoodColor(dayEntries[i].mood)
  {
    var shown := if |dayEntries| < 3 then dayEntries else dayEntries[..3];
    seq(|shown|, i requires 0 <= i < |shown| => MoodColor(shown[i].mood))
  }

  /** The `+N more` note, present only past three entries. */
  function MoreNote(count: nat): (note: Option<string>)
    ensures note.Some? <==> count > 3
  {
    if count > 3 then Some("+" + NatToString(count - 3) + " more") else None
  }

  /** The bars and the number in the note account for every entry of the
      day. */
  lemma IndicatorsCoverDay(dayEntries: seq<DatedEntry>)
    ensures |Indicators(dayEntries)| + (if |dayEntries| > 3 then |dayEntries| - 3 else 0) == |dayEntries|
    ensures MoreNote(|dayEntries|) == if |dayEntries| > 3
      then Some("+" + NatToString(|dayEntries| - |Indicators(dayEntries)|) + " more") else None
  {
  }

  // ---------------------------------------------------------------------
  // This month's summary

  /** `new Date(key + "T00:00:00")` falls in the given month: the key starts
      with that year and month. */
  predicate InMonth(key: string, year: int, month: nat) {
    year >= 0 && StartsWith(key, ZeroPad(year, 4) + "-" + ZeroPad(month + 1, 2) + "-")
  }

  /** A date's key is in a month exactly when the date is. */
  lemma InMonthOfDayKey(date: CivilDate, year: int, month: nat)
    ensures InMonth(DayKey(date), year, month) <==> date.year == year && date.month == month
  {
    if InMonth(DayKey(date), year, month) {
      PrefixOfThreeParts(ZeroPad(date.year, 4), ZeroPad(date.month + 1, 2), ZeroPad(date.day, 2),
        ZeroPad(year, 4), ZeroPad(month + 1, 2));
      ZeroPadInjective(date.year, year, 4);
      ZeroPadInjective(date.month + 1, month + 1, 2);
    }
  }

  /** A key of three parts starts with two parts and a '-' only when those
      are its own first two parts. */
  lemma PrefixOfThreeParts(a1: string, b1: string, c1: string, a2: string, b2: string)
    requires AllDigits(a1) && AllDigits(b1) && AllDigits(a2) && AllDigits(b2)
    requires StartsWith(a1 + "-" + b1 + "-" + c1, a2 + "-" + b2 + "-")
    ensures a1 == a2 && b1 == b2
  {
    var key := a1 + "-" + b1 + "-" + c1;
    var p := a2 + "-" + b2 + "-";
    var rest := key[|p|..];
    assert key == p + rest;
    ThreeParts(a1, b1, c1, a2, b2, rest);
  }

  function MonthSelector(year: int, month: nat): string -> bool {
    key => InMonth(key, year, month)
  }

  /** The number of entries created in the month. */
  function CountInMonth(entries: seq<DatedEntry>, year: int, month: nat): (c: nat)
    ensures c <= |entries|
  {
    if |entries| == 0 then 0
    else
      var n := |entries| - 1;
      var last := entries[n].created;
      CountInMonth(entries[..n], year, month) + (if last.year == year && last.month == month then 1 else 0)
  }

  lemma {:induction false} CountKeyedInMonth(entries: seq<DatedEntry>, year: int, month: nat)
    ensures CountKeyed(entries, EntryKey, MonthSelector(year, month)) == CountInMonth(entries, year, month)
  {
    if |entries| > 0 {
      var n := |entries| - 1;
      CountKeyedInMonth(entries[..n], year, month);
      SelectedInMonth(entries[n], year, month);
    }
  }

  /** The month selector picks an entry's key exactly when the entry is
      dated in that month. */
  lemma SelectedInMonth(e: DatedEntry, year: int, month: nat)
    ensures MonthSelector(year, month)(EntryKey(e)) <==> e.created.year == year && e.created.month == month
  {
    InMonthOfDayKey(e.created, year, month);
  }

  /** The "This Month" panel: whether any key is in the month, the total of
      the entries under those keys, and how many such keys there are. */
  datatype MonthSummary = MonthSummary(any: bool, totalEntries: nat, daysWithEntries: nat)

  function Summary(groups: seq<Group<DatedEntry>>, year: int, month: nat): MonthSummary {
    var selected := MonthSelector(year, month);
    MonthSummary(AnyKeyWhere(groups, selected), SizeWhere(groups, selected), KeysWhere(groups, selected))
  }

  /** On the groups of the entries, the total is the number of entries
      created in the month, the days with entries never exceed it, and the
      panel shows figures exactly when there is at least one such day. */
  lemma SummaryOfGroups(entries: seq<DatedEntry>, year: int, month: nat)
    ensures var s := Summary(GroupBy(entries, EntryKey), year, month);
      && s.totalEntries == CountInMonth(entries, year, month)
      && s.daysWithEntries <= s.totalEntries <= |entries|
      && (s.any <==> s.daysWithEntries > 0)
  {
    var groups := GroupBy(entries, EntryKey);
    var selected := MonthSelector(year, month);
    GroupBySizes(entries, EntryKey, selected);
    CountKeyedInMonth(entries, year, month);
    GroupByWellFormed(entries, EntryKey);
    KeysWhereAtMostSize(groups, selected);
    AnyKeyWhereCount(groups, selected);
  }

  // ---------------------------------------------------------------------
  // navigateMonth as written

  /** `newDate.setMonth(month + delta)` on a date that keeps its day of the
      month `d`: the year and month are carried as by `MonthShift`, and a day
      past the end of the target month runs on into the month after it. The
      result is (year, month, day). */
  function SetMonthAsWritten(y: int, m: nat, d: nat, delta: int): (r: (int, nat, nat))
    requires m < 12 && 1 <= d <= 31
    ensures r.1 < 12 && 1 <= r.2 <= 31
    ensures var target := MonthShift(y, m, delta);
      d <= DaysInMonth(target.0, target.1) ==> (r.0, r.1, r.2) == (target.0, target.1, d)
    ensures var target := MonthShift(y, m, delta);
      d > DaysInMonth(target.0, target.1) ==>
        12 * r.0 + r.1 == 12 * y + m + delta + 1 && r.2 == d - DaysInMonth(target.0, target.1)
  {
    var target := MonthShift(y, m, delta);
    var length := DaysInMonth(target.0, target.1);
    if d <= length then (target.0, target.1, d)
    else
      var next := MonthShift(target.0, target.1, 1);
      (next.0, next.1, d - length)
  }

  /** From 31 January 2025 "next" lands on 3 March 2025: the page never
      shows February, because the day of the month that `currentDate` keeps
      overflows the shorter month. */
  lemma NavigateSkipsFebruary()
    ensures SetMonthAsWritten(2025, 0, 31, 1) == (2025, 2, 3)
    ensures SetMonthAsWritten(2025, 0, 31, 1).1 != MonthShift(2025, 0, 1).1
  {
    assert !IsLeapYear(2025);
    assert DaysInMonth(2025, 1) == 28;
  }

  /** The overflow happens only from days 29 to 31: from any day up to 28
      the written code moves by exactly `delta` months. */
  lemma SetMonthEarlyDays(y: int, m: nat, d: nat, delta: int)
    requires m < 12 && 1 <= d <= 28
    ensures var r := SetMonthAsWritten(y, m, d, delta);
      12 * r.0 + r.1 == 12 * y + m + delta && r.2 == d
  {
  }

  // ---------------------------------------------------------------------
  // Page state

  datatype Direction = Prev | Next

  /** The page's `currentDate` (as year and month) and `selectedDate`. */
  class CalendarView {
    var year: int
    var month: nat
    var selected: Option<string>

    predicate Valid()
      reads this
    {
      month < 12
    }

    /** The page opens on today's month with nothing selected. */
    constructor (today: CivilDate)
      requires ValidDate(today)
      ensures Valid() && year == today.year && month == today.month && selected == None
    {
      year := today.year;
      month := today.month;
      selected := None;
    }

    /** `navigateMonth` as intended: one month back or forward, across a
      year boundary when needed, whatever the day of the month, and the
      selection is cleared. */
    method NavigateMonth(direction: Direction)
      requires Valid()
      modifies this
      ensures Valid()
      ensures 12 * year + month == 12 * old(year) + old(month) + (if direction == Next then 1 else -1)
      ensures selected == None
    {
      var shifted := MonthShift(year, month, if direction == Next then 1 else -1);
      year, month := shifted.0, shifted.1;
      selected := None;
    }

    /** `handleDateClick`: clicking the selected day clears the selection,
      clicking any other day selects it. */
    method HandleDateClick(day: nat)
      requires Valid()
      modifies this
      ensures Valid() && year == old(year) && month == old(month)
      ensures var key := DateKey(year, month, day);
        selected == if old(selected) == Some(key) then None else Some(key)
    {
      var dateKey := DateKey(year, month, day);
      selected := if selected == Some(dateKey) then None else Some(dateKey);
    }

    /** The highlight of a grid day. */
    predicate IsSelected(day: nat)
      reads this
    {
      selected == Some(DateKey(year, month, day))
    }
  }
}
