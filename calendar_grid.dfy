/** The month grid of src/components/CalendarGrid.tsx: blank cells for the
    weekdays before the 1st, one cell per day with its key, flags and entries,
    and blank cells after the last day up to the end of the week. The current
    date is a parameter. */
module CalendarGrid {
  import opened Common
  import opened Types
  import opened DateUtils

  /** `(7 - ((daysInMonth + firstDay) % 7)) % 7`. */
  function TrailingPadding(daysInMonth: nat, firstDay: nat): (n: nat)
    ensures n < 7
    ensures (daysInMonth + firstDay + n) % 7 == 0
    ensures (daysInMonth + firstDay) % 7 == 0 ==> n == 0
  {
    (7 - ((daysInMonth + firstDay) % 7)) % 7
  }

  /** The least padding that completes the last week: no smaller count does. */
  lemma TrailingPaddingIsLeast(daysInMonth: nat, firstDay: nat, m: nat)
    requires m < TrailingPadding(daysInMonth, firstDay)
    ensures (daysInMonth + firstDay + m) % 7 != 0
  {
  }

  /** What the grid passes to the cell of one day. */
  datatype DayProps = DayProps(
    day: int,
    key: string,
    isToday: bool,
    isSelected: bool,
    isPast: bool,
    entries: seq<BibleEntry>)

  /** The grid: leading blanks, day cells, trailing blanks. */
  datatype Grid = Grid(leading: nat, days: seq<DayProps>, trailing: nat)

  /** `isSelected(day)`: no day is selected without a selected date, otherwise
      the day whose key is the selected date's key. */
  function IsSelected(currentDate: Date, day: int, selectedDate: Option<Date>): (r: bool)
    requires ValidDate(Ymd(currentDate.year, currentDate.month0, day))
    requires selectedDate.Some? ==> ValidDate(selectedDate.value)
    ensures r <==> selectedDate == Some(Ymd(currentDate.year, currentDate.month0, day))
  {
    if selectedDate.None? then false
    else
      var check := Ymd(currentDate.year, currentDate.month0, day);
      if FormatDateKey(selectedDate.value) == FormatDateKey(check) then
        FormatDateKeyInjective(selectedDate.value, check);
        true
      else
        false
  }

  /** The props of day `day` of the shown month. */
  function DayOf(currentDate: Date, day: int, selectedDate: Option<Date>, entries: EntriesMap, today: Date): (p: DayProps)
    requires ValidDate(Ymd(currentDate.year, currentDate.month0, day)) && ValidDate(today)
    requires selectedDate.Some? ==> ValidDate(selectedDate.value)
  {
    var key := FormatDateKey(Ymd(currentDate.year, currentDate.month0, day));
    DayProps(day, key,
      IsDateToday(currentDate, day, today),
      IsSelected(currentDate, day, selectedDate),
      IsDatePast(currentDate, day, today),
      EntriesFor(entries, key))
  }

  /** The grid for the month of `currentDate`. */
  function Render(currentDate: Date, selectedDate: Option<Date>, entries: EntriesMap, today: Date): (g: Grid)
    requires ValidDate(currentDate) && ValidDate(today)
    requires selectedDate.Some? ==> ValidDate(selectedDate.value)
    ensures g.leading == FirstDayOfMonth(currentDate.year, currentDate.month0)
    ensures |g.days| == DaysInMonth(currentDate.year, currentDate.month0)
    ensures (g.leading + |g.days| + g.trailing) % 7 == 0 && g.trailing < 7
    ensures forall i :: 0 <= i < |g.days| ==>
      var d := Ymd(currentDate.year, currentDate.month0, i + 1);
      && g.days[i].day == i + 1
      && g.days[i].key == FormatDateKey(d)
      && g.days[i].entries == EntriesFor(entries, FormatDateKey(d))
      && (g.days[i].isToday <==> d == today)
      && (g.days[i].isSelected <==> selectedDate == Some(d))
      && (g.days[i].isPast <==> Before(d, today))
  {
    var n := DaysInMonth(currentDate.year, currentDate.month0);
    var first := FirstDayOfMonth(currentDate.year, currentDate.month0);
    Grid(first,
      seq(n, i requires 0 <= i < n => DayOf(currentDate, i + 1, selectedDate, entries, today)),
      TrailingPadding(n, first))
  }

  /** At most one cell is marked today, and one is exactly when today lies in
      the shown month. */
  lemma AtMostOneToday(currentDate: Date, selectedDate: Option<Date>, entries: EntriesMap, today: Date)
    requires ValidDate(currentDate) && ValidDate(today)
    requires selectedDate.Some? ==> ValidDate(selectedDate.value)
    ensures var g := Render(currentDate, selectedDate, entries, today);
      && (forall i, j :: 0 <= i < |g.days| && 0 <= j < |g.days| && g.days[i].isToday && g.days[j].isToday ==> i == j)
      && ((exists i :: 0 <= i < |g.days| && g.days[i].isToday)
          <==> today.year == currentDate.year && today.month0 == currentDate.month0)
  {
    var g := Render(currentDate, selectedDate, entries, today);
    if today.year == currentDate.year && today.month0 == currentDate.month0 {
      assert g.days[today.day - 1].isToday;
    }
  }

  /** Likewise, at most one cell is marked selected. */
  lemma AtMostOneSelected(currentDate: Date, selectedDate: Option<Date>, entries: EntriesMap, today: Date)
    requires ValidDate(currentDate) && ValidDate(today)
    requires selectedDate.Some? ==> ValidDate(selectedDate.value)
    ensures var g := Render(currentDate, selectedDate, entries, today);
      && (forall i, j :: 0 <= i < |g.days| && 0 <= j < |g.days| && g.days[i].isSelected && g.days[j].isSelected ==> i == j)
      && (selectedDate.None? ==> forall i :: 0 <= i < |g.days| ==> !g.days[i].isSelected)
  {
  }
}
