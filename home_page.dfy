/** The home page of src/app/page.tsx: the month on show, the selected day,
    the entries map and whether the day sheet is open, changed by the page's
    handlers; new maps are built as copies of the old one. The drag-to-page
    gesture drives the month. The clock (`new Date()`, `Date.now()`) is a
    parameter of the handlers that read it. */
module HomePage {
  import opened Common
  import opened Types
  import opened DateUtils
  import CalendarGestures

  // ---------------------------------------------------------------------------
  // Month stepping

  /** Months counted from year 0: one apart for consecutive months. */
  function MonthIndex(d: Date): int {
    12 * d.year + d.month0
  }

  /** `new Date(year, month + 1, 1)`: the 1st of the following month. */
  function NextMonthStart(d: Date): (r: Date)
    requires ValidDate(d)
    ensures ValidDate(r) && r.day == 1
    ensures MonthIndex(r) == MonthIndex(d) + 1
    ensures d.month0 == 11 ==> r == Ymd(d.year + 1, 0, 1)
  {
    if d.month0 == 11 then Ymd(d.year + 1, 0, 1) else Ymd(d.year, d.month0 + 1, 1)
  }

  /** `new Date(year, month - 1, 1)`: the 1st of the preceding month. */
  function PrevMonthStart(d: Date): (r: Date)
    requires ValidDate(d)
    ensures ValidDate(r) && r.day == 1
    ensures MonthIndex(r) == MonthIndex(d) - 1
    ensures d.month0 == 0 ==> r == Ymd(d.year - 1, 11, 1)
  {
    if d.month0 == 0 then Ymd(d.year - 1, 11, 1) else Ymd(d.year, d.month0 - 1, 1)
  }

  /** Two valid 1sts of a month with the same month index are the same date. */
  lemma MonthIndexDeterminesFirst(a: Date, b: Date)
    requires ValidDate(a) && ValidDate(b) && a.day == 1 && b.day == 1
    requires MonthIndex(a) == MonthIndex(b)
    ensures a == b
  {
  }

  /** Stepping forward then back, or back then forward, returns to the same
      1st of the month. */
  lemma PrevUndoesNext(d: Date)
    requires ValidDate(d) && d.day == 1
    ensures PrevMonthStart(NextMonthStart(d)) == d
    ensures NextMonthStart(PrevMonthStart(d)) == d
  {
    MonthIndexDeterminesFirst(PrevMonthStart(NextMonthStart(d)), d);
    MonthIndexDeterminesFirst(NextMonthStart(PrevMonthStart(d)), d);
  }

  // ---------------------------------------------------------------------------
  // The entries map

  /** `{ ...entries, [key]: [...current, entry] }`. */
  function WithEntryAdded(entries: EntriesMap, key: string, entry: BibleEntry): (r: EntriesMap)
    ensures r.Keys == entries.Keys + {key}
    ensures r[key] == EntriesFor(entries, key) + [entry]
    ensures forall k :: k in entries && k != key ==> r[k] == entries[k]
  {
    entries[key := EntriesFor(entries, key) + [entry]]
  }

  /** `current.filter((e) => e.id !== entryId)`. */
  function WithoutId(list: seq<BibleEntry>, id: EntryId): (r: seq<BibleEntry>)
    ensures |r| <= |list|
  {
    if list == [] then []
    else if list[0].id == id then WithoutId(list[1..], id)
    else [list[0]] + WithoutId(list[1..], id)
  }

  /** The filter drops exactly the entries with the id: every other entry
      keeps its number of occurrences. */
  lemma {:induction false} WithoutIdCounts(list: seq<BibleEntry>, id: EntryId, x: BibleEntry)
    ensures multiset(WithoutId(list, id))[x] == if x.id == id then 0 else multiset(list)[x]
  {
    if list != [] {
      WithoutIdCounts(list[1..], id, x);
      assert list == [list[0]] + list[1..];
    }
  }

  /** The filter keeps the order of what it keeps: filtering a concatenation
      concatenates the filtered parts. */
  lemma {:induction false} WithoutIdDistributes(a: seq<BibleEntry>, b: seq<BibleEntry>, id: EntryId)
    ensures WithoutId(a + b, id) == WithoutId(a, id) + WithoutId(b, id)
  {
    if a == [] {
      assert a + b == b;
    } else {
      var ab := a + b;
      assert ab[0] == a[0] && ab[1..] == a[1..] + b;
      WithoutIdDistributes(a[1..], b, id);
      var rest := WithoutId(a[1..], id) + WithoutId(b, id);
      if a[0].id == id {
        assert WithoutId(ab, id) == WithoutId(ab[1..], id);
        assert WithoutId(a, id) == WithoutId(a[1..], id);
      } else {
        assert WithoutId(ab, id) == [a[0]] + WithoutId(ab[1..], id);
        assert WithoutId(a, id) == [a[0]] + WithoutId(a[1..], id);
      }
    }
  }

  /** A list in which no entry has the id is kept as it is. */
  lemma {:induction false} WithoutAbsentId(list: seq<BibleEntry>, id: EntryId)
    requires forall i :: 0 <= i < |list| ==> list[i].id != id
    ensures WithoutId(list, id) == list
  {
    if list != [] {
      WithoutAbsentId(list[1..], id);
    }
  }

  /** `{ ...entries, [key]: current.filter(...) }`. */
  function WithEntryRemoved(entries: EntriesMap, key: string, id: EntryId): (r: EntriesMap)
    ensures r.Keys == entries.Keys + {key}
    ensures r[key] == WithoutId(EntriesFor(entries, key), id)
    ensures forall k :: k in entries && k != key ==> r[k] == entries[k]
  {
    entries[key := WithoutId(EntriesFor(entries, key), id)]
  }

  /** Adding an entry with an id no entry of that day has, then removing that
      id from the same day, gives back the day's list (an absent day comes
      back as an empty list) and touches no other day. */
  lemma AddThenRemoveRestores(entries: EntriesMap, key: string, entry: BibleEntry)
    requires forall i :: 0 <= i < |EntriesFor(entries, key)| ==> EntriesFor(entries, key)[i].id != entry.id
    ensures WithEntryRemoved(WithEntryAdded(entries, key, entry), key, entry.id)
         == entries[key := EntriesFor(entries, key)]
  {
    var list := EntriesFor(entries, key);
    var added := WithEntryAdded(entries, key, entry);
    assert EntriesFor(added, key) == list + [entry];
    WithoutIdDistributes(list, [entry], entry.id);
    WithoutAbsentId(list, entry.id);
    assert [entry][1..] == [];
    assert WithoutId([entry], entry.id) == [];
    assert WithoutId(list + [entry], entry.id) == list;
  }

  /** The entry `addEntry` builds: a numeric id from the clock, the form's
      book, chapters and verses, and no `date` field. */
  function NewEntry(data: EntryFormData, now: int): (e: BibleEntry)
    ensures e.id == NumId(now) && e.book == data.book && e.chapters == data.chapters
    ensures e.verses == Some(data.verses) && e.date == None && e.verse == None
  {
    BibleEntry(NumId(now), data.book, data.chapters, Some(data.verses), None, None)
  }

  // ---------------------------------------------------------------------------
  // The page

  class Home {
    var currentDate: Date
    var selectedDate: Option<Date>
    var entries: EntriesMap
    var isSheetOpen: bool
    const gestures: CalendarGestures.CalendarGestures

    ghost predicate Valid()
      reads this, gestures
    {
      && ValidDate(currentDate)
      && (selectedDate.Some? ==> ValidDate(selectedDate.value))
      && gestures.Valid()
    }

    /** The first render: today's month, nothing selected, the stored or
        generated entries, the sheet closed, no drag. */
    constructor (today: Date, initialEntries: EntriesMap)
      requires ValidDate(today)
      ensures Valid() && fresh(gestures)
      ensures currentDate == today && selectedDate == None && entries == initialEntries && !isSheetOpen
      ensures gestures.dragStart == None && gestures.dragOffset == 0
    {
      currentDate := today;
      selectedDate := None;
      entries := initialEntries;
      isSheetOpen := false;
      gestures := new CalendarGestures.CalendarGestures();
    }

    method NextMonth()
      requires Valid()
      modifies this
      ensures Valid()
      ensures currentDate == NextMonthStart(old(currentDate))
      ensures selectedDate == old(selectedDate) && entries == old(entries) && isSheetOpen == old(isSheetOpen)
    {
      currentDate := NextMonthStart(currentDate);
    }

    method PrevMonth()
      requires Valid()
      modifies this
      ensures Valid()
      ensures currentDate == PrevMonthStart(old(currentDate))
      ensures selectedDate == old(selectedDate) && entries == old(entries) && isSheetOpen == old(isSheetOpen)
    {
      currentDate := PrevMonthStart(currentDate);
    }

    /** `addEntry`: the entry goes at the end of the list of the form's date
        key. `now` is `Date.now()`. */
    method AddEntry(data: EntryFormData, now: int)
      requires Valid()
      modifies this
      ensures Valid()
      ensures entries == WithEntryAdded(old(entries), data.date, NewEntry(data, now))
      ensures currentDate == old(currentDate) && selectedDate == old(selectedDate) && isSheetOpen == old(isSheetOpen)
    {
      entries := WithEntryAdded(entries, data.date, NewEntry(data, now));
    }

    /** `removeEntry`: nothing without a selected day, else the selected day's
        entries with that id are dropped. */
    method RemoveEntry(id: EntryId)
      requires Valid()
      modifies this
      ensures Valid()
      ensures old(selectedDate).None? ==> entries == old(entries)
      ensures old(selectedDate).Some? ==>
        entries == WithEntryRemoved(old(entries), FormatDateKey(old(selectedDate).value), id)
      ensures currentDate == old(currentDate) && selectedDate == old(selectedDate) && isSheetOpen == old(isSheetOpen)
    {
      if selectedDate.None? {
        return;
      }
      entries := WithEntryRemoved(entries, FormatDateKey(selectedDate.value), id);
    }

    /** `handleDayClick`: select the clicked day and open the sheet. */
    method HandleDayClick(date: Date)
      requires Valid() && ValidDate(date)
      modifies this
      ensures Valid()
      ensures selectedDate == Some(date) && isSheetOpen
      ensures currentDate == old(currentDate) && entries == old(entries)
    {
      selectedDate := Some(date);
      isSheetOpen := true;
    }

    /** `handleAddButtonClick`: select today and open the sheet. */
    method HandleAddButtonClick(today: Date)
      requires Valid() && ValidDate(today)
      modifies this
      ensures Valid()
      ensures selectedDate == Some(today) && isSheetOpen
      ensures currentDate == old(currentDate) && entries == old(entries)
    {
      selectedDate := Some(today);
      isSheetOpen := true;
    }

    /** The sheet's `onClose`. */
    method CloseSheet()
      requires Valid()
      modifies this
      ensures Valid()
      ensures !isSheetOpen
      ensures currentDate == old(currentDate) && selectedDate == old(selectedDate) && entries == old(entries)
    {
      isSheetOpen := false;
    }

    /** The end of a calendar drag: a swipe to the left shows the next month,
        one to the right the previous month, anything shorter keeps the month. */
    method GestureEnd()
      requires Valid()
      modifies this, gestures
      ensures Valid()
      ensures var (right, left) := CalendarGestures.Paging(old(gestures.dragStart), old(gestures.dragOffset));
        && (left ==> currentDate == NextMonthStart(old(currentDate)))
        && (right ==> currentDate == PrevMonthStart(old(currentDate)))
        && (!left && !right ==> currentDate == old(currentDate))
      ensures gestures.dragStart == None && gestures.dragOffset == 0
      ensures selectedDate == old(selectedDate) && entries == old(entries) && isSheetOpen == old(isSheetOpen)
    {
      var right, left := gestures.End();
      CalendarGestures.PagingFiresAtMostOne(old(gestures.dragStart), old(gestures.dragOffset));
      if right {
        PrevMonth();
      }
      if left {
        NextMonth();
      }
    }
  }
}
