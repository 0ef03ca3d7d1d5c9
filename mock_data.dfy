/** The sample calendar of src/lib/mock-data.ts: five fixed groups of
    readings placed 0, 1, 3, 6 and 14 days before today, each only when that
    day still lies in the current month. The map is filled one day at a time,
    as the source does; today is a parameter and the entry timestamps are not
    modelled. */
module MockData {
  import opened Common
  import opened Types
  import opened DateUtils

  /** One reading of a group. */
  datatype Seed = Seed(book: string, chapters: string, verses: string)

  /** How many days before today each group lies. */
  const Offsets: seq<nat> := [0, 1, 3, 6, 14]

  /** The group for each offset. */
  const Groups: seq<seq<Seed>> := [
    [Seed("Revelation", "21", "4")],
    [Seed("Genesis", "1", "1")],
    [Seed("Psalm", "23", "1-6"), Seed("Proverbs", "3", "5")],
    [Seed("John", "3", "16"), Seed("Romans", "8", "28")],
    [Seed("Jeremiah", "29", "11")]]

  /** `getKey(day)` for the current year and month. */
  function GetKey(year: int, month0: nat, day: nat): string {
    IntToString(year) + "-" + Pad2(NatToString(month0 + 1)) + "-" + Pad2(NatToString(day))
  }

  /** The keys are those `formatDateKey` gives, so the calendar finds them. */
  lemma GetKeyIsFormatDateKey(d: Date)
    requires ValidDate(d)
    ensures GetKey(d.year, d.month0, d.day) == FormatDateKey(d)
  {
  }

  /** The entry made from the `i`-th reading of a group placed on `day`. */
  function MockEntry(day: nat, i: nat, seed: Seed, key: string): (e: BibleEntry)
    ensures e.id == StrId(NatToString(day) + "-" + NatToString(i))
    ensures e.book == seed.book && e.chapters == seed.chapters && e.verses == Some(seed.verses)
    ensures e.date == Some(key) && e.verse == None
  {
    BibleEntry(StrId(NatToString(day) + "-" + NatToString(i)), seed.book, seed.chapters, Some(seed.verses), Some(key), None)
  }

  /** `entriesList.map((e, i) => ...)`. */
  function DayEntries(day: nat, seeds: seq<Seed>, key: string): (r: seq<BibleEntry>)
    ensures |r| == |seeds|
    ensures forall i :: 0 <= i < |seeds| ==> r[i] == MockEntry(day, i, seeds[i], key)
  {
    seq(|seeds|, i requires 0 <= i < |seeds| => MockEntry(day, i, seeds[i], key))
  }

  /** `addEntry(dayOffset, entriesList)`: a group on a day that is still in
      the month is stored under that day's key. `getKey` is the closure the
      source builds over the current year and month. */
  function AddEntry(data: EntriesMap, getKey: nat -> string, currentDay: int, dayOffset: nat, seeds: seq<Seed>): (r: EntriesMap)
    ensures currentDay - dayOffset <= 0 ==> r == data
    ensures currentDay - dayOffset > 0 ==>
      r == data[getKey(currentDay - dayOffset) := DayEntries(currentDay - dayOffset, seeds, getKey(currentDay - dayOffset))]
  {
    var targetDay := currentDay - dayOffset;
    if targetDay > 0 then
      var key := getKey(targetDay);
      data[key := DayEntries(targetDay, seeds, key)]
    else
      data
  }

  /** The key the `k`-th group gets. */
  function KeyAt(today: Date, k: nat): string
    requires 0 <= today.month0 && k < |Offsets| && Offsets[k] < today.day
  {
    GetKey(today.year, today.month0, today.day - Offsets[k])
  }

  /** How many of `offsets` lie below `day`. */
  function CountBelow(offsets: seq<nat>, day: int): (n: nat)
    ensures n <= |offsets|
  {
    if offsets == [] then 0
    else CountBelow(offsets[..|offsets| - 1], day) + (if offsets[|offsets| - 1] < day then 1 else 0)
  }

  /** The groups hold 1, 1, 2, 2 and 1 readings. */
  lemma GroupSizes()
    ensures |Groups| == |Offsets|
    ensures |Groups[0]| == 1 && |Groups[1]| == 1 && |Groups[2]| == 2 && |Groups[3]| == 2 && |Groups[4]| == 1
  {
  }

  /** One day per offset smaller than today's day of the month. */
  lemma CountFormula(day: int)
    ensures CountBelow(Offsets, day) == (if 0 < day then 1 else 0) + (if 1 < day then 1 else 0)
      + (if 3 < day then 1 else 0) + (if 6 < day then 1 else 0) + (if 14 < day then 1 else 0)
  {
    CountBelowSnoc([], 0, day);
    assert [] + [0] == [0];
    CountBelowSnoc([0], 1, day);
    assert [0] + [1] == [0, 1];
    CountBelowSnoc([0, 1], 3, day);
    assert [0, 1] + [3] == [0, 1, 3];
    CountBelowSnoc([0, 1, 3], 6, day);
    assert [0, 1, 3] + [6] == [0, 1, 3, 6];
    CountBelowSnoc([0, 1, 3, 6], 14, day);
    assert [0, 1, 3, 6] + [14] == Offsets;
  }

  /** On the 1st one day has readings, on the 5th three (today, yesterday and
      three days ago), and from the 15th on all five. */
  lemma CountExamples()
    ensures CountBelow(Offsets, 1) == 1
    ensures CountBelow(Offsets, 5) == 3
    ensures forall day :: day > 14 ==> CountBelow(Offsets, day) == 5
  {
    CountFormula(1);
    CountFormula(5);
    forall day | day > 14
      ensures CountBelow(Offsets, day) == 5
    {
      CountFormula(day);
    }
  }

  lemma CountBelowSnoc(s: seq<nat>, x: nat, day: int)
    ensures CountBelow(s + [x], day) == CountBelow(s, day) + (if x < day then 1 else 0)
  {
    assert (s + [x])[..|s|] == s;
  }

  // ---------------------------------------------------------------------------
  // Filling the map, for any key function that tells the days apart

  /** No two days of the month up to `day` share a key. */
  ghost predicate DistinctKeys(getKey: nat -> string, day: int) {
    forall a: nat, b: nat :: 0 < a < b <= day ==> getKey(a) != getKey(b)
  }

  /** The keys of the first `n` groups whose day is still in the month. */
  ghost function KeysUpTo(getKey: nat -> string, day: int, n: nat): set<string>
    requires n <= |Offsets|
  {
    if n == 0 then {}
    else KeysUpTo(getKey, day, n - 1) + (if Offsets[n - 1] < day then {getKey(day - Offsets[n - 1])} else {})
  }

  /** The first `n` groups are in `data`, each under its own key, and
      nothing else is. */
  ghost predicate Filled(data: EntriesMap, getKey: nat -> string, groups: seq<seq<Seed>>, day: int, n: nat)
    requires n <= |Offsets| == |groups|
  {
    && data.Keys == KeysUpTo(getKey, day, n)
    && (forall k :: 0 <= k < n && Offsets[k] < day ==>
          getKey(day - Offsets[k]) in data
          && data[getKey(day - Offsets[k])] == DayEntries(day - Offsets[k], groups[k], getKey(day - Offsets[k])))
  }

  /** A group's key is none of the keys of the groups before it. */
  lemma {:induction false} KeyIsNew(getKey: nat -> string, day: int, m: nat, n: nat)
    requires DistinctKeys(getKey, day)
    requires m <= n < |Offsets| && Offsets[n] < day
    ensures getKey(day - Offsets[n]) !in KeysUpTo(getKey, day, m)
  {
    if m > 0 {
      KeyIsNew(getKey, day, m - 1, n);
      assert Offsets[m - 1] < Offsets[n];
    }
  }

  /** Every key of the first `n` groups is the key of a group in reach. */
  lemma {:induction false} KeysUpToMember(getKey: nat -> string, day: int, n: nat, key: string)
    requires n <= |Offsets| && key in KeysUpTo(getKey, day, n)
    ensures exists k :: 0 <= k < n && Offsets[k] < day && key == getKey(day - Offsets[k])
  {
    if key !in KeysUpTo(getKey, day, n - 1) {
      assert key == getKey(day - Offsets[n - 1]);
    } else {
      KeysUpToMember(getKey, day, n - 1, key);
    }
  }

  /** The groups in reach have as many keys as there are groups in reach. */
  lemma {:induction false} KeysUpToCount(getKey: nat -> string, day: int, n: nat)
    requires DistinctKeys(getKey, day) && n <= |Offsets|
    ensures |KeysUpTo(getKey, day, n)| == CountBelow(Offsets[..n], day)
  {
    if n > 0 {
      KeysUpToCount(getKey, day, n - 1);
      assert Offsets[..n][..n - 1] == Offsets[..n - 1];
      if Offsets[n - 1] < day {
        KeyIsNew(getKey, day, n - 1, n - 1);
      }
    }
  }

  /** On the 1st only the group of offset 0 is in reach. */
  lemma OnlyTodayOnDayOne(getKey: nat -> string)
    ensures KeysUpTo(getKey, 1, |Offsets|) == {getKey(1)}
  {
    assert KeysUpTo(getKey, 1, 1) == {getKey(1)};
    assert KeysUpTo(getKey, 1, 2) == KeysUpTo(getKey, 1, 1);
    assert KeysUpTo(getKey, 1, 3) == KeysUpTo(getKey, 1, 2);
    assert KeysUpTo(getKey, 1, 4) == KeysUpTo(getKey, 1, 3);
  }

  /** One `addEntry` call extends the filled prefix by its group. */
  lemma FillStep(data: EntriesMap, getKey: nat -> string, groups: seq<seq<Seed>>, day: int, n: nat)
    requires DistinctKeys(getKey, day) && n < |Offsets| == |groups|
    requires Filled(data, getKey, groups, day, n)
    ensures Filled(AddEntry(data, getKey, day, Offsets[n], groups[n]), getKey, groups, day, n + 1)
  {
    if Offsets[n] < day {
      KeyIsNew(getKey, day, n, n);
    }
  }

  /** The map after the first `n` `addEntry` calls. */
  ghost function FillFirst(getKey: nat -> string, groups: seq<seq<Seed>>, day: int, n: nat): EntriesMap
    requires n <= |Offsets| == |groups|
  {
    if n == 0 then map[] else AddEntry(FillFirst(getKey, groups, day, n - 1), getKey, day, Offsets[n - 1], groups[n - 1])
  }

  /** Every prefix of the calls fills the map with its groups. */
  lemma {:induction false} FillFirstFilled(getKey: nat -> string, groups: seq<seq<Seed>>, day: int, n: nat)
    requires DistinctKeys(getKey, day) && n <= |Offsets| == |groups|
    ensures Filled(FillFirst(getKey, groups, day, n), getKey, groups, day, n)
  {
    if n > 0 {
      FillFirstFilled(getKey, groups, day, n - 1);
      FillStep(FillFirst(getKey, groups, day, n - 1), getKey, groups, day, n - 1);
    }
  }

  /** The five calls of the generator, written out. */
  lemma FiveCalls(getKey: nat -> string, day: int)
    ensures FillFirst(getKey, Groups, day, 5)
      == AddEntry(AddEntry(AddEntry(AddEntry(AddEntry(map[], getKey, day, 0, Groups[0]),
           getKey, day, 1, Groups[1]), getKey, day, 3, Groups[2]), getKey, day, 6, Groups[3]),
           getKey, day, 14, Groups[4])
  {
    assert FillFirst(getKey, Groups, day, 1) == AddEntry(map[], getKey, day, 0, Groups[0]);
    assert FillFirst(getKey, Groups, day, 2) == AddEntry(FillFirst(getKey, Groups, day, 1), getKey, day, 1, Groups[1]);
    assert FillFirst(getKey, Groups, day, 3) == AddEntry(FillFirst(getKey, Groups, day, 2), getKey, day, 3, Groups[2]);
    assert FillFirst(getKey, Groups, day, 4) == AddEntry(FillFirst(getKey, Groups, day, 3), getKey, day, 6, Groups[3]);
  }

  // ---------------------------------------------------------------------------
  // The generator

  /** Different days of one month get different keys. */
  lemma DayKeysDiffer(year: int, month0: nat, a: nat, b: nat)
    requires ValidDate(Ymd(year, month0, a)) && ValidDate(Ymd(year, month0, b))
    requires a != b
    ensures GetKey(year, month0, a) != GetKey(year, month0, b)
  {
    GetKeyIsFormatDateKey(Ymd(year, month0, a));
    GetKeyIsFormatDateKey(Ymd(year, month0, b));
    if GetKey(year, month0, a) == GetKey(year, month0, b) {
      FormatDateKeyInjective(Ymd(year, month0, a), Ymd(year, month0, b));
    }
  }

  /** `getKey`: the key of a day of today's month. */
  function KeyOf(today: Date): nat -> string
    requires 0 <= today.month0
  {
    (day: nat) => GetKey(today.year, today.month0, day)
  }

  /** The keys of today's month tell its days apart. */
  lemma KeyOfDistinct(today: Date)
    requires ValidDate(today)
    ensures DistinctKeys(KeyOf(today), today.day)
  {
    forall a: nat, b: nat | 0 < a < b <= today.day
      ensures KeyOf(today)(a) != KeyOf(today)(b)
    {
      DayKeysDiffer(today.year, today.month0, a, b);
    }
  }

  /** What a map filled with all five groups holds. */
  lemma FilledMap(data: EntriesMap, today: Date)
    requires ValidDate(today)
    requires Filled(data, KeyOf(today), Groups, today.day, |Offsets|)
    ensures forall k :: 0 <= k < |Offsets| && Offsets[k] < today.day ==>
      KeyAt(today, k) in data
      && data[KeyAt(today, k)] == DayEntries(today.day - Offsets[k], Groups[k], KeyAt(today, k))
    ensures forall key :: key in data ==>
      exists k :: 0 <= k < |Offsets| && Offsets[k] < today.day && key == KeyAt(today, k)
    ensures |data| == CountBelow(Offsets, today.day)
    ensures today.day == 1 ==> data.Keys == {FormatDateKey(today)}
  {
    var getKey := KeyOf(today);
    forall k | 0 <= k < |Offsets| && Offsets[k] < today.day
      ensures KeyAt(today, k) == getKey(today.day - Offsets[k])
    {
    }
    KeyOfDistinct(today);
    KeysUpToCount(getKey, today.day, 5);
    assert Offsets[..5] == Offsets;
    forall key | key in data
      ensures exists k :: 0 <= k < |Offsets| && Offsets[k] < today.day && key == KeyAt(today, k)
    {
      KeysUpToMember(getKey, today.day, 5, key);
    }
    if today.day == 1 {
      OnlyTodayOnDayOne(getKey);
      assert getKey(1) == GetKey(today.year, today.month0, today.day);
      GetKeyIsFormatDateKey(today);
    }
  }

  /** `generateMockData()` for the given today. */
  method GenerateMockData(today: Date) returns (data: EntriesMap)
    requires ValidDate(today)
    ensures forall k :: 0 <= k < |Offsets| && Offsets[k] < today.day ==>
      KeyAt(today, k) in data
      && data[KeyAt(today, k)] == DayEntries(today.day - Offsets[k], Groups[k], KeyAt(today, k))
    ensures forall key :: key in data ==>
      exists k :: 0 <= k < |Offsets| && Offsets[k] < today.day && key == KeyAt(today, k)
    ensures |data| == CountBelow(Offsets, today.day)
    ensures today.day == 1 ==> data.Keys == {FormatDateKey(today)}
  {
    var currentDay := today.day;
    var getKey := KeyOf(today);
    KeyOfDistinct(today);
    data := map[];
    data := AddEntry(data, getKey, currentDay, 0, Groups[0]);
    data := AddEntry(data, getKey, currentDay, 1, Groups[1]);
    data := AddEntry(data, getKey, currentDay, 3, Groups[2]);
    data := AddEntry(data, getKey, currentDay, 6, Groups[3]);
    data := AddEntry(data, getKey, currentDay, 14, Groups[4]);
    FiveCalls(getKey, currentDay);
    FillFirstFilled(getKey, Groups, currentDay, 5);
    FilledMap(data, today);
  }
}
