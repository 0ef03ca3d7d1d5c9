/** What one day of the calendar shows (src/components/DayCell.tsx): its
    background, whether it has entries, a preview of at most three of them and
    a "+N more" note for the rest. Class names become a small enumeration; the
    rest of the markup is left out. */
module DayCell {
  import opened Common
  import opened Types

  /** `getDisplayString`: the legacy `verse` text when it is non-empty,
      otherwise "book chapters", followed by ":verses" when there are verses.
      The entry sheet uses the same rule. */
  function DisplayString(e: BibleEntry): (s: string)
    ensures Truthy(e.verse) ==> s == e.verse.value
    ensures !Truthy(e.verse) ==>
      && StartsWith(s, e.book + " " + e.chapters)
      && (Truthy(e.verses) <==> |s| > |e.book| + 1 + |e.chapters|)
      && (Truthy(e.verses) ==> s[|e.book| + 1 + |e.chapters|..] == ":" + e.verses.value)
  {
    if Truthy(e.verse) then e.verse.value
    else
      var head := e.book + " " + e.chapters;
      var s := head + (if Truthy(e.verses) then ":" + e.verses.value else "");
      assert s[..|head|] == head;
      s
  }

  /** The four backgrounds a cell can take. */
  datatype Background = SelectedBackground | FilledBackground | PastBackground | PlainBackground

  /** The background chain: selected wins over having entries, which wins over
      lying in the past. */
  function BackgroundOf(isSelected: bool, hasData: bool, isPast: bool): (b: Background)
    ensures b == SelectedBackground <==> isSelected
    ensures b == FilledBackground <==> !isSelected && hasData
    ensures b == PastBackground <==> !isSelected && !hasData && isPast
    ensures b == PlainBackground <==> !isSelected && !hasData && !isPast
  {
    if isSelected then SelectedBackground
    else if hasData then FilledBackground
    else if isPast then PastBackground
    else PlainBackground
  }

  /** The most entries a cell previews. */
  const PreviewLimit := 3

  /** `entries.slice(0, 3)`: the first entries, in stored order. */
  function Preview(entries: seq<BibleEntry>): (p: seq<BibleEntry>)
    ensures |p| == Min(PreviewLimit, |entries|)
    ensures p <= entries
  {
    if |entries| <= PreviewLimit then entries else entries[..PreviewLimit]
  }

  /** The "+N more" note, present only when more than three entries exist. */
  function MoreNote(entries: seq<BibleEntry>): (note: Option<string>)
    ensures note.Some? <==> |entries| > PreviewLimit
    ensures note.Some? ==> note.value == "+" + NatToString(|entries| - PreviewLimit) + " more"
  {
    if |entries| > PreviewLimit then Some("+" + NatToString(|entries| - PreviewLimit) + " more") else None
  }

  /** The parts of a rendered day cell the model keeps. */
  datatype CellView = CellView(
    day: int,
    background: Background,
    todayRing: bool,
    hasData: bool,
    count: nat,
    previews: seq<string>,
    more: Option<string>)

  /** A day cell for the given props. */
  function Render(day: int, isToday: bool, isSelected: bool, isPast: bool, entries: seq<BibleEntry>): (v: CellView)
    ensures v.day == day && v.todayRing == isToday
    ensures v.hasData <==> |entries| > 0
    ensures v.count == |entries|
    ensures v.background == BackgroundOf(isSelected, |entries| > 0, isPast)
    ensures |v.previews| == Min(PreviewLimit, |entries|)
    ensures forall i :: 0 <= i < |v.previews| ==> v.previews[i] == DisplayString(entries[i])
    ensures v.more == MoreNote(entries)
  {
    var hasData := |entries| > 0;
    var shown := Preview(entries);
    CellView(day, BackgroundOf(isSelected, hasData, isPast), isToday, hasData, |entries|,
      seq(|shown|, i requires 0 <= i < |shown| => DisplayString(shown[i])), MoreNote(entries))
  }

  /** The previews and the "+N more" note account for every entry, once. */
  lemma PreviewAndMoreCoverAll(day: int, isToday: bool, isSelected: bool, isPast: bool, entries: seq<BibleEntry>)
    ensures var v := Render(day, isToday, isSelected, isPast, entries);
      |v.previews| + (if v.more.Some? then |entries| - PreviewLimit else 0) == |entries|
  {
  }

  /** Four entries preview three and note "+1 more"; three entries need no
      note. */
  lemma MoreNoteExamples(a: BibleEntry, b: BibleEntry, c: BibleEntry, d: BibleEntry)
    ensures MoreNote([a, b, c, d]) == Some("+1 more")
    ensures MoreNote([a, b, c]) == None
    ensures Preview([a, b, c, d]) == [a, b, c]
  {
    assert NatToString(1) == [DigitChar(1)] == "1";
    assert |[a, b, c, d]| - PreviewLimit == 1;
    assert "+" + "1" + " more" == "+1 more";
  }
}
