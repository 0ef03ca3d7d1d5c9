/** The day sheet of src/components/EntrySheet.tsx: nothing while closed or
    without a selected date; otherwise the entry form seeded with the day's
    key, a count of the day's entries, and one swipeable row per entry that
    can only be deleted. */
module EntrySheet {
  import opened Common
  import opened Types
  import opened DateUtils
  import DayCell
  import SwipeGesture

  /** The options each row passes to the swipe gesture
      (src/components/SwipeableEntry.tsx): an edit callback only when the sheet
      provides one, a delete callback always, thresholds 80 and 150. */
  datatype SwipeOptions = SwipeOptions(hasEdit: bool, hasDelete: bool, editThreshold: int, deleteThreshold: int)

  /** One listed entry: its id, its text and the gesture's options. */
  datatype Row = Row(id: EntryId, text: string, swipe: SwipeOptions)

  datatype SheetView = SheetView(
    initialDate: string,
    countNoun: string,
    count: nat,
    rows: seq<Row>)

  /** "entry" for exactly one, "entries" otherwise (zero included). */
  function CountNoun(n: nat): (w: string)
    ensures w == "entry" <==> n == 1
    ensures w == "entries" <==> n != 1
  {
    if n == 1 then "entry" else "entries"
  }

  /** The options of a row in this sheet, which passes `onDelete` and no
      `onEdit`. */
  const SheetSwipe := SwipeOptions(false, true, 80, 150)

  /** The sheet, or `None` when it renders nothing. */
  function Render(isOpen: bool, selectedDate: Option<Date>, entries: EntriesMap): (v: Option<SheetView>)
    requires selectedDate.Some? ==> ValidDate(selectedDate.value)
    ensures v.Some? <==> isOpen && selectedDate.Some?
    ensures v.Some? ==>
      var key := FormatDateKey(selectedDate.value);
      var list := EntriesFor(entries, key);
      && v.value.initialDate == key
      && v.value.count == |list|
      && v.value.countNoun == CountNoun(|list|)
      && |v.value.rows| == |list|
      && forall i :: 0 <= i < |list| ==>
           v.value.rows[i] == Row(list[i].id, DayCell.DisplayString(list[i]), SheetSwipe)
  {
    if !isOpen || selectedDate.None? then None
    else
      var key := FormatDateKey(selectedDate.value);
      var list := EntriesFor(entries, key);
      Some(SheetView(key, CountNoun(|list|), |list|,
        seq(|list|, i requires 0 <= i < |list| => Row(list[i].id, DayCell.DisplayString(list[i]), SheetSwipe))))
  }

  /** A row's swipe can delete but never edit, whatever its offset: a release
      fires delete at 150 pixels or more and nothing below. */
  lemma RowsOnlyDelete(offset: int)
    ensures SwipeGesture.ReleaseAction(offset, SheetSwipe.hasEdit, SheetSwipe.hasDelete,
              SheetSwipe.editThreshold, SheetSwipe.deleteThreshold) != SwipeGesture.EditAction
    ensures (SwipeGesture.ReleaseAction(offset, SheetSwipe.hasEdit, SheetSwipe.hasDelete,
               SheetSwipe.editThreshold, SheetSwipe.deleteThreshold) == SwipeGesture.DeleteAction)
            <==> offset <= -150
  {
  }
}
