/** The add-entry form of src/components/EntryForm.tsx: four text fields
    and a `submitting` flag. A submit with a blank book or blank chapters does
    nothing; otherwise the form hands its data to the sheet's callback, waits,
    and clears book, chapters and verses if the callback succeeded. The
    asynchronous submit is split into the part before the `await`
    (`SubmitStart`) and the part after it (`SubmitSettle`). */
module EntryForm {
  import opened Common
  import opened Types

  /** The `name` attributes of the four inputs. */
  datatype Field = Book | Chapters | Verses | DateRead

  /** `{ ...formData, [name]: value }`. */
  function WithField(data: EntryFormData, name: Field, value: string): (r: EntryFormData)
    ensures name == Book ==> r == data.(book := value)
    ensures name == Chapters ==> r == data.(chapters := value)
    ensures name == Verses ==> r == data.(verses := value)
    ensures name == DateRead ==> r == data.(date := value)
  {
    match name
    case Book => data.(book := value)
    case Chapters => data.(chapters := value)
    case Verses => data.(verses := value)
    case DateRead => data.(date := value)
  }

  /** `formData.book.trim() && formData.chapters.trim()` is truthy: neither
      required field is blank. */
  predicate Submittable(data: EntryFormData) {
    Trim(data.book) != "" && Trim(data.chapters) != ""
  }

  /** A field that holds only white space is as good as empty. */
  lemma SubmittableIffNotBlank(data: EntryFormData)
    ensures Submittable(data) <==> !IsBlank(data.book) && !IsBlank(data.chapters)
  {
    TrimEmptyIffBlank(data.book);
    TrimEmptyIffBlank(data.chapters);
  }

  /** What is left of the data after a successful submit. */
  function Cleared(data: EntryFormData): (r: EntryFormData)
    ensures r.book == "" && r.chapters == "" && r.verses == "" && r.date == data.date
  {
    data.(book := "", chapters := "", verses := "")
  }

  class EntryForm {
    var formData: EntryFormData
    var submitting: bool

    /** The initial state: empty fields and the sheet's date. */
    constructor (initialDate: string)
      ensures formData == EntryFormData("", "", "", initialDate) && !submitting
    {
      formData := EntryFormData("", "", "", initialDate);
      submitting := false;
    }

    /** Whether the save button is disabled. */
    function Disabled(): (r: bool)
      reads this
      ensures r <==> IsBlank(formData.book) || IsBlank(formData.chapters) || submitting
    {
      SubmittableIffNotBlank(formData);
      !Submittable(formData) || submitting
    }

    /** `handleChange`: only the named field takes the new value. */
    method HandleChange(name: Field, value: string)
      modifies this
      ensures formData == WithField(old(formData), name, value)
      ensures submitting == old(submitting)
    {
      formData := WithField(formData, name, value);
    }

    /** `handleSubmit` up to the `await`: the data handed to the callback, or
        nothing when a required field is blank. */
    method SubmitStart() returns (sent: Option<EntryFormData>)
      modifies this
      ensures formData == old(formData)
      ensures sent.Some? <==> Submittable(old(formData))
      ensures sent.Some? ==> sent.value == old(formData) && submitting
      ensures sent.None? ==> submitting == old(submitting)
    {
      if !Submittable(formData) {
        return None;
      }
      submitting := true;
      sent := Some(formData);
    }

    /** `handleSubmit` after the `await`. On success the form becomes the
        submitted data with book, chapters and verses cleared (the handler's
        copy of `formData` is the one it submitted); on failure the data is
        kept. Either way `submitting` ends false. */
    method SubmitSettle(sent: EntryFormData, succeeded: bool)
      modifies this
      ensures succeeded ==> formData == Cleared(sent)
      ensures !succeeded ==> formData == old(formData)
      ensures !submitting
    {
      if succeeded {
        formData := Cleared(sent);
      }
      submitting := false;
    }
  }

  /** A full submit of "John" / "3" / "16" on a given date sends those values
      and leaves only the date behind. */
  method SubmitExample(date: string) returns (sent: Option<EntryFormData>, after: EntryFormData)
    ensures sent == Some(EntryFormData("John", "3", "16", date))
    ensures after == EntryFormData("", "", "", date)
  {
    var f := new EntryForm(date);
    f.HandleChange(Book, "John");
    f.HandleChange(Chapters, "3");
    f.HandleChange(Verses, "16");
    ghost var data := f.formData;
    assert data == EntryFormData("John", "3", "16", date);
    assert !IsBlank(data.book) by { assert !IsWhitespace(data.book[0]); }
    assert !IsBlank(data.chapters) by { assert !IsWhitespace(data.chapters[0]); }
    SubmittableIffNotBlank(data);
    sent := f.SubmitStart();
    f.SubmitSettle(sent.value, true);
    after := f.formData;
  }
}
