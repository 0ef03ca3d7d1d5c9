/** The records of src/types/index.ts and src/types/user.ts. Optional
    TypeScript fields (`verses?: string`) become `Option` values; timestamps
    are whole numbers supplied by the caller (the model has no clock). */
module Types {
  import opened Common

  // ---------------------------------------------------------------------------
  // Calendar entries (src/types/index.ts)

  /** `id: string | number`: a string id never equals a numeric one. */
  datatype EntryId = StrId(s: string) | NumId(n: int)

  /** A reading shown on the calendar. `date` is optional because the home page
      stores new entries without it; `verse` is the legacy single-string form.
      The `timestamp` field is not modelled. */
  datatype BibleEntry = BibleEntry(
    id: EntryId,
    book: string,
    chapters: string,
    verses: Option<string>,
    date: Option<string>,
    verse: Option<string>)

  /** `Record<string, BibleEntry[]>`, keyed by "YYYY-MM-DD". */
  type EntriesMap = map<string, seq<BibleEntry>>

  /** `entries[key] || []`: the stored list, or the empty list when absent. */
  function EntriesFor(entries: EntriesMap, key: string): (r: seq<BibleEntry>)
    ensures key in entries ==> r == entries[key]
    ensures key !in entries ==> r == []
  {
    if key in entries then entries[key] else []
  }

  datatype EntryFormData = EntryFormData(book: string, chapters: string, verses: string, date: string)

  /** A row of the bible_readings table (`BibleReading`); the creation and
      update timestamps are not modelled. `dateRead` is the ISO date string. */
  datatype Reading = Reading(
    id: string,
    userId: string,
    bibleBook: string,
    chapters: string,
    verses: Option<string>,
    dateRead: string,
    completed: bool,
    notes: Option<string>)

  // ---------------------------------------------------------------------------
  // Users (src/types/user.ts)

  datatype Gender = MALE | FEMALE | OTHER

  datatype UserStatus = PENDING_VERIFICATION | ACTIVE | SUSPENDED | INACTIVE

  /** The gender names the registration handler accepts. */
  function ParseGender(s: string): (g: Option<Gender>)
    ensures g.Some? <==> s in {"MALE", "FEMALE", "OTHER"}
    ensures g == Some(MALE) <==> s == "MALE"
    ensures g == Some(FEMALE) <==> s == "FEMALE"
    ensures g == Some(OTHER) <==> s == "OTHER"
  {
    if s == "MALE" then Some(MALE)
    else if s == "FEMALE" then Some(FEMALE)
    else if s == "OTHER" then Some(OTHER)
    else None
  }

  /** The registration request body: every field as the JSON body carries it,
      absent fields as `None`. */
  datatype UserRegistration = UserRegistration(
    email: Option<string>,
    password: Option<string>,
    firstName: Option<string>,
    lastName: Option<string>,
    gender: Option<string>,
    phoneNumber: Option<string>,
    dateOfBirth: Option<string>,
    country: Option<string>,
    city: Option<string>,
    address: Option<string>,
    postalCode: Option<string>)

  /** The login request body (`UserLogin & { rememberMe?: boolean }`). */
  datatype UserLogin = UserLogin(email: Option<string>, password: Option<string>, rememberMe: Option<bool>)
}
