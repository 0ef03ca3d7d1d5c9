# Scripture Log in Dafny

A Dafny model of the core of a small Next.js Bible-reading tracker
(chrisgen19/bibletracker-app). The app shows a month calendar of reading
entries stored in the browser, with an entry sheet and an entry form per day,
a drag-to-page gesture on the calendar and a swipe-to-delete gesture on each
entry. On the server side there is a route guard in front of the pages,
sign-up and sign-in handlers over a users table, and a readings API over a
readings table.

The model has one Dafny module per core file, plus four supporting modules:

- `Common`: Option, JavaScript truthiness, `startsWith`, ASCII `toLowerCase`,
  `trim`, and the decimal rendering of numbers.
- `Types`: the records of `src/types`.
- `Credentials`: a symbolic bcrypt digest and the token payload.
- `Http`: responses and cookies.

The model takes three forms, following the source:

- **Pure code becomes functions with lemmas.** This covers the route guard,
  the date utilities, the calendar grid, the day cell and the entry sheet.
- **Stateful code becomes classes.** The two gesture hooks, the entry form,
  the home page and the sign-up and sign-in pages each become a class. Their
  state and refs are fields and their handlers are methods with `modifies`
  clauses.
- **Route handlers become methods on in-memory stores.** The users table is
  `Users.UserStore`, a map keyed by the lower-cased email. The readings table
  is `ReadingsRoute.ReadingStore`, a sequence of rows.

Asynchronous handlers are split at their `await` into a `SubmitStart` and a
`SubmitSettle` method. A `SubmitStart` returns what the handler sends. A
`SubmitSettle` takes, as a parameter, what came back.

Everything the code reads from outside becomes a parameter:

- the clock (`today`, `now`);
- the token verifier and issuer;
- the bcrypt salt and `randomUUID()`;
- `NODE_ENV`;
- the stored entries.

## Model

| member | source | states |
|---|---|---|
| Proxy.IsAuthRoute | src/proxy.ts:6-15 | a path is an auth route exactly when it starts with "/login" or "/register"; the match is by prefix |
| Proxy.IsProtectedRoute | src/proxy.ts:18-20 | protected exactly when the path is not an auth route and is "/" or starts with "/profile"; never both protected and auth |
| Proxy.IsAuthenticated | src/proxy.ts:23-27 | authenticated needs a present, non-empty cookie, and then holds exactly when the verifier accepts it |
| Proxy.Decide | src/proxy.ts:29-41 | redirect to login exactly for a protected path without authentication, carrying the pathname as `redirect`; redirect home exactly for an auth route with authentication; pass in every other case |
| Proxy.MissingAndInvalidTokenAgree | src/proxy.ts:23-27 | a rejected token, an empty cookie and a missing cookie lead to the same decision on every path |
| Proxy.GuardExamples | src/proxy.ts:30-41 | "/" signed out goes to login remembering "/"; "/login" signed in goes home; "/login" signed out, "/profile" signed in and "/about" pass; "/login-help" is an auth route |
| Proxy.NoRedirectLoop | src/proxy.ts:30-41 | following either redirect with the same authentication status is let through |
| Proxy.GuardRuns | src/proxy.ts:53 | the guard runs only on paths starting with "/"; it never runs on paths whose rest begins with "api", "_next/static", "_next/image" or "favicon.ico" |
| Proxy.FaviconDotIsWildcard | src/proxy.ts:53 | the '.' of the pattern matches any character, so "/favicon-ico" is excluded too |
| Proxy.GuardRunsOnGuardedPages | src/proxy.ts:53 | the guard runs on every page it protects or redirects away from |
| LoginPage.RedirectTarget | src/app/login/page.tsx:38 | the target is the `redirect` value when it is present and non-empty, "/" otherwise; it is never empty |
| LoginPage.LoginReturnsToGuardedPage | src/app/login/page.tsx:38-39 | a guarded page that sends a signed-out visitor to login is the page signing in returns to, and the guard then lets the visitor in |
| LoginPage.WelcomeText | src/app/login/page.tsx:22-26 | the welcome text is shown exactly when `registered` equals "true"; otherwise the text is empty |
| LoginPage.FailureText | src/app/login/page.tsx:41 | a rejection with an `Error` shows its message; any other rejection shows the generic text |
| LoginPage.LoginForm.constructor | src/app/login/page.tsx:13-26 | empty fields, remember-me off, no error, not loading; the success text follows `registered` |
| LoginPage.LoginForm.HandleChange | src/app/login/page.tsx:46-51 | only the named field takes the value |
| LoginPage.LoginForm.SetRememberMe | src/app/login/page.tsx:126 | only the remember-me flag changes |
| LoginPage.LoginForm.SubmitStart | src/app/login/page.tsx:28-35 | error and success texts are cleared and loading is set; the sign-in call carries the email, password and remember-me flag unchanged |
| LoginPage.LoginForm.SubmitSettle | src/app/login/page.tsx:34-43 | success navigates to the redirect target; failure shows the failure text and ends loading without navigating |
| LoginRoute.RememberMe | src/app/api/auth/login/route.ts:10 | an absent `rememberMe` counts as false |
| LoginRoute.MaxAge | src/app/api/auth/login/route.ts:66 | 2592000 seconds when remembered, 86400 otherwise |
| LoginRoute.SessionCookie | src/app/api/auth/login/route.ts:68-74 | the cookie is named "auth-token", holds the token, is HTTP-only with SameSite "lax" and path "/", and is secure exactly in production |
| LoginRoute.RememberedCookieOutlivesDefault | src/app/api/auth/login/route.ts:66-74 | a remembered cookie lives thirty times longer and is otherwise identical |
| LoginRoute.Post | src/app/api/auth/login/route.ts:7-76 | see the login list below the table |
| LoginRoute.LoginIgnoresEmailCase | src/app/api/auth/login/route.ts:21-24 | two emails with the same lower-cased form are accepted or refused alike |
| Users.WithoutPasswordForgetsOnlyPassword | src/app/api/auth/login/route.ts:55 | two rows give the same public user exactly when they differ at most in the password |
| Users.UserStore.SetLastLoginAt | src/app/api/auth/login/route.ts:46-49 | every row with the id gets the new login time, every other row is untouched, and the table constraints are kept |
| Users.UpdateByIdTouchesOneRow | src/app/api/auth/login/route.ts:46-49 | because ids are unique, the update by id changes exactly the row that was looked up |
| Credentials.Hash | src/app/api/auth/register/route.ts:55 | a digest accepts the password it was made from |
| Credentials.CompareOnlyOriginal | src/app/api/auth/login/route.ts:36 | a digest accepts exactly its own password, whatever the salt |
| Credentials.HashInjective | src/app/api/auth/register/route.ts:55 | different passwords never give the same digest |
| RegisterRoute.Post | src/app/api/auth/register/route.ts:7-96 | see the registration list below the table |
| RegisterRoute.CaseVariantsConflict | src/app/api/auth/register/route.ts:41-52 | after one address registers, a case variant of it is refused with 409 |
| Types.ParseGender | src/app/api/auth/register/route.ts:33-34 | exactly "MALE", "FEMALE" and "OTHER" are accepted, each as its own gender |
| Types.EntriesFor | src/app/page.tsx:40 | the stored list for a key, or the empty list when the key is absent |
| Common.OrNull | src/app/api/auth/register/route.ts:79-84 | present exactly for a non-empty value, which it keeps |
| Common.ToLower | src/app/api/auth/register/route.ts:44 | same length, each character lower-cased (ASCII letters only) |
| Common.ToLowerIdempotent | src/app/api/auth/register/route.ts:74 | lower-casing a lower-cased email changes nothing, so a stored email is found under its own key |
| Common.TrimStart | src/components/EntryForm.tsx:27 | the result is a suffix, its dropped prefix is all white space, and it does not start with white space |
| Common.TrimEnd | src/components/EntryForm.tsx:27 | the result is a prefix, its dropped suffix is all white space, and it does not end with white space |
| Common.Trim | src/components/EntryForm.tsx:27 | the result neither starts nor ends with white space |
| Common.TrimEmptyIffBlank | src/components/EntryForm.tsx:27 | the trimmed string is empty exactly when every character is white space |
| Common.NatToString | src/lib/date-utils.ts:14 | the result is a non-empty run of decimal digits, with one digit exactly below 10 and two digits from 10 to 99 |
| Common.NatToStringInjective | src/lib/date-utils.ts:14 | different numbers are written differently |
| Common.IntToString | src/lib/date-utils.ts:14 | non-negative numbers are their digits; negative ones get a leading minus |
| Common.IntToStringInjective | src/lib/date-utils.ts:14 | different years are written differently |
| Common.Pad2 | src/lib/date-utils.ts:14 | strings of two or more characters are kept; shorter ones are left-filled with '0' to length 2 |
| Common.Pad2Injective | src/lib/date-utils.ts:14 | different numbers below 100 pad to different strings |
| ReadingsRoute.LexLeqTotal | src/app/api/readings/route.ts:29 | any two dates are ordered one way or the other |
| ReadingsRoute.LexLeqTransitive | src/app/api/readings/route.ts:29 | the date order is transitive |
| ReadingsRoute.AllNoLaterThan | src/app/api/readings/route.ts:29 | a rearrangement of rows no later than a date is still no later than it |
| ReadingsRoute.InsertByDate | src/app/api/readings/route.ts:29 | inserting into a newest-first list keeps it newest first and adds exactly the new row |
| ReadingsRoute.SortNewestFirst | src/app/api/readings/route.ts:29 | the result is newest first and is a permutation of the input |
| ReadingsRoute.OwnedBy | src/app/api/readings/route.ts:28-31 | the filter never grows the list |
| ReadingsRoute.OwnedByCount | src/app/api/readings/route.ts:28-31 | each of the user's rows is kept as often as the table holds it; rows of others are dropped |
| ReadingsRoute.OwnedByCounts | src/app/api/readings/route.ts:28-31 | the same count, for every row at once |
| ReadingsRoute.Caller | src/app/api/readings/route.ts:9-25 | a caller exists exactly for a present, non-empty token that verifies, and is its payload |
| ReadingsRoute.Get | src/app/api/readings/route.ts:7-35 | no or empty cookie gives 401 "Not authenticated"; a rejected token gives 401 "Invalid token"; otherwise 200 with exactly the caller's rows (a permutation of them), newest date first |
| ReadingsRoute.GetListsExactlyOwnRows | src/app/api/readings/route.ts:28-35 | a row is listed exactly when it is in the table and belongs to the caller |
| ReadingsRoute.Post | src/app/api/readings/route.ts:46-104 | see the readings list below the table |
| ReadingsRoute.InsertVisibleOnlyToOwner | src/app/api/readings/route.ts:80-96 | after an insert, the owner's list gains exactly the new row and every other user's list is unchanged |
| ReadingsRoute.OwnedByAppend | src/app/api/readings/route.ts:28-31 | filtering an appended table appends the new row exactly when it is the user's |
| SwipeGesture.LockDirection | src/hooks/useSwipeGesture.ts:37-39 | a lock once set stays; an open lock closes only after a move of more than 5 pixels on either axis, horizontal exactly when the horizontal distance is strictly larger |
| SwipeGesture.HorizontalLockNeedsHorizontalTravel | src/hooks/useSwipeGesture.ts:37-39 | a horizontal lock needs more than 5 pixels across; an exact diagonal locks vertical; small moves leave the lock open |
| SwipeGesture.ReleaseAction | src/hooks/useSwipeGesture.ts:60-71 | delete fires exactly when the offset reached the delete threshold and a delete callback exists; otherwise edit fires under the same rule for edit; at most one fires |
| SwipeGesture.ActionForOffset | src/hooks/useSwipeGesture.ts:135-140 | delete from the delete threshold on, edit from the edit threshold up to the delete threshold, nothing below |
| SwipeGesture.DefaultThresholdExamples | src/hooks/useSwipeGesture.ts:13-14 | with 80 and 150, an offset of -160 shows delete, -100 edit and -40 nothing |
| SwipeGesture.ReleaseMonotone | src/hooks/useSwipeGesture.ts:60-71 | swiping further never fires a weaker action |
| SwipeGesture.ShownIsFired | src/hooks/useSwipeGesture.ts:46 | with both callbacks and positive thresholds, the action shown while dragging is the action the release fires |
| SwipeGesture.SwipeGesture.constructor | src/hooks/useSwipeGesture.ts:10-22 | absent thresholds default to 80 and 150; everything starts at rest with the lock open |
| SwipeGesture.SwipeGesture.Shown | src/hooks/useSwipeGesture.ts:145 | the returned `swipeAction` is the offset's classification |
| SwipeGesture.SwipeGesture.Begin | src/hooks/useSwipeGesture.ts:25-30 | the start point is recorded, the lock reopens and the animation stops; nothing else changes |
| SwipeGesture.SwipeGesture.Follow | src/hooks/useSwipeGesture.ts:32-48 | the lock follows `LockDirection`; a horizontal gesture records the distance and shows `min(0, dx)`; any other gesture leaves offset and distance alone; the offset is never positive |
| SwipeGesture.SwipeGesture.Finish | src/hooks/useSwipeGesture.ts:50-74 | the offset returns to 0; a gesture not locked horizontal fires nothing; a horizontal one starts the animation, fires the release action and reopens the lock |
| SwipeGesture.SwipeGesture.TouchStart | src/hooks/useSwipeGesture.ts:25-30 | as `Begin` |
| SwipeGesture.SwipeGesture.TouchMove | src/hooks/useSwipeGesture.ts:32-48 | as `Follow` |
| SwipeGesture.SwipeGesture.TouchEnd | src/hooks/useSwipeGesture.ts:50-74 | as `Finish` |
| SwipeGesture.SwipeGesture.MouseDown | src/hooks/useSwipeGesture.ts:77-84 | dragging starts, then as `Begin` |
| SwipeGesture.SwipeGesture.MouseMove | src/hooks/useSwipeGesture.ts:86-103 | nothing changes unless the mouse is down; otherwise as `Follow` |
| SwipeGesture.SwipeGesture.MouseUp | src/hooks/useSwipeGesture.ts:105-133 | nothing changes unless the mouse is down; otherwise dragging ends, then as `Finish` |
| SwipeGesture.SwipeGesture.MouseLeave | src/hooks/useSwipeGesture.ts:153 | the same transition as mouse up |
| SwipeGesture.DefaultSwipeDeletes | src/components/SwipeableEntry.tsx:13-18 | a 160-pixel left swipe with default thresholds shows delete, fires delete and ends at offset 0 |
| CalendarGestures.Paging | src/hooks/useCalendarGestures.ts:34-38 | right fires exactly for a press and an offset above 100; left exactly for a press and an offset below -100 |
| CalendarGestures.PagingFiresAtMostOne | src/hooks/useCalendarGestures.ts:35-37 | never both; exactly ±100 fires nothing; ±101 fires; no press fires nothing |
| CalendarGestures.CalendarGestures.constructor | src/hooks/useCalendarGestures.ts:9-10 | no press and no offset |
| CalendarGestures.CalendarGestures.Press | src/hooks/useCalendarGestures.ts:12-18 | the press position is recorded |
| CalendarGestures.CalendarGestures.Move | src/hooks/useCalendarGestures.ts:20-24 | ignored without a press; otherwise the offset is the distance from the press |
| CalendarGestures.CalendarGestures.End | src/hooks/useCalendarGestures.ts:34-41 | reports the page turns of `Paging` and resets press and offset; no press implies no offset throughout |
| CalendarGestures.DragLeftPages | src/hooks/useCalendarGestures.ts:20-41 | a press at 400 dragged to 250 turns the page left only |
| DateUtils.DaysInMonth | src/lib/date-utils.ts:1-5 | 28 to 31; February has 29 days exactly in Gregorian leap years; April, June, September and November have 30; the rest 31 |
| DateUtils.Weekday | src/lib/date-utils.ts:10 | a weekday from 0 (Sunday) to 6 |
| DateUtils.FirstDayOfMonth | src/lib/date-utils.ts:7-11 | a weekday from 0 to 6 |
| DateUtils.YearLength | src/lib/date-utils.ts:4 | a year has 366 days exactly when it is a leap year |
| DateUtils.DaysBeforeNextMonth | src/lib/date-utils.ts:4 | the day count of the next 1st is this 1st's plus the month length |
| DateUtils.NextMonth | src/lib/date-utils.ts:4 | the month after, with December rolling over to January |
| DateUtils.NextFirstDay | src/lib/date-utils.ts:7-11 | the next month's first weekday is this month's first weekday plus its length, modulo 7 |
| DateUtils.WeekdayExamples | src/lib/date-utils.ts:7-11 | 2024-01-01 was a Monday and 2026-10-01 a Thursday |
| DateUtils.FormatDateKey | src/lib/date-utils.ts:13-15 | the year, '-', the 1-based month padded to two digits, '-', the day padded to two digits |
| DateUtils.FormatDateKeyInjective | src/lib/date-utils.ts:13-15 | different valid dates have different keys |
| DateUtils.FourDigitYearKeyLength | src/lib/date-utils.ts:13-15 | with a four-digit year the key has the ten characters of "YYYY-MM-DD" |
| DateUtils.MonthNamesAreTwelve | src/lib/date-utils.ts:17-20 | twelve names, January at index 0 and December at 11 |
| DateUtils.IsDatePast | src/lib/date-utils.ts:30-36 | the day is strictly before today |
| DateUtils.IsDateFuture | src/lib/date-utils.ts:22-28 | the day is strictly after today |
| DateUtils.IsDateToday | src/lib/date-utils.ts:38-42 | comparing the keys is the same as comparing the dates |
| DateUtils.ExactlyOneOfPastTodayFuture | src/lib/date-utils.ts:22-42 | each day is exactly one of past, today and future |
| CalendarGrid.TrailingPadding | src/components/CalendarGrid.tsx:113 | below 7; zero when the cells already fill whole weeks; completes the last week |
| CalendarGrid.TrailingPaddingIsLeast | src/components/CalendarGrid.tsx:113 | no smaller padding completes the last week |
| CalendarGrid.IsSelected | src/components/CalendarGrid.tsx:44-48 | false without a selected date; otherwise true exactly for the selected day |
| CalendarGrid.Render | src/components/CalendarGrid.tsx:35-113 | leading blanks equal the weekday of the 1st; one cell per day, in order, with its key, its entries (or none) and its today, selected and past flags; the total is whole weeks |
| CalendarGrid.AtMostOneToday | src/components/CalendarGrid.tsx:38-42 | at most one cell is marked today, and one is exactly when today lies in the shown month |
| CalendarGrid.AtMostOneSelected | src/components/CalendarGrid.tsx:44-48 | at most one cell is marked selected, and none without a selected date |
| DayCell.DisplayString | src/components/DayCell.tsx:13-16 | a non-empty legacy `verse` wins; otherwise "book chapters", with ":verses" appended exactly when verses is non-empty |
| DayCell.BackgroundOf | src/components/DayCell.tsx:21-28 | selected wins over having entries, which wins over the past, which wins over the default |
| DayCell.Preview | src/components/DayCell.tsx:80 | the first at most three entries, in stored order |
| DayCell.MoreNote | src/components/DayCell.tsx:109-117 | "+N more" with N the entries beyond three, present exactly when there are more than three |
| DayCell.Render | src/components/DayCell.tsx:19-117 | has-data exactly for a non-empty list; the background priority; today's ring; previews of the first three entries; the note |
| DayCell.PreviewAndMoreCoverAll | src/components/DayCell.tsx:99-117 | the previews plus the count in the note account for every entry once |
| DayCell.MoreNoteExamples | src/components/DayCell.tsx:109-117 | four entries preview three and note "+1 more"; three need no note |
| EntrySheet.CountNoun | src/components/EntrySheet.tsx:81 | "entry" exactly for one, "entries" otherwise |
| EntrySheet.Render | src/components/EntrySheet.tsx:29-94 | nothing unless open with a selected date; otherwise the form seeded with the day's key, the count and one row per entry in stored order, with the shared display string and delete only |
| EntrySheet.RowsOnlyDelete | src/components/SwipeableEntry.tsx:13-18 | a row's swipe never edits, and deletes exactly at 150 pixels or more |
| EntryForm.WithField | src/components/EntryForm.tsx:40-42 | only the named field takes the value |
| EntryForm.SubmittableIffNotBlank | src/components/EntryForm.tsx:27 | a submit goes ahead exactly when neither book nor chapters is blank |
| EntryForm.Cleared | src/components/EntryForm.tsx:32 | book, chapters and verses are emptied and the date is kept |
| EntryForm.EntryForm.constructor | src/components/EntryForm.tsx:17-23 | empty fields, the sheet's date, not submitting |
| EntryForm.EntryForm.Disabled | src/components/EntryForm.tsx:122 | disabled exactly when book or chapters is blank, or a submit is under way |
| EntryForm.EntryForm.HandleChange | src/components/EntryForm.tsx:40-42 | only the named field changes |
| EntryForm.EntryForm.SubmitStart | src/components/EntryForm.tsx:25-31 | the data is handed on, and submitting set, exactly when neither required field is blank; otherwise nothing changes |
| EntryForm.EntryForm.SubmitSettle | src/components/EntryForm.tsx:31-37 | success leaves the submitted data cleared; failure keeps the data; submitting ends false either way |
| EntryForm.SubmitExample | src/components/EntryForm.tsx:25-38 | submitting "John" 3:16 sends those values and leaves only the date |
| RegisterPage.WithField | src/app/register/page.tsx:71-79 | only the named field takes the value |
| RegisterPage.ClientError | src/app/register/page.tsx:33-42 | a mismatch is reported first; then a password shorter than 8 characters; otherwise the form passes |
| RegisterPage.PasswordLengthBoundary | src/app/register/page.tsx:39-42 | eight characters pass, seven do not, and a short mismatch reports the mismatch |
| RegisterPage.RequestBody | src/app/register/page.tsx:52 | every form field is sent as typed |
| RegisterPage.FailureText | src/app/register/page.tsx:58 | the server's error when non-empty, "Registration failed" otherwise |
| RegisterPage.RegisterPage.constructor | src/app/register/page.tsx:11-26 | all fields empty except gender "MALE", no confirmation, no error, not loading |
| RegisterPage.RegisterPage.HandleChange | src/app/register/page.tsx:71-79 | only the named field changes |
| RegisterPage.RegisterPage.SetConfirmPassword | src/app/register/page.tsx:195 | only the confirmation changes |
| RegisterPage.RegisterPage.SubmitStart | src/app/register/page.tsx:28-53 | a failing client check shows its message and sends nothing; otherwise the error is cleared, loading set and the form posted |
| RegisterPage.RegisterPage.SubmitSettle | src/app/register/page.tsx:55-68 | an error response shows the server's text or the fallback; an exception shows the generic text, and both end loading; success navigates to "/login?registered=true" |
| RegisterPage.DefaultGenderAccepted | src/app/register/page.tsx:16 | the default gender is one the server accepts |
| HomePage.NextMonthStart | src/app/page.tsx:24-26 | a valid 1st of the month one month on; December rolls over to January of the next year |
| HomePage.PrevMonthStart | src/app/page.tsx:28-30 | a valid 1st of the month one month back; January rolls back to December of the year before |
| HomePage.MonthIndexDeterminesFirst | src/app/page.tsx:24-30 | two 1sts with the same month count are the same date |
| HomePage.PrevUndoesNext | src/app/page.tsx:24-30 | on a 1st of the month, stepping back undoes stepping forward and vice versa |
| HomePage.WithEntryAdded | src/app/page.tsx:39-54 | the key's list, created if absent, gains the entry at its end; every other key is unchanged |
| HomePage.WithoutId | src/app/page.tsx:63 | the filter never grows the list |
| HomePage.WithoutIdCounts | src/app/page.tsx:63 | entries with the id are dropped and every other entry keeps its count |
| HomePage.WithoutIdDistributes | src/app/page.tsx:63 | the filter keeps the order of the remaining entries |
| HomePage.WithoutAbsentId | src/app/page.tsx:63 | a list without the id is kept as it is |
| HomePage.WithEntryRemoved | src/app/page.tsx:57-64 | the key's list, created if absent, loses the id's entries; every other key is unchanged |
| HomePage.AddThenRemoveRestores | src/app/page.tsx:34-64 | adding an entry with a new id and removing that id from the same day restores the day's list and touches no other day |
| HomePage.NewEntry | src/app/page.tsx:46-52 | a numeric id from the clock, the form's book, chapters and verses, and no date field |
| HomePage.Home.constructor | src/app/page.tsx:16-22 | today's month, nothing selected, the initial entries, the sheet closed, no drag |
| HomePage.Home.NextMonth | src/app/page.tsx:24-26 | the month advances to the next 1st; nothing else changes |
| HomePage.Home.PrevMonth | src/app/page.tsx:28-30 | the month goes back to the previous 1st; nothing else changes |
| HomePage.Home.AddEntry | src/app/page.tsx:34-55 | the entries map gains the new entry under the form's date; nothing else changes |
| HomePage.Home.RemoveEntry | src/app/page.tsx:57-65 | no change without a selected day; otherwise the selected day's entries with the id are removed |
| HomePage.Home.HandleDayClick | src/app/page.tsx:67-70 | the clicked day is selected and the sheet opens |
| HomePage.Home.HandleAddButtonClick | src/app/page.tsx:72-75 | today is selected and the sheet opens |
| HomePage.Home.CloseSheet | src/app/page.tsx:96 | the sheet closes |
| HomePage.Home.GestureEnd | src/app/page.tsx:32 | a left swipe shows the next month, a right swipe the previous one, and anything shorter keeps the month |
| MockData.GetKeyIsFormatDateKey | src/lib/mock-data.ts:9-10 | the generator's keys are the keys `formatDateKey` gives |
| MockData.MockEntry | src/lib/mock-data.ts:18-23 | id "day-index", the reading's book, chapters and verses, and the key as date |
| MockData.DayEntries | src/lib/mock-data.ts:18-23 | one entry per reading of the group, in order |
| MockData.AddEntry | src/lib/mock-data.ts:14-25 | a day still in the month stores the group under its key; an offset reaching day 0 or before changes nothing |
| MockData.CountBelow | src/lib/mock-data.ts:15-16 | at most one per offset |
| MockData.GroupSizes | src/lib/mock-data.ts:27-37 | the groups hold 1, 1, 2, 2 and 1 readings |
| MockData.CountFormula | src/lib/mock-data.ts:15-16 | the count is one per offset among 0, 1, 3, 6 and 14 that lies below today's day |
| MockData.CountExamples | src/lib/mock-data.ts:27-37 | one day on the 1st, three on the 5th, and all five from the 15th on |
| MockData.CountBelowSnoc | src/lib/mock-data.ts:15-16 | one more offset adds one exactly when it is below the day |
| MockData.KeyIsNew | src/lib/mock-data.ts:27-37 | a group's key is none of the keys of the groups before it |
| MockData.KeysUpToMember | src/lib/mock-data.ts:27-37 | every key stored so far is the key of a group in reach |
| MockData.KeysUpToCount | src/lib/mock-data.ts:27-37 | the groups in reach have as many keys as there are groups |
| MockData.OnlyTodayOnDayOne | src/lib/mock-data.ts:15-16 | on the 1st only today's key is stored |
| MockData.FillStep | src/lib/mock-data.ts:14-25 | one call extends the filled prefix by its own group |
| MockData.FillFirstFilled | src/lib/mock-data.ts:27-37 | every prefix of the calls fills the map with exactly its groups |
| MockData.FiveCalls | src/lib/mock-data.ts:27-37 | the generator's five calls, in order |
| MockData.DayKeysDiffer | src/lib/mock-data.ts:9-10 | different days of one month get different keys |
| MockData.KeyOfDistinct | src/lib/mock-data.ts:9-10 | the keys of today's month tell its days apart |
| MockData.FilledMap | src/lib/mock-data.ts:27-39 | a map filled by all five calls holds each group in reach under its key, and nothing else |
| MockData.GenerateMockData | src/lib/mock-data.ts:3-39 | each group in reach is stored under its day's key with its entries; every key is such a key; there is one key per offset below today's day; on the 1st only today's key exists |

`LoginRoute.Post` states:

- A missing or empty email or password gives 400, before any lookup.
- An unknown email and a wrong password give the same 401 response.
- Acceptance depends on the lower-cased email.
- Success is exactly acceptance. On success:
  - only the user's `lastLoginAt` is set;
  - the body carries the user as read, minus the password, and the token;
  - the cookie carries the same token.
- Every failure leaves the table unchanged and sets no cookie.

`RegisterRoute.Post` states the ladder, in order:

1. A missing or empty required field gives 400.
2. A gender outside the three gives 400.
3. An existing lower-cased email gives 409.
4. A taken id gives 500.

Success happens exactly when all four checks pass. It then adds exactly one row under the lower-cased email. That row has:

- the password's digest;
- the given names and gender;
- `null` for any empty optional field;
- both verification flags false;
- status PENDING_VERIFICATION.

The response is 201, with the row minus the password. The `RETURNING` list of that insert has no `lastLoginAt` (src/app/api/auth/register/route.ts:70-71), so the key is absent from the JSON; the model writes that absent key as `None`. Every failure leaves the table unchanged.

`ReadingsRoute.Post` states the same authentication ladder as `Get`, then:

- A missing or empty book, chapters or date gives 400.
- A taken id gives 500.
- Success happens exactly when all checks pass. It appends exactly one row with:
  - the new id;
  - the verified user's id;
  - `completed` true;
  - `null` for empty verses or notes.
- The response is 201, with that row.
- Every failure leaves the table unchanged.

## Left out

- `verifyToken`, `createToken` and JWT signing (`src/lib/auth.ts`) are not part of this model. They are parameters of the handlers and the guard.
- bcrypt is replaced by a symbolic digest that commits to the password. The cost factor 10 and the actual hashing are not modelled.
- The Postgres pool is replaced by in-memory stores:
  - **Not modelled:** the SQL text, the columns no modelled code writes (profile picture, password reset, `updatedAt`, the readings' timestamps) and the row-order details beyond `ORDER BY "dateRead" DESC`.
  - **Date order:** dates are compared as ISO strings.
  - **Ties:** they keep the stored order, which SQL leaves unspecified.
- LoginRoute.Post: has no path for a failure inside the database or the token issuer, the source's 500 "An error occurred during login". Those calls cannot fail in the model.
- RegisterRoute.Post: has no path for the source's catch-all 500 "An error occurred during registration" (src/app/api/auth/register/route.ts:97-102). That path is reached by a body that is not valid JSON, a non-string `email` whose `toLowerCase` throws, or a failing query. The model's body is always a parsed record of optional strings and its store never fails; its only 500 is the id clash.
- ReadingsRoute.Get: has no path for the source's catch-all 500 "An error occurred" (src/app/api/readings/route.ts:36-41). That path is reached when `verifyToken` rejects instead of returning null, or when the query fails. The model's verifier is a total function and its table read never fails.
- ReadingsRoute.Post: has no path for the catch-all 500 a body that is not valid JSON, a rejecting `verifyToken` or a failing insert would give (src/app/api/readings/route.ts:66, 105-110). Its only 500 is the id clash.
- Registration's check-then-insert is not atomic. Two concurrent requests for one email are a race, which the model does not capture because its handlers run one at a time.
- The `redirect` query value is the raw pathname. URL encoding and decoding are not modelled.
- React runtime behaviour is reduced to fields and results. Not modelled:
  - re-render timing;
  - `useCallback` dependency lists and stale closures, except the entry form's reset, which uses the submitted data;
  - `preventDefault`;
  - event objects;
  - a second submit while one is pending.
- `fetch`, `router.push` and `NextResponse` are not invoked. What they would be called with becomes a result or a `navigatedTo` field.
- Pixel coordinates are integers; fractional `clientX`/`clientY` values are not modelled.
- `useStickyState` and local storage are not part of this model. The home page takes its initial entries as a parameter.
- Presentation is not modelled: class strings, icons, the header, the add button, the month control, the profile page, and the markup of the swipeable row. Only the swipeable row's options (thresholds 80 and 150, edit callback only when provided) are kept, in `EntrySheet.SheetSwipe`.
- The clock is a parameter everywhere. Dates are valid calendar dates `(year, month0, day)`; `Date`'s normalisation of out-of-range months and days is not modelled.
- DateUtils.ValidDate: accepts every integer year on the proleptic Gregorian calendar. `new Date(y, m, d)` reads the years 0 to 99 as 1900 to 1999, and `Date` only reaches about 275760 years either side of 1970. So for those years the model differs from the source wherever the source builds a date from its parts. That covers `DaysInMonth`, `FirstDayOfMonth`, `IsDatePast`, `IsDateFuture` and `IsDateToday` (src/lib/date-utils.ts:4, 10, 25, 33, 40), `CalendarGrid.IsSelected` and `CalendarGrid.Render` (src/components/CalendarGrid.tsx:40, 46), and the month steps (src/app/page.tsx:25, 29). For example, February of year 0 has 29 days in the model and 28 in the source.
- HomePage.PrevUndoesNext: holds of the source only for 1sts of months from February of year 100 on, within `Date`'s range. From January of year 100 the source steps back with `new Date(100, -1, 1)`, which is December of year 99. Stepping forward from there calls `new Date(99, 12, 1)` (src/app/page.tsx:25), which reads 99 as 1999 and gives January 2000. So at that point the two steps are not inverse.
- HomePage.Home.AddEntry: uses the form's date string as the key. The source parses it, shifts it by the timezone offset and formats it again. For a well-formed "YYYY-MM-DD" string this gives the same string, but the model does not prove that, since time zones are not modelled. The date input is not `required` (src/components/EntryForm.tsx:105-111), so a cleared field submits "". The source then files the entry under the key "NaN-NaN-NaN", while the model files it under "".
- HomePage.NewEntry: the entry's `timestamp` field is not modelled, and neither are those of the sample entries.
- `toLowerCase` is modelled on ASCII letters only. `trim` covers the common white-space characters. String lengths count characters, not UTF-16 code units.
- Month and weekday names rendered through `toLocaleDateString` are not modelled. The `monthNames` table is.
