/** `GET` and `POST /api/readings` (src/app/api/readings/route.ts). Both
    re-derive the caller from the session cookie: no cookie is "Not
    authenticated", a token the verifier rejects is "Invalid token". GET lists
    the caller's rows newest date first; POST validates the body and inserts
    one completed row owned by the verified user. The verifier is a parameter;
    the bible_readings table is an in-memory sequence of rows. */
module ReadingsRoute {
  import opened Common
  import opened Types
  import opened Credentials
  import opened Http

  const MsgNotAuthenticated := "Not authenticated"
  const MsgInvalidToken := "Invalid token"
  const MsgRequired := "Bible book, chapters, and date are required"
  const MsgAdded := "Reading added successfully"
  const MsgFailed := "An error occurred"

  // ---------------------------------------------------------------------------
  // Ordering by dateRead. Dates are ISO "YYYY-MM-DD" strings, whose
  // chronological order is their lexicographic order.

  /** `a` comes no later than `b` in lexicographic order. */
  predicate LexLeq(a: string, b: string) {
    a == [] || (b != [] && (a[0] < b[0] || (a[0] == b[0] && LexLeq(a[1..], b[1..]))))
  }

  lemma {:induction false} LexLeqTotal(a: string, b: string)
    ensures LexLeq(a, b) || LexLeq(b, a)
  {
    if a != [] && b != [] && a[0] == b[0] {
      LexLeqTotal(a[1..], b[1..]);
    }
  }

  lemma {:induction false} LexLeqTransitive(a: string, b: string, c: string)
    requires LexLeq(a, b) && LexLeq(b, c)
    ensures LexLeq(a, c)
  {
    if a != [] && b != [] && c != [] && a[0] == b[0] && b[0] == c[0] {
      LexLeqTransitive(a[1..], b[1..], c[1..]);
    }
  }

  /** `ORDER BY "dateRead" DESC`: no row has a later date than one before it. */
  ghost predicate NewestFirst(s: seq<Reading>) {
    forall i, j :: 0 <= i < j < |s| ==> LexLeq(s[j].dateRead, s[i].dateRead)
  }

  /** A permutation of `t` plus `x` has no row later than `top` when neither
      `t` nor `x` has. */
  lemma AllNoLaterThan(r: seq<Reading>, t: seq<Reading>, x: Reading, top: string)
    requires multiset(r) == multiset(t) + multiset{x}
    requires forall j :: 0 <= j < |t| ==> LexLeq(t[j].dateRead, top)
    requires LexLeq(x.dateRead, top)
    ensures forall j :: 0 <= j < |r| ==> LexLeq(r[j].dateRead, top)
  {
    forall j | 0 <= j < |r|
      ensures LexLeq(r[j].dateRead, top)
    {
      assert r[j] in multiset(r);
      if r[j] != x {
        assert r[j] in multiset(t);
        var k :| 0 <= k < |t| && t[k] == r[j];
      }
    }
  }

  /** Places `x` before the first row whose date is not later than its own. */
  function InsertByDate(x: Reading, s: seq<Reading>): (r: seq<Reading>)
    requires NewestFirst(s)
    ensures NewestFirst(r)
    ensures multiset(r) == multiset(s) + multiset{x}
    ensures |r| == |s| + 1
  {
    if s == [] then [x]
    else if LexLeq(s[0].dateRead, x.dateRead) then
      forall j | 0 < j < |s| ensures LexLeq(s[j].dateRead, x.dateRead) {
        LexLeqTransitive(s[j].dateRead, s[0].dateRead, x.dateRead);
      }
      [x] + s
    else
      var rest := InsertByDate(x, s[1..]);
      LexLeqTotal(s[0].dateRead, x.dateRead);
      AllNoLaterThan(rest, s[1..], x, s[0].dateRead);
      assert s == [s[0]] + s[1..];
      [s[0]] + rest
  }

  /** The rows of `s`, newest date first. Rows with the same date keep their
      stored order. */
  function SortNewestFirst(s: seq<Reading>): (r: seq<Reading>)
    ensures NewestFirst(r)
    ensures multiset(r) == multiset(s)
  {
    if s == [] then []
    else
      assert s == [s[0]] + s[1..];
      InsertByDate(s[0], SortNewestFirst(s[1..]))
  }

  /** `WHERE "userId" = $1`: the rows owned by `userId`, in stored order. */
  function OwnedBy(rows: seq<Reading>, userId: string): (r: seq<Reading>)
    ensures |r| <= |rows|
  {
    if rows == [] then []
    else
      var rest := OwnedBy(rows[1..], userId);
      if rows[0].userId == userId then [rows[0]] + rest else rest
  }

  /** The filter keeps every row of the user as often as the table has it,
      and no row of anyone else. */
  lemma {:induction false} OwnedByCount(rows: seq<Reading>, userId: string, x: Reading)
    ensures multiset(OwnedBy(rows, userId))[x] == if x.userId == userId then multiset(rows)[x] else 0
  {
    if rows != [] {
      OwnedByCount(rows[1..], userId, x);
      assert rows == [rows[0]] + rows[1..];
    }
  }

  lemma OwnedByCounts(rows: seq<Reading>, userId: string)
    ensures forall x :: multiset(OwnedBy(rows, userId))[x] == if x.userId == userId then multiset(rows)[x] else 0
  {
    forall x {
      OwnedByCount(rows, userId, x);
    }
  }

  // ---------------------------------------------------------------------------
  // GET

  /** Whether the cookie value names a caller: present, non-empty and verified. */
  function Caller(token: Option<string>, verify: string -> Option<Payload>): (p: Option<Payload>)
    ensures p.Some? <==> Truthy(token) && verify(token.value).Some?
    ensures p.Some? ==> p == verify(token.value)
  {
    if Truthy(token) then verify(token.value) else None
  }

  /** The GET handler on the table's rows. */
  function Get(rows: seq<Reading>, token: Option<string>, verify: string -> Option<Payload>): (r: Response<seq<Reading>>)
    ensures !Truthy(token) ==> r == ErrorResponse(401, MsgNotAuthenticated)
    ensures Truthy(token) && verify(token.value).None? ==> r == ErrorResponse(401, MsgInvalidToken)
    ensures r.OkResponse? <==> Caller(token, verify).Some?
    ensures r.OkResponse? ==>
      var userId := Caller(token, verify).value.userId;
      && r.status == 200
      && NewestFirst(r.body)
      && (forall x :: multiset(r.body)[x] == if x.userId == userId then multiset(rows)[x] else 0)
  {
    if !Truthy(token) then ErrorResponse(401, MsgNotAuthenticated)
    else
      var payload := verify(token.value);
      if payload.None? then ErrorResponse(401, MsgInvalidToken)
      else
        OwnedByCounts(rows, payload.value.userId);
        OkResponse(200, SortNewestFirst(OwnedBy(rows, payload.value.userId)))
  }

  /** The list GET returns holds exactly the caller's rows. */
  lemma GetListsExactlyOwnRows(rows: seq<Reading>, token: Option<string>, verify: string -> Option<Payload>, x: Reading)
    requires Caller(token, verify).Some?
    ensures x in Get(rows, token, verify).body <==> x in rows && x.userId == Caller(token, verify).value.userId
  {
    var r := Get(rows, token, verify);
    assert x in r.body <==> multiset(r.body)[x] > 0;
    assert x in rows <==> multiset(rows)[x] > 0;
  }

  // ---------------------------------------------------------------------------
  // POST

  /** The JSON body of a POST, absent fields as `None`. */
  datatype ReadingBody = ReadingBody(
    bibleBook: Option<string>,
    chapters: Option<string>,
    verses: Option<string>,
    dateRead: Option<string>,
    notes: Option<string>)

  /** The success body: a message and the inserted row (`RETURNING *`). */
  datatype Added = Added(message: string, reading: Reading)

  predicate RequiredPresent(body: ReadingBody) {
    Truthy(body.bibleBook) && Truthy(body.chapters) && Truthy(body.dateRead)
  }

  class ReadingStore {
    var rows: seq<Reading>

    /** The primary key: no two rows share an id. */
    ghost predicate Valid()
      reads this
    {
      forall i, j :: 0 <= i < j < |rows| ==> rows[i].id != rows[j].id
    }

    constructor ()
      ensures Valid() && rows == []
    {
      rows := [];
    }

    predicate HasId(id: string)
      reads this
    {
      exists i :: 0 <= i < |rows| && rows[i].id == id
    }
  }

  /** The POST handler. `newId` is what `randomUUID()` returns; an id already
      in the table makes the insert fail, which the catch block reports as a
      500. */
  method Post(store: ReadingStore, token: Option<string>, verify: string -> Option<Payload>,
              body: ReadingBody, newId: string)
    returns (resp: Response<Added>)
    requires store.Valid()
    modifies store
    ensures store.Valid()
    ensures !Truthy(token) ==> resp == ErrorResponse(401, MsgNotAuthenticated)
    ensures Truthy(token) && verify(token.value).None? ==> resp == ErrorResponse(401, MsgInvalidToken)
    ensures Caller(token, verify).Some? && !RequiredPresent(body) ==> resp == ErrorResponse(400, MsgRequired)
    ensures (Caller(token, verify).Some? && RequiredPresent(body) && old(store.HasId(newId))) ==>
      resp == ErrorResponse(500, MsgFailed)
    ensures resp.OkResponse? <==> Caller(token, verify).Some? && RequiredPresent(body) && !old(store.HasId(newId))
    ensures resp.ErrorResponse? ==> store.rows == old(store.rows)
    ensures resp.OkResponse? ==>
      var row := Reading(newId, Caller(token, verify).value.userId, body.bibleBook.value, body.chapters.value,
                         OrNull(body.verses), body.dateRead.value, true, OrNull(body.notes));
      && store.rows == old(store.rows) + [row]
      && resp == OkResponse(201, Added(MsgAdded, row))
  {
    if !Truthy(token) {
      return ErrorResponse(401, MsgNotAuthenticated);
    }
    var payload := verify(token.value);
    if payload.None? {
      return ErrorResponse(401, MsgInvalidToken);
    }
    if !RequiredPresent(body) {
      return ErrorResponse(400, MsgRequired);
    }
    if store.HasId(newId) {
      return ErrorResponse(500, MsgFailed);
    }
    var row := Reading(newId, payload.value.userId, body.bibleBook.value, body.chapters.value,
                       OrNull(body.verses), body.dateRead.value, true, OrNull(body.notes));
    store.rows := store.rows + [row];
    resp := OkResponse(201, Added(MsgAdded, row));
  }

  /** After a row is inserted for one user, that user's list gains exactly the
      new row and every other user's list holds the same rows as before. */
  lemma InsertVisibleOnlyToOwner(rows: seq<Reading>, row: Reading, token: Option<string>, verify: string -> Option<Payload>)
    requires Caller(token, verify).Some?
    ensures var userId := Caller(token, verify).value.userId;
      multiset(Get(rows + [row], token, verify).body)
        == multiset(Get(rows, token, verify).body) + (if row.userId == userId then multiset{row} else multiset{})
  {
    var userId := Caller(token, verify).value.userId;
    var extra := if row.userId == userId then [row] else [];
    OwnedByAppend(rows, row, userId);
    assert multiset(OwnedBy(rows + [row], userId)) == multiset(OwnedBy(rows, userId)) + multiset(extra);
    assert Get(rows, token, verify).body == SortNewestFirst(OwnedBy(rows, userId));
    assert Get(rows + [row], token, verify).body == SortNewestFirst(OwnedBy(rows + [row], userId));
  }

  /** The filter of an appended table is the filter of the old table followed
      by the new row when it is the user's. */
  lemma {:induction false} OwnedByAppend(rows: seq<Reading>, row: Reading, userId: string)
    ensures OwnedBy(rows + [row], userId) == OwnedBy(rows, userId) + (if row.userId == userId then [row] else [])
  {
    if rows == [] {
      assert [] + [row] == [row];
      assert [row][1..] == [];
    } else {
      OwnedByAppend(rows[1..], row, userId);
      assert (rows + [row])[0] == rows[0];
      assert (rows + [row])[1..] == rows[1..] + [row];
    }
  }
}
