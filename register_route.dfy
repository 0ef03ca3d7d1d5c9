/** `POST /api/auth/register` (src/app/api/auth/register/route.ts): required
    fields, then the gender enumeration, then the duplicate-email check on the
    lower-cased email, then the insert of a hashed, unverified user. */
module RegisterRoute {
  import opened Common
  import opened Types
  import opened Credentials
  import opened Http
  import opened Users

  const MsgRequired := "Email, password, first name, last name, and gender are required"
  const MsgInvalidGender := "Invalid gender value"
  const MsgExists := "User with this email already exists"
  const MsgRegistered := "User registered successfully"
  const MsgFailed := "An error occurred during registration"

  /** The success body: a message and the inserted user without its password. */
  datatype Registered = Registered(message: string, user: PublicUser)

  /** `!email || !password || !firstName || !lastName || !gender` is false. */
  predicate RequiredPresent(body: UserRegistration) {
    Truthy(body.email) && Truthy(body.password) && Truthy(body.firstName)
    && Truthy(body.lastName) && Truthy(body.gender)
  }

  /** The handler. `salt` is the salt bcrypt draws, `newId` the value
      `randomUUID()` returns and `now` the database's CURRENT_TIMESTAMP. An id
      that is already taken makes the insert fail, which the handler's catch
      block turns into a 500. */
  method Post(store: UserStore, body: UserRegistration, salt: nat, newId: string, now: int)
    returns (resp: Response<Registered>)
    requires store.Valid()
    modifies store
    ensures store.Valid()
    ensures !RequiredPresent(body) ==> resp == ErrorResponse(400, MsgRequired)
    ensures RequiredPresent(body) && ParseGender(body.gender.value).None? ==>
      resp == ErrorResponse(400, MsgInvalidGender)
    ensures (RequiredPresent(body) && ParseGender(body.gender.value).Some?
             && ToLower(body.email.value) in old(store.users)) ==>
      resp == ErrorResponse(409, MsgExists)
    ensures (RequiredPresent(body) && ParseGender(body.gender.value).Some?
             && ToLower(body.email.value) !in old(store.users) && old(store.HasId(newId))) ==>
      resp == ErrorResponse(500, MsgFailed)
    ensures resp.OkResponse? <==>
      RequiredPresent(body) && ParseGender(body.gender.value).Some?
      && ToLower(body.email.value) !in old(store.users) && !old(store.HasId(newId))
    ensures resp.ErrorResponse? ==> store.users == old(store.users)
    ensures resp.OkResponse? ==>
      var key := ToLower(body.email.value);
      && key in store.users
      && store.users == old(store.users)[key := store.users[key]]
      && var u := store.users[key];
      && u.id == newId
      && u.email == key
      && u.password == Hash(body.password.value, salt)
      && u.firstName == body.firstName.value
      && u.lastName == body.lastName.value
      && Some(u.gender) == ParseGender(body.gender.value)
      && u.phoneNumber == OrNull(body.phoneNumber)
      && u.dateOfBirth == OrNull(body.dateOfBirth)
      && u.country == OrNull(body.country)
      && u.city == OrNull(body.city)
      && u.address == OrNull(body.address)
      && u.postalCode == OrNull(body.postalCode)
      && !u.emailVerified && !u.phoneVerified
      && u.status == PENDING_VERIFICATION
      && u.lastLoginAt == None
      && u.createdAt == now
      && resp == OkResponse(201, Registered(MsgRegistered, WithoutPassword(u)))
  {
    if !RequiredPresent(body) {
      return ErrorResponse(400, MsgRequired);
    }
    var gender := ParseGender(body.gender.value);
    if gender.None? {
      return ErrorResponse(400, MsgInvalidGender);
    }
    var key := ToLower(body.email.value);
    if key in store.users {
      return ErrorResponse(409, MsgExists);
    }
    var hashed := Hash(body.password.value, salt);
    if store.HasId(newId) {
      return ErrorResponse(500, MsgFailed);
    }
    var u := User(newId, key, hashed, body.firstName.value, body.lastName.value, gender.value,
      OrNull(body.phoneNumber), OrNull(body.dateOfBirth), OrNull(body.country), OrNull(body.city),
      OrNull(body.address), OrNull(body.postalCode),
      false, false, PENDING_VERIFICATION, None, now);
    ToLowerIdempotent(body.email.value);
    store.users := store.users[key := u];
    resp := OkResponse(201, Registered(MsgRegistered, WithoutPassword(u)));
  }

  /** Registering one address and then a case variant of it: the second
      request meets the first user and is refused with 409. */
  method CaseVariantsConflict(store: UserStore, first: UserRegistration, second: UserRegistration,
                              salt: nat, id1: string, id2: string, now: int)
    returns (r1: Response<Registered>, r2: Response<Registered>)
    requires store.Valid()
    requires RequiredPresent(first) && RequiredPresent(second)
    requires ParseGender(second.gender.value).Some?
    requires ToLower(first.email.value) == ToLower(second.email.value)
    modifies store
    ensures r1.OkResponse? ==> r2 == ErrorResponse(409, MsgExists)
  {
    r1 := Post(store, first, salt, id1, now);
    r2 := Post(store, second, salt, id2, now);
  }
}
