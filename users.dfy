/** The users table as the two authentication handlers see it: an in-memory
    store of user rows keyed by their (lower-cased) email, with the two writes
    the handlers issue, `INSERT` and `UPDATE ... "lastLoginAt"`. */
module Users {
  import opened Common
  import opened Types
  import opened Credentials

  /** A row of the users table (`User` of src/types/user.ts). The password
      column holds a digest; the profile picture, the password-reset columns and
      `updatedAt`, which no modelled code writes, are left out. */
  datatype User = User(
    id: string,
    email: string,
    password: Digest,
    firstName: string,
    lastName: string,
    gender: Gender,
    phoneNumber: Option<string>,
    dateOfBirth: Option<string>,
    country: Option<string>,
    city: Option<string>,
    address: Option<string>,
    postalCode: Option<string>,
    emailVerified: bool,
    phoneVerified: bool,
    status: UserStatus,
    lastLoginAt: Option<int>,
    createdAt: int)

  /** A user as it is sent to a client: every column except the password.
      In the registration response, whose `RETURNING` list has no
      `lastLoginAt`, the `None` of that field stands for a key absent from the
      JSON rather than a `null`. */
  datatype PublicUser = PublicUser(
    id: string,
    email: string,
    firstName: string,
    lastName: string,
    gender: Gender,
    phoneNumber: Option<string>,
    dateOfBirth: Option<string>,
    country: Option<string>,
    city: Option<string>,
    address: Option<string>,
    postalCode: Option<string>,
    emailVerified: bool,
    phoneVerified: bool,
    status: UserStatus,
    lastLoginAt: Option<int>,
    createdAt: int)

  /** `const { password: _, ...userWithoutPassword } = user`. */
  function WithoutPassword(u: User): PublicUser {
    PublicUser(u.id, u.email, u.firstName, u.lastName, u.gender, u.phoneNumber, u.dateOfBirth,
      u.country, u.city, u.address, u.postalCode, u.emailVerified, u.phoneVerified, u.status,
      u.lastLoginAt, u.createdAt)
  }

  /** Stripping the password forgets the password and nothing else: two rows
      give the same public user exactly when they differ at most in the
      password column. */
  lemma WithoutPasswordForgetsOnlyPassword(u: User, v: User)
    ensures WithoutPassword(u) == WithoutPassword(v) <==> u.(password := v.password) == v
  {
    if WithoutPassword(u) == WithoutPassword(v) {
      var p, q := WithoutPassword(u), WithoutPassword(v);
      assert p.id == q.id && p.email == q.email && p.createdAt == q.createdAt;
    }
  }

  class UserStore {
    var users: map<string, User>

    /** The table's constraints: each row is stored under its own email, which
        is lower-case, and no two rows share an id. */
    ghost predicate Valid()
      reads this
    {
      && (forall key :: key in users ==> users[key].email == key && ToLower(key) == key)
      && (forall k1, k2 :: k1 in users && k2 in users && users[k1].id == users[k2].id ==> k1 == k2)
    }

    constructor ()
      ensures Valid() && users == map[]
    {
      users := map[];
    }

    /** Whether some row already has this id. */
    predicate HasId(id: string)
      reads this
    {
      exists key :: key in users && users[key].id == id
    }

    /** `UPDATE users SET "lastLoginAt" = CURRENT_TIMESTAMP WHERE id = $1`:
        every row with the id gets the new time; the others are untouched. */
    method SetLastLoginAt(id: string, now: int)
      requires Valid()
      modifies this
      ensures Valid()
      ensures users.Keys == old(users).Keys
      ensures forall key :: key in users ==>
        users[key] == if old(users)[key].id == id then old(users)[key].(lastLoginAt := Some(now)) else old(users)[key]
    {
      users := map key | key in users :: if users[key].id == id then users[key].(lastLoginAt := Some(now)) else users[key];
    }
  }

  /** Because ids are unique, updating by the id of the row stored under `key`
      changes that row only. */
  lemma UpdateByIdTouchesOneRow(old_users: map<string, User>, new_users: map<string, User>, key: string, now: int)
    requires key in old_users
    requires forall k1, k2 :: k1 in old_users && k2 in old_users && old_users[k1].id == old_users[k2].id ==> k1 == k2
    requires new_users.Keys == old_users.Keys
    requires forall k :: k in new_users ==>
      new_users[k] == if old_users[k].id == old_users[key].id then old_users[k].(lastLoginAt := Some(now)) else old_users[k]
    ensures new_users == old_users[key := old_users[key].(lastLoginAt := Some(now))]
  {
  }
}
