/** `UserStorage`: profile lookup and updates over the users table. */
module UserStorage {
  import opened Results
  import opened Seqs
  import opened AuthTables

  datatype Profile = Profile(userId: string, username: string, email: string, name: string, phone: string, address: string)
  datatype UpdateProfileRequest = UpdateProfileRequest(userId: string, username: string, email: string,
                                                       name: string, phone: string, address: string)
  datatype ChangePasswordRequest = ChangePasswordRequest(userId: string, currentPassword: string, newPassword: string)
  datatype StatusResponse = StatusResponse(message: string, success: bool)

  const ProfileUpdated := "Profile successfully updated"
  const PasswordChanged := "Password successfully changed"

  function ProfileOf(u: UserRow): Profile
  {
    Profile(u.id, u.username, u.email, u.name, u.phone, u.address)
  }

  /** `UPDATE users SET username, email, name, phone, address WHERE id = $6`. */
  function UpdateProfileRows(users: seq<UserRow>, req: UpdateProfileRequest): seq<UserRow>
  {
    UpdateWhere(users, (u: UserRow) => u.id == req.userId,
                (u: UserRow) => u.(username := req.username, email := req.email, name := req.name,
                                   phone := req.phone, address := req.address))
  }

  /** `UPDATE users SET password_hash = $1 WHERE password_hash = $2 and id = $3`. */
  function ChangePasswordRows(users: seq<UserRow>, req: ChangePasswordRequest): seq<UserRow>
  {
    UpdateWhere(users, (u: UserRow) => u.passwordHash == req.currentPassword && u.id == req.userId,
                (u: UserRow) => u.(passwordHash := req.newPassword))
  }

  /** The lookup `SELECT ... FROM users WHERE id = $1`, run without a driver error. */
  function LookupProfile(users: seq<UserRow>, id: string): (r: Result<Profile>)
    ensures r == Err(NoRows) <==> forall i :: 0 <= i < |users| ==> users[i].id != id
    ensures r.Ok? || r == Err(NoRows)
    ensures r.Ok? ==> exists i :: 0 <= i < |users| && users[i].id == id && r.value == ProfileOf(users[i])
  {
    match First(users, (u: UserRow) => u.id == id)
    case None => Err(NoRows)
    case Some(i) => Ok(ProfileOf(users[i]))
  }

  /** After a profile update of an existing user, the profile lookup returns exactly the new values. */
  lemma UpdateThenGetProfile(users: seq<UserRow>, req: UpdateProfileRequest)
    requires exists i :: 0 <= i < |users| && users[i].id == req.userId
    ensures LookupProfile(UpdateProfileRows(users, req), req.userId) ==
            Ok(Profile(req.userId, req.username, req.email, req.name, req.phone, req.address))
  {
    var after := UpdateProfileRows(users, req);
    var i :| 0 <= i < |users| && users[i].id == req.userId;
    assert after[i].id == req.userId;
    var k := First(after, (u: UserRow) => u.id == req.userId).value;
    assert after[k].id == req.userId;
  }

  /** A password change whose id and current password match no row leaves the table as it was. */
  lemma {:induction false} ChangePasswordNoMatch(users: seq<UserRow>, req: ChangePasswordRequest)
    requires forall i :: 0 <= i < |users| ==> !(users[i].passwordHash == req.currentPassword && users[i].id == req.userId)
    ensures ChangePasswordRows(users, req) == users
  {
    var after := ChangePasswordRows(users, req);
    assert |after| == |users|;
    forall i | 0 <= i < |users| ensures after[i] == users[i] {
    }
  }

  /** The storage object: it holds only the database handle. */
  class UserStorage {
    const db: Db

    constructor (db: Db)
      ensures this.db == db
    {
      this.db := db;
    }

    /**
     * The profile of the user whose id equals the request's token; no such user is the
     * driver's no-rows error. `fail` is any other error of the lookup.
     */
    function GetProfile(token: string, fail: Option<string>): (r: Result<Profile>)
      reads db
      ensures fail.Some? ==> r == Err(fail.value)
      ensures fail.None? ==> (r == Err(NoRows) <==> forall i :: 0 <= i < |db.users| ==> db.users[i].id != token)
      ensures fail.None? ==> (r.Ok? <==> exists i :: 0 <= i < |db.users| && db.users[i].id == token)
      ensures r.Ok? ==> exists i :: 0 <= i < |db.users| && db.users[i].id == token && r.value == ProfileOf(db.users[i])
    {
      if fail.Some? then Err(fail.value) else LookupProfile(db.users, token)
    }

    /** Overwrite the profile columns of the row with this id; every other row is unchanged. */
    method UpdateProfile(req: UpdateProfileRequest, fail: Option<string>) returns (r: Result<StatusResponse>)
      modifies db
      ensures db.tokens == old(db.tokens)
      ensures fail.Some? ==> r == Err(fail.value) && db.users == old(db.users)
      ensures fail.None? ==> r == Ok(StatusResponse(ProfileUpdated, true)) && db.users == UpdateProfileRows(old(db.users), req)
    {
      if fail.Some? {
        return Err(fail.value);
      }
      db.users := UpdateProfileRows(db.users, req);
      r := Ok(StatusResponse(ProfileUpdated, true));
    }

    /**
     * Replace the hash only where both the id and the current hash match. The reply
     * reports success whenever the statement runs, whether or not a row matched.
     */
    method ChangePassword(req: ChangePasswordRequest, fail: Option<string>) returns (r: Result<StatusResponse>)
      modifies db
      ensures db.tokens == old(db.tokens)
      ensures fail.Some? ==> r == Err(fail.value) && db.users == old(db.users)
      ensures fail.None? ==> r == Ok(StatusResponse(PasswordChanged, true)) && db.users == ChangePasswordRows(old(db.users), req)
    {
      if fail.Some? {
        return Err(fail.value);
      }
      db.users := ChangePasswordRows(db.users, req);
      r := Ok(StatusResponse(PasswordChanged, true));
    }
  }
}
