/** The user service (modules/user/service/user_service.go): password changes
    and the list conversion. `hash` and `compare` stand for the bcrypt
    wrappers; they are expected to satisfy `compare(p, hash(p))`. */
module UserService {
  import opened Common
  import opened UserModels
  import opened Database
  import opened UserRepository

  const WrongPassword: string := "current password is incorrect"
  const SamePassword: string := "new password cannot be the same as the current one"
  const PasswordUpdated: string := "update password successfully"

  /** The outcome of UpdateCurrentUserPassword on the stored user `found`:
      the checks run in this order, and only success saves a new hash. */
  function PasswordChange(found: Option<User>, p: UpdatePassword, compare: (string, string) -> bool)
    : (r: Result<string>)
    ensures r.Ok? <==> found.Some? && compare(p.currentPassword, found.value.password)
                         && p.currentPassword != p.newPassword
    ensures r.Ok? ==> r.value == PasswordUpdated
    ensures found.None? ==> r == Err(UserNotFound)
    ensures found.Some? && !compare(p.currentPassword, found.value.password) ==> r == Err(WrongPassword)
    ensures found.Some? && compare(p.currentPassword, found.value.password) && p.currentPassword == p.newPassword
            ==> r == Err(SamePassword)
  {
    if found.None? then Err(UserNotFound)
    else if !compare(p.currentPassword, found.value.password) then Err(WrongPassword)
    else if p.currentPassword == p.newPassword then Err(SamePassword)
    else Ok(PasswordUpdated)
  }

  /** UpdateCurrentUserPassword: on success the stored password is the hash
      of the new one; on any failure nothing is saved. */
  method UpdateCurrentUserPassword(db: Db, id: Uuid, p: UpdatePassword,
                                   hash: string -> string, compare: (string, string) -> bool)
    returns (r: Result<string>)
    modifies db`users
    ensures r == PasswordChange(FindUser(old(db.users), id), p, compare)
    ensures r.Err? ==> db.users == old(db.users)
    ensures r.Ok? ==> db.users == ReplaceUser(old(db.users),
                                              FindUser(old(db.users), id).value.(password := hash(p.newPassword)))
  {
    var found := FindUser(db.users, id);
    if found.None? {
      return Err(UserNotFound);
    }
    var user := found.value;
    if !compare(p.currentPassword, user.password) {
      return Err(WrongPassword);
    }
    if p.currentPassword == p.newPassword {
      return Err(SamePassword);
    }
    user := user.(password := hash(p.newPassword));
    db.users := ReplaceUser(db.users, user);
    r := Ok(PasswordUpdated);
  }

  /** A new password equal to the current one is reported only after the
      current password was verified: with a wrong current password the
      answer is "incorrect" whatever the new password is. */
  lemma SameCheckFollowsVerification(u: User, current: string, compare: (string, string) -> bool)
    requires !compare(current, u.password)
    ensures PasswordChange(Some(u), UpdatePassword(current, current), compare) == Err(WrongPassword)
  {
  }

  /** After a successful change the new password verifies against what is
      stored, given a hash that verifies. */
  lemma ChangedPasswordVerifies(users: seq<User>, u: User, newPassword: string,
                                hash: string -> string, compare: (string, string) -> bool)
    requires forall s :: compare(s, hash(s))
    requires u in users
    ensures forall x :: x in ReplaceUser(users, u.(password := hash(newPassword))) && x.id == u.id ==>
              compare(newPassword, x.password)
  {
    var t := ReplaceUser(users, u.(password := hash(newPassword)));
    forall x | x in t && x.id == u.id ensures compare(newPassword, x.password) {
      var i :| 0 <= i < |t| && t[i] == x;
      assert t[i] == u.(password := hash(newPassword));
    }
  }

  /** ResetCurrentUserPassword: only the e-mail must exist; no current
      password is checked. */
  method ResetCurrentUserPassword(db: Db, email: string, password: string, hash: string -> string)
    returns (r: Result<string>)
    modifies db`users
    ensures FindUserByEmail(old(db.users), email).None? ==> r == Err(UserNotFound) && db.users == old(db.users)
    ensures FindUserByEmail(old(db.users), email).Some? ==>
              r == Ok(PasswordUpdated)
              && db.users == ReplaceUser(old(db.users),
                                         FindUserByEmail(old(db.users), email).value.(password := hash(password)))
  {
    var found := FindUserByEmail(db.users, email);
    if found.None? {
      return Err(UserNotFound);
    }
    var user := found.value.(password := hash(password));
    db.users := ReplaceUser(db.users, user);
    r := Ok(PasswordUpdated);
  }

  /** TransformUsers: one response per user, in order, without passwords. */
  method TransformUsers(users: seq<User>) returns (r: seq<UserResponse>)
    ensures |r| == |users|
    ensures forall i :: 0 <= i < |users| ==> r[i] == ToResponse(users[i])
  {
    r := [];
    var k := 0;
    while k < |users|
      invariant 0 <= k <= |users| && |r| == k
      invariant forall i :: 0 <= i < k ==> r[i] == ToResponse(users[i])
    {
      r := r + [ToResponse(users[k])];
      k := k + 1;
    }
  }
}
