/** The user repository (modules/user/repository/user_repository.go). The
    password hash is a parameter standing for the bcrypt wrapper. */
module UserRepository {
  import opened Common
  import opened UserModels
  import ItemModels
  import BlogModels
  import CalendarModels
  import opened Database

  const UserNotFound: string := "user not found"
  const DefaultAvatar: string := "https://f003.backblazeb2.com/file/admin-go-panel/user.png"

  /** The response for a stored user: every field except the password. */
  function ToResponse(u: User): (r: UserResponse)
    ensures r.id == u.id && r.email == u.email && r.isSuperUser == u.isSuperUser && r.isAdmin == u.isAdmin
  {
    UserResponse(u.id, u.fullName, u.avatar, u.email, u.isActive, u.isSuperUser, u.isAdmin,
                 u.acronym, u.lastSeenAt)
  }

  /** db.Save of a loaded user: the row with its id is replaced. */
  function ReplaceUser(users: seq<User>, u: User): (r: seq<User>)
    ensures |r| == |users|
    ensures forall i :: 0 <= i < |users| ==> r[i] == if users[i].id == u.id then u else users[i]
  {
    seq(|users|, i requires 0 <= i < |users| => if users[i].id == u.id then u else users[i])
  }

  /** GetUserByEmail: the first user with that e-mail. */
  function FindUserByEmail(users: seq<User>, email: string): (r: Option<User>)
    ensures r.None? <==> forall i :: 0 <= i < |users| ==> users[i].email != email
    ensures r.Some? ==> r.value in users && r.value.email == email
  {
    if |users| == 0 then None
    else if users[0].email == email then Some(users[0])
    else FindUserByEmail(users[1..], email)
  }

  // ---- CreateUser ----

  /** The user as CreateUser stores it: the password replaced by its hash, an
      empty avatar replaced by the default one, a nil id filled by the hook.
      IsActive is a `default:true` column, so GORM's Create replaces its zero
      value false by true and writes the default back into the record: every
      created user is active. */
  function NewUserRecord(user: User, hash: string -> string, freshId: Uuid): (r: User)
    requires freshId != NilId
    ensures r.password == hash(user.password)
    ensures r.avatar != "" && (user.avatar != "" ==> r.avatar == user.avatar)
    ensures r.id != NilId
    ensures r.fullName == user.fullName && r.email == user.email && r.acronym == user.acronym
    ensures r.isActive && r.isAdmin == user.isAdmin && r.isSuperUser == user.isSuperUser
  {
    user.(id := BeforeCreate(user.id, freshId), password := hash(user.password),
          avatar := if user.avatar == "" then DefaultAvatar else user.avatar, isActive := true)
  }

  /** CreateUser: hash the password, default the avatar, store (with the
      column defaults filled in). The response carries neither the avatar nor
      LastSeenAt. */
  method CreateUser(db: Db, user: User, hash: string -> string, freshId: Uuid) returns (r: UserResponse)
    requires freshId != NilId
    modifies db`users
    ensures db.users == old(db.users) + [NewUserRecord(user, hash, freshId)]
    ensures r == ToResponse(NewUserRecord(user, hash, freshId)).(avatar := "", lastSeenAt := None)
  {
    var stored := user.(password := hash(user.password));
    if stored.avatar == "" {
      stored := stored.(avatar := DefaultAvatar);
    }
    stored := stored.(id := BeforeCreate(stored.id, freshId));
    if !stored.isActive {
      stored := stored.(isActive := true);
    }
    db.users := db.users + [stored];
    r := UserResponse(stored.id, stored.fullName, "", stored.email, stored.isActive,
                      stored.isSuperUser, stored.isAdmin, stored.acronym, None);
  }

  /** The plaintext is stored only if it is its own hash. */
  lemma CreateUserStoresHash(user: User, hash: string -> string, freshId: Uuid)
    requires freshId != NilId
    requires hash(user.password) != user.password
    ensures NewUserRecord(user, hash, freshId).password != user.password
  {
  }

  // ---- GetAllUsers / GetUserById ----

  /** `LIMIT limit OFFSET skip` without ORDER BY, in table order; a negative
      limit or offset cancels that clause. */
  function GetAllUsers(users: seq<User>, limit: int, skip: int): (r: seq<User>)
    ensures limit >= 0 ==> |r| <= limit
    ensures forall i :: 0 <= i < |r| ==>
              (if skip < 0 then 0 else skip) + i < |users| && r[i] == users[(if skip < 0 then 0 else skip) + i]
  {
    var s: nat := if skip < 0 then 0 else skip;
    var l: nat := if limit < 0 then |users| else limit;
    Window(users, s, l)
  }

  function GetUserById(users: seq<User>, id: Uuid): (r: Result<UserResponse>)
    ensures r.Ok? <==> exists i :: 0 <= i < |users| && users[i].id == id
    ensures r.Ok? ==> r.value.id == id
    ensures r.Err? ==> r.msg == RecordNotFound
  {
    match FindUser(users, id)
    case None => Err(RecordNotFound)
    case Some(u) => Ok(ToResponse(u))
  }

  // ---- UpdateUserById ----

  /** The user after UpdateUserById: full name, e-mail and avatar change only
      with a non-empty value; the DTO's acronym is never applied. */
  function MergeUser(u: User, up: UpdateUser): (r: User)
    ensures r.id == u.id && r.password == u.password && r.acronym == u.acronym
    ensures r.isActive == u.isActive && r.isAdmin == u.isAdmin && r.isSuperUser == u.isSuperUser
    ensures r.lastSeenAt == u.lastSeenAt
  {
    u.(fullName := NonEmptyOr(up.fullName, u.fullName), email := NonEmptyOr(up.email, u.email),
       avatar := NonEmptyOr(up.avatar, u.avatar))
  }

  /** The three editable fields follow the non-empty rule, and an update's
      acronym has no effect at all. */
  lemma MergeUserFields(u: User, up: UpdateUser, acronym: string)
    ensures var r := MergeUser(u, up);
      && (up.fullName != "" ==> r.fullName == up.fullName) && (up.fullName == "" ==> r.fullName == u.fullName)
      && (up.email != "" ==> r.email == up.email) && (up.email == "" ==> r.email == u.email)
      && (up.avatar != "" ==> r.avatar == up.avatar) && (up.avatar == "" ==> r.avatar == u.avatar)
      && MergeUser(u, up.(acronym := acronym)) == r
  {
  }

  /** UpdateUserById: load, overwrite the non-empty fields, save, answer. */
  method UpdateUserById(db: Db, id: Uuid, up: UpdateUser) returns (r: Result<UserResponse>)
    modifies db`users
    ensures FindUser(old(db.users), id).None? ==> r == Err(UserNotFound) && db.users == old(db.users)
    ensures FindUser(old(db.users), id).Some? ==>
              var saved := MergeUser(FindUser(old(db.users), id).value, up);
              r == Ok(ToResponse(saved)) && db.users == ReplaceUser(old(db.users), saved)
  {
    var found := FindUser(db.users, id);
    if found.None? {
      return Err(UserNotFound);
    }
    var user := found.value;
    if up.fullName != "" { user := user.(fullName := up.fullName); }
    if up.email != "" { user := user.(email := up.email); }
    if up.avatar != "" { user := user.(avatar := up.avatar); }
    db.users := ReplaceUser(db.users, user);
    r := Ok(ToResponse(user));
  }

  // ---- DeleteUserById ----

  /** DeleteUserById: removes the user; every error is swallowed, so nil is
      always returned. The owner keys of items, posts and calendar events
      carry ON DELETE CASCADE (item.go, blog.go, calendar.go, created by
      AutoMigrate), so the database deletes every row the user owned with
      it. Property and media rows have no foreign key on their content id
      and stay behind. */
  method DeleteUserById(db: Db, id: Uuid) returns (err: Option<string>)
    modifies db`users, db`items, db`blogs, db`events
    ensures err == None
    ensures db.users == Filter(old(db.users), (u: User) => u.id != id)
    ensures db.items == Filter(old(db.items), (i: ItemModels.Item) => i.data.ownerId != id)
    ensures db.blogs == Filter(old(db.blogs), (b: BlogModels.Blog) => b.data.ownerId != id)
    ensures db.events == Filter(old(db.events), (e: CalendarModels.Event) => e.userId != id)
  {
    db.users := Filter(db.users, (u: User) => u.id != id);
    db.items := Filter(db.items, (i: ItemModels.Item) => i.data.ownerId != id);
    db.blogs := Filter(db.blogs, (b: BlogModels.Blog) => b.data.ownerId != id);
    db.events := Filter(db.events, (e: CalendarModels.Event) => e.userId != id);
    err := None;
  }
}
