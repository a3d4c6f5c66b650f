/** How a handler learns who is asking (backend/internal/services/utils/user.go)
    and how it reads an id from the URL path. */
module RequestUser {
  import opened Common
  import opened UserModels

  const UserIdMissing: string := "User ID not found in context"
  const CannotGetUser: string := "Cannot get user"

  /** An `:id` path parameter: empty, not a UUID, or a UUID. */
  datatype PathId = EmptyId | InvalidId | ValidId(id: Uuid)

  /** The user behind a request, or the status already written when there is
      none. */
  datatype UserLookup = Found(user: User) | Failed(status: int, error: string)

  /** GetUserIDFromContext: the "id" the auth middleware set, or 401. */
  function CurrentUserId(authId: Option<Uuid>): (r: Result<Uuid>)
    ensures r.Ok? <==> authId.Some?
    ensures r.Ok? ==> r.value == authId.value
    ensures r.Err? ==> r.msg == UserIdMissing
  {
    match authId
    case None => Err(UserIdMissing)
    case Some(id) => Ok(id)
  }

  /** GetCurrentUserFromContext: 401 without an id in the context, 500 when
      no user has that id, otherwise the stored user. */
  function CurrentUser(users: seq<User>, authId: Option<Uuid>): (r: UserLookup)
    ensures authId.None? ==> r == Failed(StatusUnauthorized, UserIdMissing)
    ensures authId.Some? && FindUser(users, authId.value).None? ==> r == Failed(StatusInternalServerError, CannotGetUser)
    ensures r.Found? <==> authId.Some? && exists i :: 0 <= i < |users| && users[i].id == authId.value
    ensures r.Found? ==> r.user in users && r.user.id == authId.value
  {
    match authId
    case None => Failed(StatusUnauthorized, UserIdMissing)
    case Some(id) =>
      match FindUser(users, id)
      case None => Failed(StatusInternalServerError, CannotGetUser)
      case Some(u) => Found(u)
  }

  /** GetIsSuperUser: the IsSuperUser flag of the user with `id`, or gorm's
      not-found error. */
  function IsSuperUserOf(users: seq<User>, id: Uuid): (r: Result<bool>)
    ensures r.Ok? <==> exists i :: 0 <= i < |users| && users[i].id == id
    ensures r.Ok? ==> exists u :: u in users && u.id == id && u.isSuperUser == r.value
    ensures r.Err? ==> r.msg == RecordNotFound
  {
    match FindUser(users, id)
    case None => Err(RecordNotFound)
    case Some(u) => Ok(u.isSuperUser)
  }

  /** The two lookups agree: the current user's own flag is what
      GetIsSuperUser reports for its id. */
  lemma CurrentUserFlagAgrees(users: seq<User>, authId: Option<Uuid>)
    requires CurrentUser(users, authId).Found?
    ensures IsSuperUserOf(users, authId.value) == Ok(CurrentUser(users, authId).user.isSuperUser)
  {
  }
}
