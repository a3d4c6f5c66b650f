/** The users screen (frontend/src/routes/_layout/admin.tsx): ten users per
    page, a role label per row and no actions on the viewer's own row. */
module AdminRoute {
  import opened Common
  import opened ClientModels
  import opened Pagination
  import opened ActionsMenu

  const UsersPerPage: nat := 10

  /** The request for a page of users. */
  function UsersQuery(page: int): (q: PageQuery)
    ensures q.limit == UsersPerPage
    ensures page == 1 ==> q.skip == 0
    ensures q.skip + UsersPerPage == page * UsersPerPage
  {
    QueryFor(page, UsersPerPage)
  }

  /** The body of a users page as the screen receives it; `data` is None
      when the server sent `null`. */
  datatype UsersPublic = UsersPublic(data: Option<seq<UserPublic>>, count: int)

  /** The body ReadAllUsers sends for `page` of the users table: the window,
      with `null` data when the window is empty. */
  function ServedPage(rows: seq<UserPublic>, page: int): (body: UsersPublic)
    requires page >= 1
    ensures var q := UsersQuery(page);
      body.data.None? <==> q.skip >= |rows|
  {
    var q := UsersQuery(page);
    var w := Window(rows, q.skip, q.limit);
    UsersPublic(AppendedSliceJson(w), |w|)
  }

  /** `hasNextPage = !isPlaceholderData && users?.data.length === 10`. The
      `&&` skips the length for placeholder data and `?.` for a missing
      response, but `.length` of a null `data` throws a TypeError: that
      evaluation is `None`. */
  function UsersHasNextPage(isPlaceholder: bool, users: Option<UsersPublic>): (r: Option<bool>)
    ensures r.None? <==> !isPlaceholder && users.Some? && users.value.data.None?
    ensures r == Some(true) <==>
              && !isPlaceholder && users.Some? && users.value.data.Some?
              && HasNextPage(false, Some(|users.value.data.value|), UsersPerPage)
  {
    if isPlaceholder || users.None? then Some(false)
    else if users.value.data.None? then None
    else Some(|users.value.data.value| == UsersPerPage)
  }

  /** `users?.data.map(...)` in the table body, evaluated once the query is
      no longer pending, throws when `data` is null. */
  predicate RowsThrow(isPending: bool, users: Option<UsersPublic>)
  {
    !isPending && users.Some? && users.value.data.None?
  }

  /** The screen renders without an exception. */
  predicate ScreenRenders(isPending: bool, isPlaceholder: bool, users: Option<UsersPublic>)
  {
    UsersHasNextPage(isPlaceholder, users).Some? && !RowsThrow(isPending, users)
  }

  /** A page past the last user gets `null` data, and the screen then
      throws instead of showing an empty table. */
  lemma PastTheLastPageBreaksScreen(rows: seq<UserPublic>, page: int, isPlaceholder: bool)
    requires page >= 1 && (page - 1) * UsersPerPage >= |rows|
    ensures !ScreenRenders(false, isPlaceholder, Some(ServedPage(rows, page)))
  {
  }

  /** A page that holds users renders. */
  lemma PageWithUsersRenders(rows: seq<UserPublic>, page: int, isPlaceholder: bool)
    requires page >= 1 && (page - 1) * UsersPerPage < |rows|
    ensures ScreenRenders(false, isPlaceholder, Some(ServedPage(rows, page)))
  {
  }

  /** With a multiple of ten users, the last full page offers Next, and the
      page Next leads to breaks the screen. */
  lemma {:induction false} FullLastPageLeadsToBrokenScreen(rows: seq<UserPublic>, page: int)
    requires page >= 1 && |rows| == page * UsersPerPage
    ensures UsersHasNextPage(false, Some(ServedPage(rows, page))) == Some(true)
    ensures !ScreenRenders(false, false, Some(ServedPage(rows, page + 1)))
  {
    FullLastPageOffersEmptyNext(rows, UsersPerPage, page);
    var q := UsersQuery(page);
    assert |Window(rows, q.skip, q.limit)| == UsersPerPage;
    PastTheLastPageBreaksScreen(rows, page + 1, false);
  }

  datatype Role = SuperUserRole | AdminRole | UserRole

  /** The role column: superuser wins over admin, admin over user. */
  function RoleLabel(u: UserPublic): (r: Role)
    ensures r == SuperUserRole <==> u.isSuperUser
    ensures r == AdminRole <==> !u.isSuperUser && u.isAdmin
    ensures r == UserRole <==> !u.isSuperUser && !u.isAdmin
  {
    if u.isSuperUser then SuperUserRole
    else if u.isAdmin then AdminRole
    else UserRole
  }

  /** The `disabled` prop of a row's menu: the row is the viewer's own. */
  predicate OwnRow(currentUser: Option<Uuid>, row: UserPublic)
  {
    currentUser == Some(row.id)
  }

  /** The menu of a user row on this screen. */
  function UserRowMenu(viewer: Option<Viewer>, row: UserPublic): (m: MenuView)
    ensures m.buttonDisabled <==> viewer.Some? && viewer.value.id == row.id
    ensures !m.deleteDisabled <==> viewer.Some? && (viewer.value.isSuperUser || viewer.value.id == row.id)
  {
    Menu(viewer, UserRow(row.id), OwnRow(if viewer.Some? then Some(viewer.value.id) else None, row))
  }

  /** A viewer who is not a superuser never reaches an enabled delete on
      this screen: the one row they may delete is their own, whose menu is
      disabled. */
  lemma OrdinaryViewerCannotDeleteHere(viewer: Viewer, row: UserPublic)
    requires !viewer.isSuperUser
    ensures var m := UserRowMenu(Some(viewer), row); m.buttonDisabled || m.deleteDisabled
  {
  }

  /** A superuser may delete every other user's row from here. */
  lemma SuperUserReachesOtherRows(viewer: Viewer, row: UserPublic)
    requires viewer.isSuperUser && row.id != viewer.id
    ensures var m := UserRowMenu(Some(viewer), row); !m.buttonDisabled && !m.deleteDisabled
  {
  }
}
