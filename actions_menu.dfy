/** The row menu of the users, items and posts tables
    (frontend/src/components/Common/ActionsMenu.tsx): who may delete a row. */
module ActionsMenu {
  import opened Common
  import opened UserModels
  import ItemHandler

  /** The signed-in user, as far as the menu reads it. */
  datatype Viewer = Viewer(id: Uuid, isSuperUser: bool)

  /** A row: user rows carry no `owner_id`, item and post rows do. */
  datatype RowValue = UserRow(id: Uuid) | OwnedRow(id: Uuid, ownerId: Uuid)

  /** `owner_id` when the row has one, otherwise the row's own ID. */
  function OwnerId(v: RowValue): (r: Uuid)
    ensures v.OwnedRow? ==> r == v.ownerId
    ensures v.UserRow? ==> r == v.id
  {
    match v
    case UserRow(id) => id
    case OwnedRow(_, ownerId) => ownerId
  }

  /** `isAllowed`: a superuser, or the owner of the row; nobody before the
      signed-in user is known. */
  predicate IsAllowed(user: Option<Viewer>, v: RowValue)
  {
    user.Some? && (user.value.isSuperUser || user.value.id == OwnerId(v))
  }

  /** What the menu shows: the menu button, the delete entry and the delete
      dialog, each enabled or disabled. */
  datatype MenuView = MenuView(buttonDisabled: bool, deleteDisabled: bool, dialogDisabled: bool)

  function Menu(user: Option<Viewer>, v: RowValue, disabled: bool): (m: MenuView)
    ensures m.buttonDisabled <==> disabled
    ensures m.deleteDisabled <==> !IsAllowed(user, v)
    ensures m.dialogDisabled == m.deleteDisabled
  {
    var allowed := IsAllowed(user, v);
    MenuView(disabled, !allowed, !allowed)
  }

  /** On a user row a user is allowed on their own row, and a user who is not
      a superuser on no other. */
  lemma UserRowRule(viewer: Viewer, rowId: Uuid)
    ensures IsAllowed(Some(viewer), UserRow(rowId)) <==> viewer.isSuperUser || viewer.id == rowId
  {
  }

  /** The menu is looser than the server for items: an owner who is not a
      superuser sees delete enabled, and the item handler refuses it. */
  lemma OwnerMenuLooserThanServer(user: User, itemId: Uuid)
    requires !user.isSuperUser
    ensures IsAllowed(Some(Viewer(user.id, user.isSuperUser)), OwnedRow(itemId, user.id))
    ensures !ItemHandler.MayDelete(user.id, user)
  {
  }

  /** Whatever the menu allows on an item row the server at least lets the
      user read. */
  lemma AllowedMeansServerAccess(user: User, row: RowValue)
    requires row.OwnedRow?
    requires IsAllowed(Some(Viewer(user.id, user.isSuperUser)), row)
    ensures ItemHandler.MayAccess(OwnerId(row), user)
  {
  }
}
