/** The item HTTP handlers (backend/modules/item/handlers/item_hundler.go):
    who may read, change and delete an item, and the list parameters.
    Outcomes are status codes; a request body that does not bind is `None`. */
module ItemHandler {
  import opened Common
  import opened Strconv
  import opened Crud
  import opened Entities
  import opened MediaModels
  import opened PropertyModels
  import opened ItemModels
  import opened UserModels
  import opened Database
  import opened ItemRepository
  import opened RequestUser

  /** Reading and the answer to an update: the owner or any superuser. */
  predicate MayAccess(ownerId: Uuid, user: User)
  {
    ownerId == user.id || user.isSuperUser
  }

  /** Deleting: the owner, and only when the owner is also a superuser. */
  predicate MayDelete(ownerId: Uuid, user: User)
  {
    ownerId == user.id && user.isSuperUser
  }

  /** Delete is the stricter rule: whoever may delete may read, a superuser
      may read but not delete another user's item, and an owner who is not a
      superuser may not delete their own item. */
  lemma DeleteStricterThanAccess(ownerId: Uuid, user: User)
    ensures MayDelete(ownerId, user) ==> MayAccess(ownerId, user)
    ensures user.isSuperUser && ownerId != user.id ==> MayAccess(ownerId, user) && !MayDelete(ownerId, user)
    ensures !user.isSuperUser && ownerId == user.id ==> MayAccess(ownerId, user) && !MayDelete(ownerId, user)
  {
  }

  // ---- CreateItemHandler ----

  /** The item with its owner set to the requester, whatever the body said. */
  function OwnedBy(i: Item, owner: Uuid): (r: Item)
    ensures r.data.ownerId == owner
    ensures r.id == i.id && r.position == i.position && r.language == i.language
    ensures r.data.(ownerId := i.data.ownerId) == i.data
  {
    i.(data := i.data.(ownerId := owner))
  }

  /** CreateItemHandler: 401 without a requester id, 400 for a body that does
      not bind, 500 for an empty title, else 201 with the requester as owner. */
  method CreateItemHandler(db: Db, authId: Option<Uuid>, body: Option<Item>, essenceId: Uuid, hookId: Uuid)
    returns (status: int)
    requires essenceId != NilId
    modifies db`items
    ensures authId.None? ==> status == StatusUnauthorized && db.items == old(db.items)
    ensures authId.Some? && body.None? ==> status == StatusBadRequest && db.items == old(db.items)
    ensures authId.Some? && body.Some? && body.value.data.title == "" ==>
              status == StatusInternalServerError && db.items == old(db.items)
    ensures authId.Some? && body.Some? && body.value.data.title != "" ==>
              status == StatusCreated
              && db.items == TableAfterCreate(old(db.items), OwnedBy(body.value, authId.value).(id := hookId))
  {
    if authId.None? {
      return StatusUnauthorized;
    }
    if body.None? {
      return StatusBadRequest;
    }
    var item := OwnedBy(body.value, authId.value);
    var r := CreateItem(db, item, essenceId, hookId);
    if r.Err? {
      return StatusInternalServerError;
    }
    status := StatusCreated;
  }

  // ---- GetItemByID ----

  /** GetItemByID: 400 for a bad id, the requester lookup, 500 when the item
      cannot be read, 401 for anyone but the owner or a superuser. */
  function GetItemStatus(items: seq<Item>, properties: seq<Property>, media: seq<Media>, users: seq<User>,
                         target: PathId, authId: Option<Uuid>): (status: int)
    ensures !target.ValidId? ==> status == StatusBadRequest
    ensures status == StatusOK <==>
              && target.ValidId? && CurrentUser(users, authId).Found?
              && ItemView(items, properties, media, target.id).Ok?
              && MayAccess(ItemView(items, properties, media, target.id).value.ownerId, CurrentUser(users, authId).user)
    ensures status == StatusUnauthorized && authId.Some? ==> target.ValidId? && ItemView(items, properties, media, target.id).Ok?
  {
    if !target.ValidId? then StatusBadRequest
    else
      match CurrentUser(users, authId)
      case Failed(s, _) => s
      case Found(user) =>
        var view := ItemView(items, properties, media, target.id);
        if view.Err? then StatusInternalServerError
        else if view.value.ownerId != user.id && !user.isSuperUser then StatusUnauthorized
        else StatusOK
  }

  // ---- UpdateItemByIdHandler ----

  /** The status and items table after UpdateItemByIdHandler. */
  datatype UpdateOutcome = UpdateOutcome(status: int, items: seq<Item>)

  /** The update is applied and saved BEFORE the ownership check: a refused
      requester gets 401 but the change stays. */
  function UpdateItemOutcome(items: seq<Item>, properties: seq<Property>, media: seq<Media>, users: seq<User>,
                             target: PathId, authId: Option<Uuid>, update: Option<ItemUpdate>): UpdateOutcome
  {
    if !target.ValidId? then UpdateOutcome(StatusBadRequest, items)
    else
      match CurrentUser(users, authId)
      case Failed(s, _) => UpdateOutcome(s, items)
      case Found(user) =>
        if update.None? then UpdateOutcome(StatusBadRequest, items)
        else
          match FindById(items, target.id)
          case None => UpdateOutcome(StatusInternalServerError, items)
          case Some(item) =>
            var saved := TableAfterUpdate(items, item, update.value);
            var view := ItemView(saved, properties, media, target.id);
            if view.Err? then UpdateOutcome(StatusInternalServerError, saved)
            else if !MayAccess(view.value.ownerId, user) then UpdateOutcome(StatusUnauthorized, saved)
            else UpdateOutcome(StatusOK, saved)
  }

  method UpdateItemByIdHandler(db: Db, target: PathId, authId: Option<Uuid>, update: Option<ItemUpdate>)
    returns (status: int)
    modifies db`items
    ensures UpdateOutcome(status, db.items) ==
            UpdateItemOutcome(old(db.items), db.properties, db.media, db.users, target, authId, update)
  {
    if !target.ValidId? {
      return StatusBadRequest;
    }
    var user := CurrentUser(db.users, authId);
    if user.Failed? {
      return user.status;
    }
    if update.None? {
      return StatusBadRequest;
    }
    var item := UpdateItemById(db, target.id, update.value);
    if item.Err? {
      return StatusInternalServerError;
    }
    if item.value.ownerId != user.user.id && !user.user.isSuperUser {
      return StatusUnauthorized;
    }
    status := StatusOK;
  }

  /** A refused update is still saved: the merged item sits in its row, with
      its owner unchanged, and the requester gets 401. */
  lemma {:induction false} RefusedUpdateStaysSaved(items: seq<Item>, properties: seq<Property>, media: seq<Media>,
                                users: seq<User>, id: Uuid, authId: Option<Uuid>, u: ItemUpdate)
    requires CurrentUser(users, authId).Found?
    requires FindById(items, id).Some?
    requires var item := FindById(items, id).value;
      && FindByContentId(properties, id).Some?
      && !MayAccess(item.data.ownerId, CurrentUser(users, authId).user)
    ensures var item := FindById(items, id).value;
      var o := UpdateItemOutcome(items, properties, media, users, ValidId(id), authId, Some(u));
      && o.status == StatusUnauthorized
      && exists k :: 0 <= k < |o.items| && o.items[k] == MergeItem(item, u)
  {
    var item := FindById(items, id).value;
    var saved := TableAfterUpdate(items, item, u);
    var shifted := if u.position.Some? && u.position.value != item.position
                   then Shifted(items, u.position.value, item.language) else items;
    var k :| 0 <= k < |items| && items[k] == item;
    assert shifted[k].id == id;
    FindSavedRow(shifted, k, MergeItem(item, u));
    assert saved[k] == MergeItem(item, u);
    var view := ItemView(saved, properties, media, id);
    assert view.Ok? && view.value.ownerId == item.data.ownerId;
    assert UpdateItemOutcome(items, properties, media, users, ValidId(id), authId, Some(u))
      == UpdateOutcome(StatusUnauthorized, saved);
  }

  // ---- GetAllItemsHandler ----

  /** The list parameters as the handler reads them: language defaults to
      "pl", skip to 0 and limit to 100, and a number that does not parse
      reads as 0. */
  function ListParameters(language: Option<string>, skip: Option<string>, limit: Option<string>): (p: Parameters)
    ensures p.language == ValueOr(language, "pl")
  {
    Parameters(ValueOr(language, "pl"), AtoiOrZero(ValueOr(skip, "0")), AtoiOrZero(ValueOr(limit, "100")))
  }

  /** With nothing given the query uses language "pl", skip 0 and limit 100;
      numbers that do not parse end as skip 0 and limit 100 after the
      repository's defaults, and an empty language as "pl". */
  lemma ListDefaults(language: Option<string>, skip: string, limit: string)
    requires Atoi(skip).None? && Atoi(limit).None?
    ensures NormalizeParameters(Some(ListParameters(None, None, None))) == Parameters("pl", 0, 100)
    ensures var q := NormalizeParameters(Some(ListParameters(language, Some(skip), Some(limit))));
      q.skip == 0 && q.limit == 100
    ensures NormalizeParameters(Some(ListParameters(Some(""), None, None))).language == "pl"
  {
    AtoiInvertsItoa(0);
    AtoiInvertsItoa(100);
    assert Itoa(0) == "0" && Itoa(100) == "100";
  }

  /** GetAllItemsHandler: the requester's page of items. When the requester
      cannot be found the status the lookup wrote stands. */
  method GetAllItemsHandler(db: Db, authId: Option<Uuid>, language: Option<string>, skip: Option<string>,
                            limit: Option<string>)
    returns (status: int, r: Option<ItemGetAll>)
    ensures CurrentUser(db.users, authId).Failed? ==> status == CurrentUser(db.users, authId).status && r.None?
    ensures CurrentUser(db.users, authId).Found? ==>
              var user := CurrentUser(db.users, authId).user;
              var page := ItemPage(db.items, user.id, user.isSuperUser,
                                   NormalizeParameters(Some(ListParameters(language, skip, limit))));
              status == StatusOK && r.Some? && |r.value.data| == |page| && r.value.count == |page|
              && forall k :: 0 <= k < |page| ==> r.value.data[k].id == page[k].id
  {
    var user := CurrentUser(db.users, authId);
    if user.Failed? {
      return user.status, None;
    }
    var flag := IsSuperUserOf(db.users, user.user.id);
    CurrentUserFlagAgrees(db.users, authId);
    var isSuperUser := if flag.Ok? then flag.value else false;
    var params := ListParameters(language, skip, limit);
    var items := GetAllItems(db, user.user.id, isSuperUser, Some(params));
    status, r := StatusOK, Some(items);
  }

  // ---- GetAvailableLanguages / GetAvailableCategories ----

  /** `SELECT DISTINCT language`: each language of the table once. */
  function AvailableLanguages(items: seq<Item>): (r: seq<string>)
    ensures NoDuplicates(r)
    ensures forall l :: l in r <==> exists i :: i in items && i.language == l
  {
    var all := seq(|items|, k requires 0 <= k < |items| => items[k].language);
    assert forall l :: l in all <==> exists i :: i in items && i.language == l by {
      forall l ensures l in all <==> exists i :: i in items && i.language == l {
        if l in all {
          var k :| 0 <= k < |all| && all[k] == l;
          assert items[k] in items;
        }
        if exists i :: i in items && i.language == l {
          var i :| i in items && i.language == l;
          var k :| 0 <= k < |items| && items[k] == i;
          assert all[k] == l;
        }
      }
    }
    Distinct(all)
  }

  /** `SELECT DISTINCT category`: each category of the table once. */
  function AvailableCategories(items: seq<Item>): (r: seq<string>)
    ensures NoDuplicates(r)
    ensures forall c :: c in r <==> exists i :: i in items && i.data.category == c
  {
    var all := seq(|items|, k requires 0 <= k < |items| => items[k].data.category);
    assert forall c :: c in all <==> exists i :: i in items && i.data.category == c by {
      forall c ensures c in all <==> exists i :: i in items && i.data.category == c {
        if c in all {
          var k :| 0 <= k < |all| && all[k] == c;
          assert items[k] in items;
        }
        if exists i :: i in items && i.data.category == c {
          var i :| i in items && i.data.category == c;
          var k :| 0 <= k < |items| && items[k] == i;
          assert all[k] == c;
        }
      }
    }
    Distinct(all)
  }

  // ---- DeleteItemByIdHandler ----

  /** The refusals of DeleteItemByIdHandler, in its order: the requester
      lookup, 400 for a bad id, 500 when the item cannot be read, 401 unless
      the requester owns the item AND is a superuser. None: the delete runs. */
  function DeleteItemGate(items: seq<Item>, properties: seq<Property>, media: seq<Media>, users: seq<User>,
                          authId: Option<Uuid>, target: PathId): (r: Option<int>)
    ensures r.None? <==>
              && CurrentUser(users, authId).Found? && target.ValidId?
              && ItemView(items, properties, media, target.id).Ok?
              && MayDelete(ItemView(items, properties, media, target.id).value.ownerId, CurrentUser(users, authId).user)
    ensures CurrentUser(users, authId).Failed? ==> r == Some(CurrentUser(users, authId).status)
  {
    match CurrentUser(users, authId)
    case Failed(s, _) => Some(s)
    case Found(user) =>
      if !target.ValidId? then Some(StatusBadRequest)
      else
        var view := ItemView(items, properties, media, target.id);
        if view.Err? then Some(StatusInternalServerError)
        else if view.value.ownerId != user.id || !user.isSuperUser then Some(StatusUnauthorized)
        else None
  }

  method DeleteItemByIdHandler(db: Db, authId: Option<Uuid>, target: PathId, bucketError: Option<string>)
    returns (status: int)
    modifies db`items, db`properties, db`media
    ensures var gate := DeleteItemGate(old(db.items), old(db.properties), old(db.media), db.users, authId, target);
      gate.Some? ==> status == gate.value && db.items == old(db.items)
                     && db.properties == old(db.properties) && db.media == old(db.media)
    ensures var gate := DeleteItemGate(old(db.items), old(db.properties), old(db.media), db.users, authId, target);
      gate.None? ==>
        && db.items == DeleteById(old(db.items), target.id)
        && db.properties == Filter(old(db.properties), (p: Property) => p.contentId != target.id)
        && db.media == (if status == StatusOK then Filter(old(db.media), (m: Media) => m.contentId != target.id) else old(db.media))
        && (status == StatusOK || status == StatusInternalServerError)
        && (status == StatusOK <==> bucketError.None? || Filter(old(db.media), (m: Media) => m.contentId == target.id) == [])
  {
    var user := CurrentUser(db.users, authId);
    if user.Failed? {
      return user.status;
    }
    if !target.ValidId? {
      return StatusBadRequest;
    }
    var item := GetItemById(db, target.id);
    if item.Err? {
      return StatusInternalServerError;
    }
    if item.value.ownerId != user.user.id || !user.user.isSuperUser {
      return StatusUnauthorized;
    }
    var err := DeleteItemById(db, target.id, bucketError);
    if err.Some? {
      return StatusInternalServerError;
    }
    status := StatusOK;
  }
}
