/** The item repository (modules/item/repository/item_repository.go): create,
    read, partial update, delete and the paged listing of catalogue items. */
module ItemRepository {
  import opened Common
  import opened Crud
  import opened Entities
  import opened MediaModels
  import opened PropertyModels
  import opened ItemModels
  import opened Database
  import PropertyRepository

  const EmptyTitleError: string := "the product title cannot be empty"

  // ---- CreateItem ----

  /** The items table after a successful CreateItem of `created`. */
  function TableAfterCreate(items: seq<Item>, created: Item): seq<Item>
  {
    (if PositionTaken(items, created.position)
     then Shifted(items, created.position, created.language) else items) + [created]
  }

  /** CreateItem: rejects an empty title; otherwise, when the position is
      already taken (in any language), shifts the item's language up from that
      position, then stores the item. CreateEssence fills a nil id with
      `essenceId`; the item hook then replaces every non-nil id by `hookId`. */
  method CreateItem(db: Db, i: Item, essenceId: Uuid, hookId: Uuid) returns (r: Result<Item>)
    requires essenceId != NilId
    modifies db`items
    ensures i.data.title == "" ==> r == Err(EmptyTitleError) && db.items == old(db.items)
    ensures i.data.title != "" ==>
              r == Ok(i.(id := hookId)) && db.items == TableAfterCreate(old(db.items), r.value)
  {
    if i.data.title == "" {
      return Err(EmptyTitleError);
    }
    if PositionTaken(db.items, i.position) {
      db.items := ShiftPositions(db.items, i.position, i.language);
    }
    var id := CreateEssenceId(i.id, essenceId);
    id := BeforeCreate(id, hookId);
    var created := i.(id := id);
    db.items := db.items + [created];
    r := Ok(created);
  }

  /** The created item is the last row and the only row of its language at
      its position. */
  lemma {:induction false} CreatedItemHoldsItsSlot(items: seq<Item>, created: Item)
    ensures var t := TableAfterCreate(items, created);
      && t[|t| - 1] == created
      && forall k :: 0 <= k < |t| - 1 && t[k].language == created.language ==>
           t[k].position != created.position
  {
    var t := TableAfterCreate(items, created);
    if PositionTaken(items, created.position) {
      var s := Shifted(items, created.position, created.language);
      ShiftFreesSlot(items, created.position, created.language);
      forall k | 0 <= k < |t| - 1 && t[k].language == created.language
        ensures t[k].position != created.position
      {
        assert t[k] == s[k] && s[k] in s;
      }
    } else {
      forall k | 0 <= k < |t| - 1
        ensures t[k].position != created.position
      {
        assert t[k] == items[k];
      }
    }
  }

  /** Creating an item moves only rows of its language at or above its
      position, keeps every existing record, and changes nothing when the
      position was free. */
  lemma CreateItemMovesOnlyItsLanguage(items: seq<Item>, created: Item, k: int)
    requires 0 <= k < |items|
    ensures var t := TableAfterCreate(items, created);
      && t[k].id == items[k].id && t[k].data == items[k].data && t[k].language == items[k].language
      && (items[k].language != created.language || items[k].position < created.position ==> t[k] == items[k])
      && (!PositionTaken(items, created.position) ==> t[k] == items[k])
  {
  }

  // ---- GetItemById ----

  /** The ItemGet that GetItemById answers: it needs the item row AND a
      property row for it; the images are the item's media URLs in row
      order. */
  function ItemView(items: seq<Item>, properties: seq<Property>, media: seq<Media>, id: Uuid)
    : (r: Result<ItemGet>)
    ensures r.Ok? <==> FindById(items, id).Some? && FindByContentId(properties, id).Some?
    ensures r.Err? ==> r.msg == RecordNotFound
    ensures r.Ok? ==> r.value.id == id && r.value.property in properties && r.value.property.contentId == id
    ensures r.Ok? ==> r.value.images == ImagesOf(media, id)
  {
    match FindById(items, id)
    case None => Err(RecordNotFound)
    case Some(item) =>
      match FindByContentId(properties, id)
      case None => Err(RecordNotFound)
      case Some(property) =>
        ImagesOfWithContentIn(media, {id}, id);
        Ok(ToItemGet(item, property, ImagesOf(WithContentIn(media, {id}), item.id)))
  }

  /** GetItemById: the item, its property and its media grouped by content id. */
  method GetItemById(db: Db, itemId: Uuid) returns (r: Result<ItemGet>)
    ensures r == ItemView(db.items, db.properties, db.media, itemId)
  {
    var found := FindById(db.items, itemId);
    if found.None? {
      return Err(RecordNotFound);
    }
    var property := FindByContentId(db.properties, itemId);
    if property.None? {
      return Err(RecordNotFound);
    }
    var media := WithContentIn(db.media, {itemId});
    var mediaMap := GroupMedia(media);
    r := Ok(ToItemGet(found.value, property.value, Lookup(mediaMap, found.value.id)));
  }

  /** An item without a property row cannot be read back. */
  lemma ItemWithoutPropertyIsNotFound(items: seq<Item>, properties: seq<Property>, media: seq<Media>, i: Item)
    requires i in items
    requires forall p :: p in properties ==> p.contentId != i.id
    ensures ItemView(items, properties, media, i.id) == Err(RecordNotFound)
  {
    forall k | 0 <= k < |properties| ensures properties[k].contentId != i.id {
      assert properties[k] in properties;
    }
  }

  // ---- UpdateItemById ----

  /** The item after UpdateItemById's optional-field overwrites. */
  function MergeItem(item: Item, u: ItemUpdate): (r: Item)
    ensures r.id == item.id && r.data.ownerId == item.data.ownerId
  {
    Row(item.id, ValueOr(u.position, item.position), ValueOr(u.language, item.language),
        ItemData(ValueOr(u.title, item.data.title), ValueOr(u.content, item.data.content),
                 ValueOr(u.price, item.data.price), ValueOr(u.quantity, item.data.quantity),
                 ValueOr(u.itemUrl, item.data.itemUrl), ValueOr(u.category, item.data.category),
                 ValueOr(u.status, item.data.status), item.data.ownerId))
  }

  /** The update that changes nothing. */
  const NoItemUpdate := ItemUpdate(None, None, None, None, None, None, None, None, None)

  /** Exactly the fields present (non-nil) in the update are overwritten. */
  lemma MergeItemOverwritesPresentFields(item: Item, u: ItemUpdate)
    ensures var r := MergeItem(item, u);
      && (u.title.Some? ==> r.data.title == u.title.value) && (u.title.None? ==> r.data.title == item.data.title)
      && (u.content.Some? ==> r.data.content == u.content.value) && (u.content.None? ==> r.data.content == item.data.content)
      && (u.price.Some? ==> r.data.price == u.price.value) && (u.price.None? ==> r.data.price == item.data.price)
      && (u.quantity.Some? ==> r.data.quantity == u.quantity.value) && (u.quantity.None? ==> r.data.quantity == item.data.quantity)
      && (u.position.Some? ==> r.position == u.position.value) && (u.position.None? ==> r.position == item.position)
      && (u.itemUrl.Some? ==> r.data.itemUrl == u.itemUrl.value) && (u.itemUrl.None? ==> r.data.itemUrl == item.data.itemUrl)
      && (u.category.Some? ==> r.data.category == u.category.value) && (u.category.None? ==> r.data.category == item.data.category)
      && (u.language.Some? ==> r.language == u.language.value) && (u.language.None? ==> r.language == item.language)
      && (u.status.Some? ==> r.data.status == u.status.value) && (u.status.None? ==> r.data.status == item.data.status)
  {
  }

  /** An update with no field changes nothing, and applying an update twice
      equals applying it once. */
  lemma MergeItemIdentityAndIdempotence(item: Item, u: ItemUpdate)
    ensures MergeItem(item, NoItemUpdate) == item
    ensures MergeItem(MergeItem(item, u), u) == MergeItem(item, u)
  {
  }

  /** The items table after UpdateItemById of the stored `item`: a position
      change first shifts the item's OLD language up from the new position,
      then the merged item is saved over its row. */
  function TableAfterUpdate(items: seq<Item>, item: Item, u: ItemUpdate): seq<Item>
  {
    var shifted := if u.position.Some? && u.position.value != item.position
                   then Shifted(items, u.position.value, item.language) else items;
    SaveRow(shifted, MergeItem(item, u))
  }

  /** UpdateItemById: load, shift on a position change, overwrite the present
      fields one by one, save, and answer with GetItemById. */
  method UpdateItemById(db: Db, itemId: Uuid, u: ItemUpdate) returns (r: Result<ItemGet>)
    modifies db`items
    ensures FindById(old(db.items), itemId).None? ==>
              r == Err(RecordNotFound) && db.items == old(db.items)
    ensures FindById(old(db.items), itemId).Some? ==>
              db.items == TableAfterUpdate(old(db.items), FindById(old(db.items), itemId).value, u)
              && r == ItemView(db.items, db.properties, db.media, itemId)
  {
    var found := FindById(db.items, itemId);
    if found.None? {
      return Err(RecordNotFound);
    }
    var item := found.value;
    if u.position.Some? && u.position.value != item.position {
      db.items := ShiftPositions(db.items, u.position.value, item.language);
      item := item.(position := u.position.value);
    }
    var moved := item;
    item := OverwritePresentFields(moved, u);
    assert item == MergeItem(found.value, u);
    db.items := SaveRow(db.items, item);
    r := GetItemById(db, itemId);
  }

  /** The eight optional-field overwrites of UpdateItemById after the position
      has been dealt with. */
  method OverwritePresentFields(item: Item, u: ItemUpdate) returns (r: Item)
    ensures r == MergeItem(item, u).(position := item.position)
  {
    var title, content, price, quantity := item.data.title, item.data.content, item.data.price, item.data.quantity;
    var itemUrl, category, language, status := item.data.itemUrl, item.data.category, item.language, item.data.status;
    if u.title.Some? { title := u.title.value; }
    assert title == ValueOr(u.title, item.data.title);
    if u.content.Some? { content := u.content.value; }
    assert content == ValueOr(u.content, item.data.content);
    if u.price.Some? { price := u.price.value; }
    assert price == ValueOr(u.price, item.data.price);
    if u.quantity.Some? { quantity := u.quantity.value; }
    assert quantity == ValueOr(u.quantity, item.data.quantity);
    if u.itemUrl.Some? { itemUrl := u.itemUrl.value; }
    assert itemUrl == ValueOr(u.itemUrl, item.data.itemUrl);
    if u.category.Some? { category := u.category.value; }
    assert category == ValueOr(u.category, item.data.category);
    if u.language.Some? { language := u.language.value; }
    assert language == ValueOr(u.language, item.language);
    if u.status.Some? { status := u.status.value; }
    assert status == ValueOr(u.status, item.data.status);
    r := Row(item.id, item.position, language,
             ItemData(title, content, price, quantity, itemUrl, category, status, item.data.ownerId));
  }

  /** When an update moves an item within its language, no other row of that
      language is left at the new position. */
  lemma {:induction false} UpdateMovesItemIntoFreedSlot(items: seq<Item>, item: Item, u: ItemUpdate)
    requires u.position.Some? && u.position.value != item.position
    ensures forall r :: r in TableAfterUpdate(items, item, u) && r.id != item.id && r.language == item.language ==>
              r.position != u.position.value
  {
    var s := Shifted(items, u.position.value, item.language);
    var t := TableAfterUpdate(items, item, u);
    ShiftFreesSlot(items, u.position.value, item.language);
    forall r | r in t && r.id != item.id && r.language == item.language
      ensures r.position != u.position.value
    {
      var k :| 0 <= k < |t| && t[k] == r;
      assert t[k] == s[k] && s[k] in s;
    }
  }

  /** The shift uses the language the item had before the update: when the
      update also changes the language, the rows of the new language are not
      moved, so the item can land on a position one of them already holds. */
  lemma UpdateShiftIgnoresNewLanguage(items: seq<Item>, item: Item, u: ItemUpdate, k: int)
    requires u.language.Some? && u.language.value != item.language
    requires 0 <= k < |items| && items[k].id != item.id && items[k].language == u.language.value
    ensures TableAfterUpdate(items, item, u)[k] == items[k]
  {
  }

  // ---- DeleteItemById ----

  /** DeleteItemById: deletes the item row and its property, then deletes each
      media file in the bucket and finally the media rows. `bucketError` is
      the outcome of the bucket deletion: a failure returns it after the item
      and property are gone but before the media rows are deleted. */
  method DeleteItemById(db: Db, id: Uuid, bucketError: Option<string>) returns (err: Option<string>)
    modifies db`items, db`properties, db`media
    ensures db.items == DeleteById(old(db.items), id)
    ensures db.properties == Filter(old(db.properties), (p: Property) => p.contentId != id)
    ensures var mediaList := Filter(old(db.media), (m: Media) => m.contentId == id);
      if bucketError.Some? && mediaList != []
      then err == bucketError && db.media == old(db.media)
      else err == None && db.media == Filter(old(db.media), (m: Media) => m.contentId != id)
  {
    db.items := DeleteById(db.items, id);
    db.properties := Filter(db.properties, (p: Property) => p.contentId != id);
    var mediaList := Filter(db.media, (m: Media) => m.contentId == id);
    if bucketError.Some? && mediaList != [] {
      return bucketError;
    }
    db.media := Filter(db.media, (m: Media) => m.contentId != id);
    err := None;
  }

  // ---- GetAllItems ----

  /** The parameter defaults: language "pl", skip at least 0, limit 100 when
      not positive; a missing parameter record counts as all-zero. */
  function NormalizeParameters(p: Option<Parameters>): (q: Parameters)
    ensures q.language != "" && q.skip >= 0 && q.limit > 0
  {
    var p := if p.None? then Parameters("", 0, 0) else p.value;
    Parameters(if p.language == "" then "pl" else p.language,
               if p.skip < 0 then 0 else p.skip,
               if p.limit <= 0 then 100 else p.limit)
  }

  /** The defaults touch only out-of-range values: valid parameters pass
      unchanged, and normalising twice is normalising once. */
  lemma NormalizeParametersKeepsValid(p: Parameters)
    ensures p.language != "" && p.skip >= 0 && p.limit > 0 ==> NormalizeParameters(Some(p)) == p
    ensures NormalizeParameters(Some(NormalizeParameters(Some(p)))) == NormalizeParameters(Some(p))
    ensures NormalizeParameters(None) == Parameters("pl", 0, 100)
  {
  }

  /** The WHERE clause of the listing: the caller's items unless a superuser,
      in the requested language when one is given. */
  predicate Visible(i: Item, userId: Uuid, isSuperUser: bool, language: string)
  {
    (isSuperUser || i.data.ownerId == userId) && (language == "" || i.language == language)
  }

  /** The rows the listing query answers: visible, ordered by position, then
      cut to the [skip, skip + limit) window. */
  function ItemPage(items: seq<Item>, userId: Uuid, isSuperUser: bool, q: Parameters): seq<Item>
    requires q.skip >= 0 && q.limit >= 0
  {
    Window(SortByPosition(Filter(items, (i: Item) => Visible(i, userId, isSuperUser, q.language))),
           q.skip, q.limit)
  }

  /** Every row of a page is a stored, visible row; the page is sorted by
      position and holds at most `limit` rows. */
  lemma ItemPageContents(items: seq<Item>, userId: Uuid, isSuperUser: bool, q: Parameters)
    requires q.skip >= 0 && q.limit >= 0
    ensures var page := ItemPage(items, userId, isSuperUser, q);
      && |page| <= q.limit
      && SortedByPosition(page)
      && forall r :: r in page ==> r in items && Visible(r, userId, isSuperUser, q.language)
  {
    var visible := Filter(items, (i: Item) => Visible(i, userId, isSuperUser, q.language));
    var sorted := SortByPosition(visible);
    var page := Window(sorted, q.skip, q.limit);
    WindowKeepsOrder(sorted, q.skip, q.limit);
    forall r | r in page ensures r in items && Visible(r, userId, isSuperUser, q.language) {
      var k :| 0 <= k < |page| && page[k] == r;
      assert sorted[q.skip + k] in sorted;
      SortKeepsRows(visible, r);
    }
  }

  /** The first page of a short listing holds every visible row. */
  lemma ItemPageComplete(items: seq<Item>, userId: Uuid, isSuperUser: bool, q: Parameters, r: Item)
    requires q.skip == 0 && q.limit >= |items|
    requires r in items && Visible(r, userId, isSuperUser, q.language)
    ensures r in ItemPage(items, userId, isSuperUser, q)
  {
    var visible := Filter(items, (i: Item) => Visible(i, userId, isSuperUser, q.language));
    var sorted := SortByPosition(visible);
    SortKeepsRows(visible, r);
    assert Window(sorted, 0, q.limit) == sorted;
  }

  /** The property of every listed item, keyed by item id. */
  method PropertiesOf(properties: seq<Property>, items: seq<Item>) returns (m: map<Uuid, Property>)
    ensures forall x :: x in m ==> m[x] == PropertyRepository.PropertyByItemId(properties, x)
    ensures forall j :: 0 <= j < |items| ==> items[j].id in m
  {
    m := map[];
    var k := 0;
    while k < |items|
      invariant 0 <= k <= |items|
      invariant forall x :: x in m ==> m[x] == PropertyRepository.PropertyByItemId(properties, x)
      invariant forall j :: 0 <= j < k ==> items[j].id in m
    {
      m := m[items[k].id := PropertyRepository.PropertyByItemId(properties, items[k].id)];
      k := k + 1;
    }
  }

  /** The response rows, one per listed item, in order. */
  method ItemResponses(items: seq<Item>, propertyMap: map<Uuid, Property>, mediaMap: map<Uuid, seq<string>>)
    returns (data: seq<ItemGet>)
    requires forall j :: 0 <= j < |items| ==> items[j].id in propertyMap
    ensures |data| == |items|
    ensures forall j :: 0 <= j < |items| ==>
              data[j] == ToItemGet(items[j], propertyMap[items[j].id], Lookup(mediaMap, items[j].id))
  {
    data := [];
    var k := 0;
    while k < |items|
      invariant 0 <= k <= |items| && |data| == k
      invariant forall j :: 0 <= j < k ==>
        data[j] == ToItemGet(items[j], propertyMap[items[j].id], Lookup(mediaMap, items[j].id))
    {
      var property := if items[k].id in propertyMap then propertyMap[items[k].id] else EmptyProperty;
      data := data + [ToItemGet(items[k], property, Lookup(mediaMap, items[k].id))];
      k := k + 1;
    }
  }

  /** GetAllItems: normalise the parameters, run the listing query, fetch the
      media of the listed ids and group it, look up each item's property, and
      build the response; Count is the size of this page. */
  method GetAllItems(db: Db, userId: Uuid, isSuperUser: bool, parameters: Option<Parameters>)
    returns (r: ItemGetAll)
    ensures var page := ItemPage(db.items, userId, isSuperUser, NormalizeParameters(parameters));
      && |r.data| == |page| && r.count == |r.data|
      && forall k :: 0 <= k < |page| ==>
           r.data[k] == ToItemGet(page[k], PropertyRepository.PropertyByItemId(db.properties, page[k].id),
                                  ImagesOf(db.media, page[k].id))
  {
    var q := NormalizeParameters(parameters);
    var items := ItemPage(db.items, userId, isSuperUser, q);
    var itemIds := Ids(items);
    var idSet := set x | x in itemIds;
    var media: seq<Media> := [];
    if |itemIds| > 0 {
      media := WithContentIn(db.media, idSet);
    }
    var mediaMap := GroupMedia(media);
    forall k | 0 <= k < |items| ensures Lookup(mediaMap, items[k].id) == ImagesOf(db.media, items[k].id) {
      assert items[k].id == itemIds[k];
      ImagesOfWithContentIn(db.media, idSet, items[k].id);
    }
    var propertyMap := PropertiesOf(db.properties, items);
    var data := ItemResponses(items, propertyMap, mediaMap);
    forall k | 0 <= k < |items| ensures data[k] == ToItemGet(items[k],
        PropertyRepository.PropertyByItemId(db.properties, items[k].id), ImagesOf(db.media, items[k].id)) {
      assert propertyMap[items[k].id] == PropertyRepository.PropertyByItemId(db.properties, items[k].id);
    }
    r := ItemGetAll(data, |items|);
  }
}
