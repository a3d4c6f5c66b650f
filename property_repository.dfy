/** The property repository (modules/property/repository/property_repository.go):
    the descriptive attributes attached to an item through content_id. */
module PropertyRepository {
  import opened Common
  import opened Crud
  import opened PropertyModels
  import opened Database

  /** The BeforeCreate hook of Property: like the item hook, it draws a new id
      when the id is NOT nil. */
  function BeforeCreate(id: Uuid, freshId: Uuid): (r: Uuid)
    ensures id != NilId ==> r == freshId
    ensures id == NilId ==> r == NilId
  {
    if id != NilId then freshId else id
  }

  /** The id a created property ends up with: CreateEssence fills a nil id,
      then the hook replaces the (now non-nil) id, so the hook's id wins. */
  lemma CreatedPropertyGetsHookId(id: Uuid, essenceId: Uuid, hookId: Uuid)
    requires essenceId != NilId
    ensures BeforeCreate(CreateEssenceId(id, essenceId), hookId) == hookId
  {
  }

  /** CreateProperty: stores `c` with the id chosen by CreateEssence and the
      hook and returns it as a PropertyGet. */
  method CreateProperty(db: Db, c: Property, essenceId: Uuid, hookId: Uuid) returns (r: Property)
    requires essenceId != NilId
    modifies db`properties
    ensures r == c.(id := hookId)
    ensures db.properties == old(db.properties) + [r]
  {
    var id := CreateEssenceId(c.id, essenceId);
    id := BeforeCreate(id, hookId);
    r := c.(id := id);
    db.properties := db.properties + [r];
  }

  /** GetPropertyById: the row with that id, or gorm's not-found error. */
  function GetPropertyById(properties: seq<Property>, id: Uuid): (r: Result<Property>)
    ensures r.Ok? <==> exists i :: 0 <= i < |properties| && properties[i].id == id
    ensures r.Ok? ==> r.value in properties && r.value.id == id
    ensures r.Err? ==> r.msg == RecordNotFound
  {
    match FindProperty(properties, id)
    case None => Err(RecordNotFound)
    case Some(p) => Ok(p)
  }

  /** GetPropertyByItemId: the item's property, or the empty PropertyGet (and
      no error) when the item has none. */
  function PropertyByItemId(properties: seq<Property>, itemId: Uuid): (r: Property)
    ensures (forall i :: 0 <= i < |properties| ==> properties[i].contentId != itemId) ==> r == EmptyProperty
    ensures (exists i :: 0 <= i < |properties| && properties[i].contentId == itemId) ==>
              r in properties && r.contentId == itemId
  {
    match FindByContentId(properties, itemId)
    case None => EmptyProperty
    case Some(p) => p
  }

  /** The property after UpdateProperty's nine conditional assignments. */
  function MergeProperty(p: Property, u: PropertyUpdate): (r: Property)
    ensures r.id == p.id && r.contentId == p.contentId
  {
    Property(p.id, NonEmptyOr(u.height, p.height), NonEmptyOr(u.width, p.width),
             NonEmptyOr(u.weight, p.weight), NonEmptyOr(u.color, p.color),
             NonEmptyOr(u.material, p.material), NonEmptyOr(u.brand, p.brand),
             NonEmptyOr(u.size, p.size), NonEmptyOr(u.motif, p.motif),
             NonEmptyOr(u.style, p.style), p.contentId)
  }

  /** The attributes of a property, in declaration order. */
  function Attributes(p: Property): seq<string>
  {
    [p.height, p.width, p.weight, p.color, p.material, p.brand, p.size, p.motif, p.style]
  }

  function UpdateValues(u: PropertyUpdate): seq<string>
  {
    [u.height, u.width, u.weight, u.color, u.material, u.brand, u.size, u.motif, u.style]
  }

  /** Exactly the attributes with a non-empty update value are overwritten;
      every other attribute keeps its value. */
  lemma MergePropertyOverwritesNonEmpty(p: Property, u: PropertyUpdate, k: int)
    requires 0 <= k < 9
    ensures UpdateValues(u)[k] != "" ==> Attributes(MergeProperty(p, u))[k] == UpdateValues(u)[k]
    ensures UpdateValues(u)[k] == "" ==> Attributes(MergeProperty(p, u))[k] == Attributes(p)[k]
  {
  }

  /** An all-empty update changes nothing. */
  lemma MergeEmptyIsIdentity(p: Property)
    ensures MergeProperty(p, PropertyUpdate("", "", "", "", "", "", "", "", "")) == p
  {
  }

  /** Applying the same update twice equals applying it once. */
  lemma MergePropertyIdempotent(p: Property, u: PropertyUpdate)
    ensures MergeProperty(MergeProperty(p, u), u) == MergeProperty(p, u)
  {
  }

  /** No attribute can be cleared back to "" by an update. */
  lemma MergePropertyNeverClears(p: Property, u: PropertyUpdate, k: int)
    requires 0 <= k < 9
    requires Attributes(p)[k] != ""
    ensures Attributes(MergeProperty(p, u))[k] != ""
  {
  }

  /** db.Save of a loaded property: the row with its id is replaced. */
  function ReplaceProperty(properties: seq<Property>, p: Property): (r: seq<Property>)
    ensures |r| == |properties|
    ensures forall i :: 0 <= i < |properties| ==> r[i] == if properties[i].id == p.id then p else properties[i]
  {
    seq(|properties|, i requires 0 <= i < |properties| =>
      if properties[i].id == p.id then p else properties[i])
  }

  /** UpdateProperty: load by id, overwrite the non-empty attributes one by
      one, save, and return the saved property. */
  method UpdateProperty(db: Db, id: Uuid, u: PropertyUpdate) returns (r: Result<Property>)
    modifies db`properties
    ensures FindProperty(old(db.properties), id).None? ==>
              r == Err(RecordNotFound) && db.properties == old(db.properties)
    ensures FindProperty(old(db.properties), id).Some? ==>
              r == Ok(MergeProperty(FindProperty(old(db.properties), id).value, u))
              && db.properties == ReplaceProperty(old(db.properties), r.value)
  {
    var found := FindProperty(db.properties, id);
    if found.None? {
      return Err(RecordNotFound);
    }
    var stored := found.value;
    var height, width, weight := stored.height, stored.width, stored.weight;
    var color, material, brand := stored.color, stored.material, stored.brand;
    var size, motif, style := stored.size, stored.motif, stored.style;
    if u.height != "" { height := u.height; }
    assert height == NonEmptyOr(u.height, stored.height);
    if u.width != "" { width := u.width; }
    assert width == NonEmptyOr(u.width, stored.width);
    if u.weight != "" { weight := u.weight; }
    assert weight == NonEmptyOr(u.weight, stored.weight);
    if u.color != "" { color := u.color; }
    assert color == NonEmptyOr(u.color, stored.color);
    if u.material != "" { material := u.material; }
    assert material == NonEmptyOr(u.material, stored.material);
    if u.brand != "" { brand := u.brand; }
    assert brand == NonEmptyOr(u.brand, stored.brand);
    if u.size != "" { size := u.size; }
    assert size == NonEmptyOr(u.size, stored.size);
    if u.motif != "" { motif := u.motif; }
    assert motif == NonEmptyOr(u.motif, stored.motif);
    if u.style != "" { style := u.style; }
    assert style == NonEmptyOr(u.style, stored.style);
    var property := Property(stored.id, height, width, weight, color, material, brand, size,
                             motif, style, stored.contentId);
    assert property == MergeProperty(stored, u);
    db.properties := ReplaceProperty(db.properties, property);
    r := Ok(property);
  }

  /** An update keeps every other property row, and the updated row keeps its
      id and content id. */
  lemma UpdateKeepsOtherRows(properties: seq<Property>, p: Property, u: PropertyUpdate, i: int)
    requires 0 <= i < |properties| && properties[i].id != p.id
    ensures ReplaceProperty(properties, MergeProperty(p, u))[i] == properties[i]
  {
  }

  /** DeleteProperty: removes the row with that id; a missing row is not an
      error, so no error is ever reported. */
  method DeleteProperty(db: Db, id: Uuid) returns (err: Option<string>)
    modifies db`properties
    ensures err == None
    ensures db.properties == Filter(old(db.properties), (p: Property) => p.id != id)
  {
    db.properties := Filter(db.properties, (p: Property) => p.id != id);
    err := None;
  }
}
