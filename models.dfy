/** Records of the shared entities package (internal/entities): the login
    attempt counter and the list parameters. */
module Entities {
  import opened Common

  /** A LoginAttempt row; times are minutes, `bannedUntil` is the nullable
      BannedUntil column. */
  datatype LoginAttempt = LoginAttempt(
    email: string, ip: string, attempts: int, lastAttempt: int, bannedUntil: Option<int>)

  /** The login limiter keys its counters by (email, ip). */
  datatype AttemptKey = AttemptKey(email: string, ip: string)

  /** The list parameters handed to GetAllItems. */
  datatype Parameters = Parameters(language: string, skip: int, limit: int)
}

/** Media rows (modules/media/models) and their grouping by content id, as the
    item and blog repositories build it. */
module MediaModels {
  import opened Common

  datatype Media = Media(id: Uuid, contentId: Uuid, url: string)

  /** The URLs of the media rows of one content id, in row order. */
  function ImagesOf(media: seq<Media>, contentId: Uuid): (r: seq<string>)
    ensures |r| <= |media|
    ensures forall u :: u in r ==> exists m :: m in media && m.contentId == contentId && m.url == u
  {
    if |media| == 0 then []
    else
      var init := media[..|media| - 1];
      var last := media[|media| - 1];
      assert forall m :: m in init ==> m in media;
      ImagesOf(init, contentId) + (if last.contentId == contentId then [last.url] else [])
  }

  /** Reading a Go map of slices: a missing key reads as the empty slice. */
  function Lookup(m: map<Uuid, seq<string>>, id: Uuid): seq<string>
  {
    if id in m then m[id] else []
  }

  /** The grouping loop `mediaMap[m.ContentId] = append(mediaMap[m.ContentId], m.Url)`. */
  method GroupMedia(media: seq<Media>) returns (m: map<Uuid, seq<string>>)
    ensures forall id :: Lookup(m, id) == ImagesOf(media, id)
  {
    m := map[];
    var i := 0;
    while i < |media|
      invariant 0 <= i <= |media|
      invariant forall id :: Lookup(m, id) == ImagesOf(media[..i], id)
    {
      assert media[..i + 1][..i] == media[..i];
      m := m[media[i].contentId := Lookup(m, media[i].contentId) + [media[i].url]];
      i := i + 1;
    }
    assert media[..i] == media;
  }

  /** `WHERE content_id IN (ids)`, keeping row order. */
  function WithContentIn(media: seq<Media>, ids: set<Uuid>): (r: seq<Media>)
    ensures forall m :: m in r ==> m in media && m.contentId in ids
  {
    if |media| == 0 then []
    else
      var init := media[..|media| - 1];
      var last := media[|media| - 1];
      assert forall m :: m in init ==> m in media;
      WithContentIn(init, ids) + (if last.contentId in ids then [last] else [])
  }

  /** Narrowing the media query to the listed ids does not change the images
      of any listed id. */
  lemma {:induction false} ImagesOfWithContentIn(media: seq<Media>, ids: set<Uuid>, id: Uuid)
    requires id in ids
    ensures ImagesOf(WithContentIn(media, ids), id) == ImagesOf(media, id)
  {
    if |media| > 0 {
      var init := media[..|media| - 1];
      var last := media[|media| - 1];
      ImagesOfWithContentIn(init, ids, id);
      var w := WithContentIn(init, ids);
      var tail := if last.contentId in ids then [last] else [];
      assert WithContentIn(media, ids) == w + tail;
      ImagesOfAppend(w, tail, id);
    }
  }

  lemma {:induction false} ImagesOfAppend(a: seq<Media>, b: seq<Media>, id: Uuid)
    ensures ImagesOf(a + b, id) == ImagesOf(a, id) + ImagesOf(b, id)
    decreases |b|
  {
    if |b| > 0 {
      var ab := a + b;
      assert ab[..|ab| - 1] == a + b[..|b| - 1];
      ImagesOfAppend(a, b[..|b| - 1], id);
    } else {
      assert a + b == a;
    }
  }
}

/** Property rows and their update DTO (modules/property/models). */
module PropertyModels {
  import opened Common

  /** A Property row; PropertyGet has the same columns. */
  datatype Property = Property(
    id: Uuid, height: string, width: string, weight: string, color: string,
    material: string, brand: string, size: string, motif: string, style: string,
    contentId: Uuid)

  datatype PropertyUpdate = PropertyUpdate(
    height: string, width: string, weight: string, color: string,
    material: string, brand: string, size: string, motif: string, style: string)

  /** The zero PropertyGet. */
  const EmptyProperty := Property(NilId, "", "", "", "", "", "", "", "", "", NilId)

  /** A property row attached to `contentId` (`First` on content_id). GORM's `First`
    * orders by primary key; this takes the first in table order instead. The
    * contract only promises some matching row, so nothing depends on the choice. */
  function FindByContentId(properties: seq<Property>, contentId: Uuid): (r: Option<Property>)
    ensures r.None? <==> forall i :: 0 <= i < |properties| ==> properties[i].contentId != contentId
    ensures r.Some? ==> r.value in properties && r.value.contentId == contentId
  {
    if |properties| == 0 then None
    else if properties[0].contentId == contentId then Some(properties[0])
    else FindByContentId(properties[1..], contentId)
  }

  /** The first property row with primary key `id`. */
  function FindProperty(properties: seq<Property>, id: Uuid): (r: Option<Property>)
    ensures r.None? <==> forall i :: 0 <= i < |properties| ==> properties[i].id != id
    ensures r.Some? ==> r.value in properties && r.value.id == id
  {
    if |properties| == 0 then None
    else if properties[0].id == id then Some(properties[0])
    else FindProperty(properties[1..], id)
  }
}

/** Item records and DTOs (modules/item/models). */
module ItemModels {
  import opened Common
  import opened Crud
  import opened PropertyModels

  /** The columns of an item besides ID, Position and language; the price is
      carried along as an opaque number. */
  datatype ItemData = ItemData(
    title: string, content: string, price: real, quantity: int, itemUrl: string,
    category: string, status: bool, ownerId: Uuid)

  type Item = Row<ItemData>

  /** ItemUpdate: every field is optional (nil in Go), `None` when absent from the body. */
  datatype ItemUpdate = ItemUpdate(
    title: Option<string>, content: Option<string>, price: Option<real>,
    quantity: Option<int>, position: Option<int>, itemUrl: Option<string>,
    category: Option<string>, language: Option<string>, status: Option<bool>)

  datatype ItemGet = ItemGet(
    id: Uuid, title: string, content: string, price: real, quantity: int, position: int,
    language: string, itemUrl: string, category: string, status: bool,
    property: Property, ownerId: Uuid, images: seq<string>)

  datatype ItemGetAll = ItemGetAll(data: seq<ItemGet>, count: int)

  /** The BeforeCreate hook of Items: it draws a new id when the id is NOT
      nil (the test is inverted), and keeps a nil id. */
  function BeforeCreate(id: Uuid, freshId: Uuid): (r: Uuid)
    ensures id != NilId ==> r == freshId
    ensures id == NilId ==> r == NilId
  {
    if id != NilId then freshId else id
  }

  function ToItemGet(i: Item, property: Property, images: seq<string>): ItemGet
  {
    ItemGet(i.id, i.data.title, i.data.content, i.data.price, i.data.quantity, i.position,
            i.language, i.data.itemUrl, i.data.category, i.data.status, property,
            i.data.ownerId, images)
  }
}

/** Blog records and DTOs (modules/blog/models). */
module BlogModels {
  import opened Common
  import opened Crud

  datatype BlogData = BlogData(title: string, content: string, status: bool, ownerId: Uuid)

  type Blog = Row<BlogData>

  /** BlogUpdate: plain values, so an omitted field reads as "", 0 or false. */
  datatype BlogUpdate = BlogUpdate(title: string, content: string, position: int, status: bool)

  datatype BlogGet = BlogGet(
    id: Uuid, title: string, content: string, position: int, language: string,
    status: bool, ownerId: Uuid, images: seq<string>)

  datatype BlogGetAll = BlogGetAll(data: seq<BlogGet>, count: int)

  /** The repository fills every BlogGet field except Language, which stays "". */
  function ToBlogGet(b: Blog, images: seq<string>): (g: BlogGet)
    ensures g.language == ""
  {
    BlogGet(b.id, b.data.title, b.data.content, b.position, "", b.data.status, b.data.ownerId, images)
  }
}

/** Calendar records and DTOs (modules/calendar/models). Times are minutes
    counted from Go's zero time.Time, so the zero time is 0. */
module CalendarModels {
  import opened Common

  const ZeroTime: int := 0

  /** A Calendar row; the CalendarEvent response has the same fields. */
  datatype Event = Event(
    id: Uuid, title: string, description: string, startDate: int, endDate: int,
    reminderOffset: int, allDay: bool, color: string, workingDay: bool, sickDay: bool,
    vacation: bool, weekend: bool, sendEmail: bool, reminderSent: bool, userId: Uuid)

  datatype EventUpdate = EventUpdate(
    title: string, description: string, startDate: int, endDate: int,
    reminderOffset: int, allDay: bool, color: string, workingDay: bool, sickDay: bool,
    vacation: bool, weekend: bool, sendMail: bool, reminderSent: bool)

  /** The instant the reminder is due: StartDate minus ReminderOffset minutes. */
  function ReminderTime(e: Event): int
  {
    e.startDate - e.reminderOffset
  }
}

/** User records and DTOs (modules/user/models). */
module UserModels {
  import opened Common

  datatype User = User(
    id: Uuid, fullName: string, avatar: string, email: string, password: string,
    isActive: bool, isAdmin: bool, isSuperUser: bool, acronym: string,
    lastSeenAt: Option<int>)

  /** UserResponse: a user without the password. */
  datatype UserResponse = UserResponse(
    id: Uuid, fullName: string, avatar: string, email: string, isActive: bool,
    isSuperUser: bool, isAdmin: bool, acronym: string, lastSeenAt: Option<int>)

  datatype UpdateUser = UpdateUser(fullName: string, email: string, avatar: string, acronym: string)

  datatype UpdatePassword = UpdatePassword(currentPassword: string, newPassword: string)

  /** The BeforeCreate hook of User: a nil id gets a fresh one. */
  function BeforeCreate(id: Uuid, freshId: Uuid): (r: Uuid)
    requires freshId != NilId
    ensures r != NilId
    ensures id != NilId ==> r == id
  {
    if id == NilId then freshId else id
  }

  function FindUser(users: seq<User>, id: Uuid): (r: Option<User>)
    ensures r.None? <==> forall i :: 0 <= i < |users| ==> users[i].id != id
    ensures r.Some? ==> r.value in users && r.value.id == id
  {
    if |users| == 0 then None
    else if users[0].id == id then Some(users[0])
    else FindUser(users[1..], id)
  }
}

/** The database handle: one field per table the core reads or writes. */
module Database {
  import opened Common
  import opened Crud
  import opened Entities
  import opened MediaModels
  import opened PropertyModels
  import opened ItemModels
  import opened BlogModels
  import opened CalendarModels
  import opened UserModels

  class Db {
    var items: seq<Item>
    var blogs: seq<Blog>
    var media: seq<Media>
    var properties: seq<Property>
    var events: seq<Event>
    var users: seq<User>
    var loginAttempts: map<AttemptKey, LoginAttempt>

    constructor ()
      ensures items == [] && blogs == [] && media == [] && properties == []
      ensures events == [] && users == [] && loginAttempts == map[]
    {
      items, blogs, media, properties := [], [], [], [];
      events, users, loginAttempts := [], [], map[];
    }
  }
}
