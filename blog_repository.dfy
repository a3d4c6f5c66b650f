/** The blog repository (modules/blog/repository/blog_repository.go): posts
    share the positional helpers with items, but the listing has no language
    filter and no pagination, and the update DTO has plain fields. */
module BlogRepository {
  import opened Common
  import opened Crud
  import opened MediaModels
  import opened BlogModels
  import opened Database

  /** CreateBlog reuses the item repository's message. */
  const EmptyTitleError: string := "the product title cannot be empty"

  // ---- CreateBlog ----

  /** The blogs table after a successful CreateBlog of `created`. */
  function TableAfterCreate(blogs: seq<Blog>, created: Blog): seq<Blog>
  {
    (if PositionTaken(blogs, created.position)
     then Shifted(blogs, created.position, created.language) else blogs) + [created]
  }

  /** CreateBlog: rejects an empty title; shifts the post's language up from
      its position when that position is taken (in any language); stores the
      post under the id chosen by the hook. */
  method CreateBlog(db: Db, b: Blog, essenceId: Uuid, hookId: Uuid) returns (r: Result<Blog>)
    requires essenceId != NilId
    modifies db`blogs
    ensures b.data.title == "" ==> r == Err(EmptyTitleError) && db.blogs == old(db.blogs)
    ensures b.data.title != "" ==>
              r == Ok(b.(id := hookId)) && db.blogs == TableAfterCreate(old(db.blogs), r.value)
  {
    if b.data.title == "" {
      return Err(EmptyTitleError);
    }
    if PositionTaken(db.blogs, b.position) {
      db.blogs := ShiftPositions(db.blogs, b.position, b.language);
    }
    var id := CreateEssenceId(b.id, essenceId);
    // The Blog BeforeCreate hook then overwrites whatever id was set.
    id := hookId;
    var created := b.(id := id);
    db.blogs := db.blogs + [created];
    r := Ok(created);
  }

  /** The created post is the last row and the only row of its language at
      its position; the posts of other languages are untouched. */
  lemma {:induction false} CreatedBlogHoldsItsSlot(blogs: seq<Blog>, created: Blog)
    ensures var t := TableAfterCreate(blogs, created);
      && t[|t| - 1] == created
      && (forall k :: 0 <= k < |t| - 1 && t[k].language == created.language ==>
            t[k].position != created.position)
      && (forall k :: 0 <= k < |blogs| && blogs[k].language != created.language ==> t[k] == blogs[k])
  {
    var t := TableAfterCreate(blogs, created);
    if PositionTaken(blogs, created.position) {
      var s := Shifted(blogs, created.position, created.language);
      ShiftFreesSlot(blogs, created.position, created.language);
      forall k | 0 <= k < |t| - 1 && t[k].language == created.language
        ensures t[k].position != created.position
      {
        assert t[k] == s[k] && s[k] in s;
      }
    } else {
      forall k | 0 <= k < |t| - 1
        ensures t[k].position != created.position
      {
        assert t[k] == blogs[k];
      }
    }
  }

  // ---- GetBlogById ----

  /** The BlogGet that GetBlogById answers: the post and its media URLs. */
  function BlogView(blogs: seq<Blog>, media: seq<Media>, id: Uuid): (r: Result<BlogGet>)
    ensures r.Ok? <==> exists k :: 0 <= k < |blogs| && blogs[k].id == id
    ensures r.Err? ==> r.msg == RecordNotFound
    ensures r.Ok? ==> r.value.id == id && r.value.language == "" && r.value.images == ImagesOf(media, id)
  {
    match FindById(blogs, id)
    case None => Err(RecordNotFound)
    case Some(blog) =>
      ImagesOfWithContentIn(media, {id}, id);
      Ok(ToBlogGet(blog, ImagesOf(WithContentIn(media, {id}), blog.id)))
  }

  /** GetBlogById: load the post and group its media. */
  method GetBlogById(db: Db, id: Uuid) returns (r: Result<BlogGet>)
    ensures r == BlogView(db.blogs, db.media, id)
  {
    var found := FindById(db.blogs, id);
    if found.None? {
      return Err(RecordNotFound);
    }
    var media := WithContentIn(db.media, {id});
    var mediaMap := GroupMedia(media);
    r := Ok(ToBlogGet(found.value, Lookup(mediaMap, found.value.id)));
  }

  // ---- UpdateBlogById ----

  /** The post after UpdateBlogById's assignments: the position always takes
      the update's value, title and content only when non-empty, the status
      always. */
  function MergeBlog(b: Blog, u: BlogUpdate): (r: Blog)
    ensures r.id == b.id && r.language == b.language && r.data.ownerId == b.data.ownerId
  {
    Row(b.id, u.position, b.language,
        BlogData(NonEmptyOr(u.title, b.data.title), NonEmptyOr(u.content, b.data.content),
                 u.status, b.data.ownerId))
  }

  /** Title and content change only with a non-empty value; position and
      status are always taken from the update, so an omitted position moves
      the post to 0 and an omitted status clears it. */
  lemma MergeBlogFields(b: Blog, u: BlogUpdate)
    ensures var r := MergeBlog(b, u);
      && (u.title != "" ==> r.data.title == u.title) && (u.title == "" ==> r.data.title == b.data.title)
      && (u.content != "" ==> r.data.content == u.content) && (u.content == "" ==> r.data.content == b.data.content)
      && r.position == u.position && r.data.status == u.status
  {
  }

  /** The blogs table after UpdateBlogById of the stored post `b`. */
  function TableAfterUpdate(blogs: seq<Blog>, b: Blog, u: BlogUpdate): seq<Blog>
  {
    var shifted := if u.position != b.position then Shifted(blogs, u.position, b.language) else blogs;
    SaveRow(shifted, MergeBlog(b, u))
  }

  /** UpdateBlogById: load, shift when the position differs, overwrite,
      save, and answer with GetBlogById. */
  method UpdateBlogById(db: Db, id: Uuid, u: BlogUpdate) returns (r: Result<BlogGet>)
    modifies db`blogs
    ensures FindById(old(db.blogs), id).None? ==> r == Err(RecordNotFound) && db.blogs == old(db.blogs)
    ensures FindById(old(db.blogs), id).Some? ==>
              db.blogs == TableAfterUpdate(old(db.blogs), FindById(old(db.blogs), id).value, u)
              && r == BlogView(db.blogs, db.media, id)
  {
    var found := FindById(db.blogs, id);
    if found.None? {
      return Err(RecordNotFound);
    }
    var blog := found.value;
    if u.position != blog.position {
      db.blogs := ShiftPositions(db.blogs, u.position, blog.language);
      blog := blog.(position := u.position);
    }
    var title, content := blog.data.title, blog.data.content;
    if u.title != "" { title := u.title; }
    if u.content != "" { content := u.content; }
    blog := blog.(data := BlogData(title, content, u.status, blog.data.ownerId));
    db.blogs := SaveRow(db.blogs, blog);
    r := GetBlogById(db, id);
  }

  /** After an update that moves a post, no other post of its language holds
      the new position. */
  lemma {:induction false} UpdateMovesBlogIntoFreedSlot(blogs: seq<Blog>, b: Blog, u: BlogUpdate)
    requires u.position != b.position
    ensures forall r :: r in TableAfterUpdate(blogs, b, u) && r.id != b.id && r.language == b.language ==>
              r.position != u.position
  {
    var s := Shifted(blogs, u.position, b.language);
    var t := TableAfterUpdate(blogs, b, u);
    ShiftFreesSlot(blogs, u.position, b.language);
    forall r | r in t && r.id != b.id && r.language == b.language
      ensures r.position != u.position
    {
      var k :| 0 <= k < |t| && t[k] == r;
      assert t[k] == s[k] && s[k] in s;
    }
  }

  /** An update that leaves the position out (0) of a post stored elsewhere
      moves the post to position 0 and shifts its language from 0 upward. */
  lemma OmittedPositionMovesToZero(blogs: seq<Blog>, b: Blog, title: string, content: string, status: bool, k: int)
    requires b.position != 0
    requires 0 <= k < |blogs| && blogs[k].id != b.id && blogs[k].language == b.language && blogs[k].position >= 0
    ensures var t := TableAfterUpdate(blogs, b, BlogUpdate(title, content, 0, status));
      MergeBlog(b, BlogUpdate(title, content, 0, status)).position == 0
      && t[k].position == blogs[k].position + 1
  {
  }

  // ---- DeleteBlogById ----

  /** DeleteBlogById: deletes the post, then each media file in the bucket,
      then the media rows; a bucket failure (`bucketError`) returns before the
      media rows are deleted. */
  method DeleteBlogById(db: Db, id: Uuid, bucketError: Option<string>) returns (err: Option<string>)
    modifies db`blogs, db`media
    ensures db.blogs == DeleteById(old(db.blogs), id)
    ensures var mediaList := Filter(old(db.media), (m: Media) => m.contentId == id);
      if bucketError.Some? && mediaList != []
      then err == bucketError && db.media == old(db.media)
      else err == None && db.media == Filter(old(db.media), (m: Media) => m.contentId != id)
  {
    db.blogs := DeleteById(db.blogs, id);
    var mediaList := Filter(db.media, (m: Media) => m.contentId == id);
    if bucketError.Some? && mediaList != [] {
      return bucketError;
    }
    db.media := Filter(db.media, (m: Media) => m.contentId != id);
    err := None;
  }

  // ---- GetAllBlogs ----

  /** The listing query: every post of the caller (every post for a
      superuser), ordered by position; no language, skip or limit. */
  function BlogList(blogs: seq<Blog>, userId: Uuid, isSuperUser: bool): seq<Blog>
  {
    SortByPosition(Filter(blogs, (b: Blog) => isSuperUser || b.data.ownerId == userId))
  }

  /** The listing holds exactly the visible posts, each as often as stored,
      sorted by position. */
  lemma BlogListContents(blogs: seq<Blog>, userId: Uuid, isSuperUser: bool)
    ensures var l := BlogList(blogs, userId, isSuperUser);
      && SortedByPosition(l)
      && multiset(l) == multiset(Filter(blogs, (b: Blog) => isSuperUser || b.data.ownerId == userId))
      && forall r :: r in l <==> r in blogs && (isSuperUser || r.data.ownerId == userId)
  {
    var visible := Filter(blogs, (b: Blog) => isSuperUser || b.data.ownerId == userId);
    forall r ensures r in BlogList(blogs, userId, isSuperUser) <==> r in visible {
      SortKeepsRows(visible, r);
    }
  }

  /** A superuser's listing holds every stored post. */
  lemma SuperUserSeesAllBlogs(blogs: seq<Blog>, userId: Uuid)
    ensures multiset(BlogList(blogs, userId, true)) == multiset(blogs)
  {
    FilterKeepsAll(blogs, (b: Blog) => true || b.data.ownerId == userId);
  }

  /** The response rows, one per listed post, in order. */
  method BlogResponses(blogs: seq<Blog>, mediaMap: map<Uuid, seq<string>>) returns (data: seq<BlogGet>)
    ensures |data| == |blogs|
    ensures forall j :: 0 <= j < |blogs| ==> data[j] == ToBlogGet(blogs[j], Lookup(mediaMap, blogs[j].id))
  {
    data := [];
    var k := 0;
    while k < |blogs|
      invariant 0 <= k <= |blogs| && |data| == k
      invariant forall j :: 0 <= j < k ==> data[j] == ToBlogGet(blogs[j], Lookup(mediaMap, blogs[j].id))
    {
      data := data + [ToBlogGet(blogs[k], Lookup(mediaMap, blogs[k].id))];
      k := k + 1;
    }
  }

  /** GetAllBlogs: run the listing query, fetch and group the media of the
      listed posts, and build the response; Count is the number of posts. */
  method GetAllBlogs(db: Db, userId: Uuid, isSuperUser: bool) returns (r: BlogGetAll)
    ensures var l := BlogList(db.blogs, userId, isSuperUser);
      && |r.data| == |l| && r.count == |r.data|
      && forall k :: 0 <= k < |l| ==> r.data[k] == ToBlogGet(l[k], ImagesOf(db.media, l[k].id))
  {
    var blogs := BlogList(db.blogs, userId, isSuperUser);
    var blogIds := Ids(blogs);
    var idSet := set x | x in blogIds;
    var media: seq<Media> := [];
    if |blogIds| > 0 {
      media := WithContentIn(db.media, idSet);
    }
    var mediaMap := GroupMedia(media);
    forall k | 0 <= k < |blogs| ensures Lookup(mediaMap, blogs[k].id) == ImagesOf(db.media, blogs[k].id) {
      assert blogs[k].id == blogIds[k];
      ImagesOfWithContentIn(db.media, idSet, blogs[k].id);
    }
    var data := BlogResponses(blogs, mediaMap);
    r := BlogGetAll(data, |blogs|);
  }
}
