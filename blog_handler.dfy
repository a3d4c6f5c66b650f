/** The blog HTTP handlers (backend/modules/blog/handlers/blog_hundler.go).
    Only the owner may read a post -- superusers included; delete needs the
    owner to be a superuser. Outcomes are status codes. */
module BlogHandler {
  import opened Common
  import opened Crud
  import opened MediaModels
  import opened BlogModels
  import opened UserModels
  import opened Database
  import opened BlogRepository
  import opened RequestUser

  /** The post with its owner set to the requester. */
  function OwnedBy(b: Blog, owner: Uuid): (r: Blog)
    ensures r.data.ownerId == owner
    ensures r.id == b.id && r.position == b.position && r.language == b.language
    ensures r.data.(ownerId := b.data.ownerId) == b.data
  {
    b.(data := b.data.(ownerId := owner))
  }

  /** CreateBlogHandler: 401 without a requester id, 400 for a body that does
      not bind, 500 for an empty title, else 201 with the requester as owner. */
  method CreateBlogHandler(db: Db, authId: Option<Uuid>, body: Option<Blog>, essenceId: Uuid, hookId: Uuid)
    returns (status: int)
    requires essenceId != NilId
    modifies db`blogs
    ensures authId.None? ==> status == StatusUnauthorized && db.blogs == old(db.blogs)
    ensures authId.Some? && body.None? ==> status == StatusBadRequest && db.blogs == old(db.blogs)
    ensures authId.Some? && body.Some? && body.value.data.title == "" ==>
              status == StatusInternalServerError && db.blogs == old(db.blogs)
    ensures authId.Some? && body.Some? && body.value.data.title != "" ==>
              status == StatusCreated
              && db.blogs == TableAfterCreate(old(db.blogs), OwnedBy(body.value, authId.value).(id := hookId))
  {
    if authId.None? {
      return StatusUnauthorized;
    }
    if body.None? {
      return StatusBadRequest;
    }
    var r := CreateBlog(db, OwnedBy(body.value, authId.value), essenceId, hookId);
    if r.Err? {
      return StatusInternalServerError;
    }
    status := StatusCreated;
  }

  /** GetAllBlogsHandler: every post the requester may list, with no
      pagination. When the requester cannot be found the status the lookup
      wrote stands. */
  method GetAllBlogsHandler(db: Db, authId: Option<Uuid>) returns (status: int, r: Option<BlogGetAll>)
    ensures CurrentUser(db.users, authId).Failed? ==> status == CurrentUser(db.users, authId).status && r.None?
    ensures CurrentUser(db.users, authId).Found? ==>
              var user := CurrentUser(db.users, authId).user;
              var l := BlogList(db.blogs, user.id, user.isSuperUser);
              status == StatusOK && r.Some? && r.value.count == |l| && |r.value.data| == |l|
              && forall k :: 0 <= k < |l| ==> r.value.data[k].id == l[k].id
  {
    var user := CurrentUser(db.users, authId);
    if user.Failed? {
      return user.status, None;
    }
    var flag := IsSuperUserOf(db.users, user.user.id);
    CurrentUserFlagAgrees(db.users, authId);
    var isSuperUser := if flag.Ok? then flag.value else false;
    var blogs := GetAllBlogs(db, user.user.id, isSuperUser);
    status, r := StatusOK, Some(blogs);
  }

  /** GetBlogByIdHandler: 401 without a requester id, 400 for a bad id, 500
      for a missing post, 401 for anyone but the owner. */
  function GetBlogStatus(blogs: seq<Blog>, media: seq<Media>, authId: Option<Uuid>, target: PathId): (status: int)
    ensures authId.None? ==> status == StatusUnauthorized
    ensures authId.Some? && !target.ValidId? ==> status == StatusBadRequest
    ensures status == StatusOK <==>
              authId.Some? && target.ValidId? && BlogView(blogs, media, target.id).Ok?
              && BlogView(blogs, media, target.id).value.ownerId == authId.value
  {
    match CurrentUserId(authId)
    case Err(_) => StatusUnauthorized
    case Ok(userId) =>
      if !target.ValidId? then StatusBadRequest
      else
        var view := BlogView(blogs, media, target.id);
        if view.Err? then StatusInternalServerError
        else if view.value.ownerId != userId then StatusUnauthorized
        else StatusOK
  }

  /** Being a superuser does not open another user's post. */
  lemma SuperUserCannotReadOthersPost(blogs: seq<Blog>, media: seq<Media>, user: User, b: Blog)
    requires user.isSuperUser && b in blogs && b.data.ownerId != user.id
    requires FindById(blogs, b.id) == Some(b)
    ensures GetBlogStatus(blogs, media, Some(user.id), ValidId(b.id)) == StatusUnauthorized
  {
  }

  // ---- UpdateBlogByIdHandler ----

  datatype UpdateOutcome = UpdateOutcome(status: int, blogs: seq<Blog>)

  /** The update is saved before the ownership check, which only decides
      between 200 and 401. */
  function UpdateBlogOutcome(blogs: seq<Blog>, media: seq<Media>, users: seq<User>, target: PathId,
                             authId: Option<Uuid>, update: Option<BlogUpdate>): UpdateOutcome
  {
    if !target.ValidId? then UpdateOutcome(StatusBadRequest, blogs)
    else
      match CurrentUser(users, authId)
      case Failed(s, _) => UpdateOutcome(s, blogs)
      case Found(user) =>
        if update.None? then UpdateOutcome(StatusBadRequest, blogs)
        else
          match FindById(blogs, target.id)
          case None => UpdateOutcome(StatusInternalServerError, blogs)
          case Some(b) =>
            var saved := TableAfterUpdate(blogs, b, update.value);
            var view := BlogView(saved, media, target.id);
            if view.Err? then UpdateOutcome(StatusInternalServerError, saved)
            else if view.value.ownerId != user.id then UpdateOutcome(StatusUnauthorized, saved)
            else UpdateOutcome(StatusOK, saved)
  }

  method UpdateBlogByIdHandler(db: Db, target: PathId, authId: Option<Uuid>, update: Option<BlogUpdate>)
    returns (status: int)
    modifies db`blogs
    ensures UpdateOutcome(status, db.blogs) ==
            UpdateBlogOutcome(old(db.blogs), db.media, db.users, target, authId, update)
  {
    if !target.ValidId? {
      return StatusBadRequest;
    }
    var user := CurrentUser(db.users, authId);
    if user.Failed? {
      return user.status;
    }
    if update.None? {
      return StatusBadRequest;
    }
    var b := UpdateBlogById(db, target.id, update.value);
    if b.Err? {
      return StatusInternalServerError;
    }
    if b.value.ownerId != user.user.id {
      return StatusUnauthorized;
    }
    status := StatusOK;
  }

  /** Someone else's update is saved and answered with 401. */
  lemma {:induction false} RefusedBlogUpdateStaysSaved(blogs: seq<Blog>, media: seq<Media>, users: seq<User>, id: Uuid,
                                    authId: Option<Uuid>, u: BlogUpdate)
    requires CurrentUser(users, authId).Found?
    requires FindById(blogs, id).Some?
    requires FindById(blogs, id).value.data.ownerId != CurrentUser(users, authId).user.id
    ensures var b := FindById(blogs, id).value;
      var o := UpdateBlogOutcome(blogs, media, users, ValidId(id), authId, Some(u));
      && o.status == StatusUnauthorized
      && exists k :: 0 <= k < |o.blogs| && o.blogs[k] == MergeBlog(b, u)
  {
    var b := FindById(blogs, id).value;
    var saved := TableAfterUpdate(blogs, b, u);
    var shifted := if u.position != b.position then Shifted(blogs, u.position, b.language) else blogs;
    var k :| 0 <= k < |blogs| && blogs[k] == b;
    assert shifted[k].id == id;
    FindSavedRow(shifted, k, MergeBlog(b, u));
    assert saved[k] == MergeBlog(b, u);
    var view := BlogView(saved, media, id);
    assert view.Ok? && view.value.ownerId == b.data.ownerId;
    assert UpdateBlogOutcome(blogs, media, users, ValidId(id), authId, Some(u))
      == UpdateOutcome(StatusUnauthorized, saved);
  }

  // ---- DeleteBlogByIdHandler ----

  /** The refusals of DeleteBlogByIdHandler, in its order. None: the delete
      runs, which needs the requester to own the post and be a superuser. */
  function DeleteBlogGate(blogs: seq<Blog>, media: seq<Media>, users: seq<User>,
                          authId: Option<Uuid>, target: PathId): (r: Option<int>)
    ensures r.None? <==>
              && CurrentUser(users, authId).Found? && target.ValidId?
              && BlogView(blogs, media, target.id).Ok?
              && BlogView(blogs, media, target.id).value.ownerId == CurrentUser(users, authId).user.id
              && CurrentUser(users, authId).user.isSuperUser
    ensures CurrentUser(users, authId).Failed? ==> r == Some(CurrentUser(users, authId).status)
  {
    match CurrentUser(users, authId)
    case Failed(s, _) => Some(s)
    case Found(user) =>
      if !target.ValidId? then Some(StatusBadRequest)
      else
        var view := BlogView(blogs, media, target.id);
        if view.Err? then Some(StatusInternalServerError)
        else if view.value.ownerId != user.id || !user.isSuperUser then Some(StatusUnauthorized)
        else None
  }

  method DeleteBlogByIdHandler(db: Db, authId: Option<Uuid>, target: PathId, bucketError: Option<string>)
    returns (status: int)
    modifies db`blogs, db`media
    ensures var gate := DeleteBlogGate(old(db.blogs), old(db.media), db.users, authId, target);
      gate.Some? ==> status == gate.value && db.blogs == old(db.blogs) && db.media == old(db.media)
    ensures var gate := DeleteBlogGate(old(db.blogs), old(db.media), db.users, authId, target);
      gate.None? ==>
        && db.blogs == DeleteById(old(db.blogs), target.id)
        && db.media == (if status == StatusOK then Filter(old(db.media), (m: Media) => m.contentId != target.id) else old(db.media))
        && (status == StatusOK || status == StatusInternalServerError)
        && (status == StatusOK <==> bucketError.None? || Filter(old(db.media), (m: Media) => m.contentId == target.id) == [])
  {
    var user := CurrentUser(db.users, authId);
    if user.Failed? {
      return user.status;
    }
    if !target.ValidId? {
      return StatusBadRequest;
    }
    var b := GetBlogById(db, target.id);
    if b.Err? {
      return StatusInternalServerError;
    }
    if b.value.ownerId != user.user.id || !user.user.isSuperUser {
      return StatusUnauthorized;
    }
    var err := DeleteBlogById(db, target.id, bucketError);
    if err.Some? {
      return StatusInternalServerError;
    }
    status := StatusOK;
  }
}
