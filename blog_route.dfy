/** The posts screen (frontend/src/routes/_layout/blog.tsx): seven posts per
    page, a gallery per row and a single placeholder row when there are no
    posts. */
module BlogRoute {
  import opened Common
  import opened ClientModels
  import opened Pagination

  const PostsPerPage: nat := 7

  function PostsQuery(page: int): (q: PageQuery)
    ensures q.limit == PostsPerPage
    ensures page == 1 ==> q.skip == 0
    ensures q.skip + PostsPerPage == page * PostsPerPage
  {
    QueryFor(page, PostsPerPage)
  }

  /** `hasNextPage`: fresh data whose `Data` is an array of seven posts. */
  predicate PostsHaveNextPage(isPlaceholder: bool, data: Option<seq<PostPublic>>)
  {
    HasNextPage(isPlaceholder, if data.Some? then Some(|data.value|) else None, PostsPerPage)
  }

  /** The images handed to the gallery: an array as it is, a non-empty
      string as the only image, nothing otherwise. */
  function GalleryImages(f: ImagesField): (r: seq<string>)
    ensures f.ImageArray? ==> r == f.urls
    ensures !f.ImageArray? ==> |r| <= 1
    ensures !f.ImageArray? ==> (r == [] <==> f.NoImages? || f.text == "")
    ensures f.ImageText? && f.text != "" ==> r == [f.text]
  {
    match f
    case ImageArray(urls) => urls
    case ImageText(text) => if text != "" then [text] else []
    case NoImages => []
  }

  /** A body row: a post, or the "no posts" row. */
  datatype PostRow = PostRowOf(post: PostPublic) | NoPostsRow

  /** The table body once loaded: one row per post, or the single "no posts"
      row when `Data` is missing or empty. */
  function PostRows(data: Option<seq<PostPublic>>): (rows: seq<PostRow>)
    ensures data.None? || data.value == [] ==> rows == [NoPostsRow]
    ensures data.Some? && data.value != [] ==>
              |rows| == |data.value| && forall i :: 0 <= i < |rows| ==> rows[i] == PostRowOf(data.value[i])
    ensures NoPostsRow in rows <==> data.None? || data.value == []
  {
    if data.None? || data.value == [] then [NoPostsRow]
    else seq(|data.value|, i requires 0 <= i < |data.value| => PostRowOf(data.value[i]))
  }

  /** The server ignores `skip` and `limit` and returns every post the user
      may list, so every page shows the same list: with exactly seven posts
      Next is offered on every page, and with any other number on none. */
  lemma SameListOnEveryPage(served: seq<PostPublic>, page: int)
    ensures var hasNext := PostsHaveNextPage(false, Some(served));
      hasNext <==> |served| == PostsPerPage
    ensures |served| == PostsPerPage ==>
              Requested(page, PostsHaveNextPage(false, Some(served)), HasPreviousPage(page), Next) == Some(page + 1)
  {
  }
}
