/** The single-post page (pages/ShowPost.jsx): rendering editor blocks, the ids of the reader's
    saved posts, and the like button with its optimistic update and rollback. */
module ShowPost {
  import opened Base
  import UseApi

  /** An editor block: its type and, for headers, the `level` field if present. */
  datatype Block = Block(kind: string, level: Option<int>)

  /** What `renderBlock` produces for a block. */
  datatype Rendered = Heading(level: int) | Paragraph | Image | Code | Quote | Embed | Nothing

  /** `renderBlock`: headers become `h<level>` with a missing or zero level read as 1; unknown
      block types render nothing. */
  function RenderBlock(b: Block): (r: Rendered)
    ensures b.kind == "header" ==> r == Heading(if b.level.Some? && b.level.value != 0 then b.level.value else 1)
    ensures r == Nothing <==> b.kind !in {"header", "paragraph", "image", "code", "quote", "embed"}
  {
    match b.kind
    case "header" => Heading(if b.level.Some? && b.level.value != 0 then b.level.value else 1)
    case "paragraph" => Paragraph
    case "image" => Image
    case "code" => Code
    case "quote" => Quote
    case "embed" => Embed
    case _ => Nothing
  }

  /** A saved post as the saved-posts endpoint lists it (only its id matters here). */
  datatype SavedPost = SavedPost(id: int)

  /** `new Set(res.data.map(post => post.id))`. */
  function SavedIds(posts: seq<SavedPost>): (r: set<int>)
    ensures forall id :: id in r <==> exists i :: 0 <= i < |posts| && posts[i].id == id
    ensures |r| <= |posts|
  {
    if posts == [] then {} else {posts[0].id} + SavedIds(posts[1..])
  }

  /** The word after the like count: singular exactly at one. */
  function LikeLabel(likes: int): (r: string)
    ensures r == "Like" <==> likes == 1
    ensures r == "Like" || r == "Likes"
  {
    if likes == 1 then "Like" else "Likes"
  }

  /** The body of a successful like response. */
  datatype LikeData = LikeData(isLiked: bool, likes: int)

  const LoginWarning := "You need to be logged in to like a post."
  const GenericError := "An error occurred while processing your request."

  class Page {
    var isLiked: bool
    var likes: int
    var savedPostIds: set<int>
    var toasts: seq<string>

    constructor ()
      ensures !isLiked && likes == 0 && savedPostIds == {} && toasts == []
    {
      isLiked := false;
      likes := 0;
      savedPostIds := {};
      toasts := [];
    }

    /** The saved-ids effect: only a signed-in reader asks, and a failure keeps the old set. */
    method FetchSavedIds(isAuthenticated: bool, reply: Option<seq<SavedPost>>)
      modifies this
      ensures isAuthenticated && reply.Some? ==> savedPostIds == SavedIds(reply.value)
      ensures !(isAuthenticated && reply.Some?) ==> savedPostIds == old(savedPostIds)
      ensures isLiked == old(isLiked) && likes == old(likes) && toasts == old(toasts)
    {
      if isAuthenticated {
        if reply.Some? {
          savedPostIds := SavedIds(reply.value);
        }
      }
    }

    /** `handleLikeToggle`. The optimistic values are shown while the request is out; then a
        200 with a body replaces them with the server's, another settled status leaves them, and
        a rejected request restores the values from before the click. `status` is the response
        status, if there was a response at all. */
    method LikeToggle(status: Option<int>, data: Option<LikeData>) returns (optimisticLiked: bool, optimisticLikes: int)
      modifies this
      ensures optimisticLiked == !old(isLiked)
      ensures optimisticLikes == (if old(isLiked) then old(likes) - 1 else old(likes) + 1)
      ensures status.Some? && UseApi.Resolves(status.value) ==> toasts == old(toasts)
      ensures status == Some(200) && data.Some? ==> isLiked == data.value.isLiked && likes == data.value.likes
      ensures status.Some? && UseApi.Resolves(status.value) && !(status == Some(200) && data.Some?) ==>
        isLiked == optimisticLiked && likes == optimisticLikes
      ensures status.None? || !UseApi.Resolves(status.value) ==>
        isLiked == old(isLiked) && likes == old(likes) &&
        toasts == old(toasts) + [if status == Some(401) then LoginWarning else GenericError]
      ensures savedPostIds == old(savedPostIds)
    {
      var wasLiked := isLiked;
      var hadLikes := likes;
      optimisticLiked := !isLiked;
      optimisticLikes := if isLiked then likes - 1 else likes + 1;
      isLiked := optimisticLiked;
      likes := optimisticLikes;
      if status.Some? && UseApi.Resolves(status.value) {
        if status.value == 200 && data.Some? {
          isLiked := data.value.isLiked;
          likes := data.value.likes;
        }
      } else {
        isLiked := wasLiked;
        likes := hadLikes;
        if status == Some(401) {
          toasts := toasts + [LoginWarning];
        } else {
          toasts := toasts + [GenericError];
        }
      }
    }
  }
}
