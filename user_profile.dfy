/** The signed-in author's profile page (pages/UserProfile.jsx): searching their posts by title
    or description, showing them ten at a time, and deleting one. */
module UserProfile {
  import opened Base
  import opened Text
  import Seqs
  import UseApi

  const PageSize := 10

  /** A post as the profile endpoint lists it; fields the serializer does not send are `None`. */
  datatype Post = Post(id: int, title: Option<string>, description: Option<string>, content: Option<string>)

  /** `(x || "")`. */
  function OrEmpty(s: Option<string>): string
  {
    if s.Some? then s.value else []
  }

  /** The search test of the filter effect. */
  predicate Matches(p: Post, text: string)
  {
    ContainsIgnoreCase(OrEmpty(p.title), text) || ContainsIgnoreCase(OrEmpty(p.description), text)
  }

  /** The filter effect's list: the posts that match, in their order. */
  function SearchFilter(posts: seq<Post>, text: string): (r: seq<Post>)
    ensures |r| <= |posts|
  {
    Seqs.Filter(posts, p => Matches(p, text))
  }

  lemma SearchFilterMembership(posts: seq<Post>, text: string, p: Post)
    ensures p in SearchFilter(posts, text) <==> p in posts && Matches(p, text)
  {
    Seqs.FilterMembership(posts, q => Matches(q, text), p);
  }

  /** An empty search keeps every post. */
  lemma EmptySearchKeepsAll(posts: seq<Post>)
    ensures SearchFilter(posts, []) == posts
  {
    forall i | 0 <= i < |posts|
      ensures Matches(posts[i], [])
    {
      ContainsEmpty(ToLower(OrEmpty(posts[i].title)));
    }
    Seqs.FilterAllPass(posts, p => Matches(p, []));
  }

  /** `posts.filter(p => p.id !== postId)`. */
  function Without(posts: seq<Post>, id: int): (r: seq<Post>)
    ensures forall p :: p in r <==> p in posts && p.id != id
  {
    var r := Seqs.Filter(posts, (p: Post) => p.id != id);
    forall p ensures p in r <==> p in posts && p.id != id {
      Seqs.FilterMembership(posts, (q: Post) => q.id != id, p);
    }
    r
  }

  /** The re-filter of the 404 branch, which reads `title` and `content` directly: `None` when
      it throws on a post with no title, or with no content whose title does not match. */
  function RefilterAfterDelete(posts: seq<Post>, text: string): (r: Option<seq<Post>>)
    ensures r.Some? ==> forall p :: p in r.value ==> p in posts
  {
    if posts == [] then Some([])
    else
      var p := posts[0];
      if p.title.None? then None
      else
        var keep := ContainsIgnoreCase(p.title.value, text) ||
                    (p.content.Some? && ContainsIgnoreCase(p.content.value, text));
        if !keep && p.content.None? then None
        else match RefilterAfterDelete(posts[1..], text)
          case None => None
          case Some(rest) => Some((if keep then [p] else []) + rest)
  }

  /** What the profile request gave back: a rejected request, or the author's posts (absent
      when the response has no `posts`). */
  datatype ProfileReply = ProfileFailed | ProfileLoaded(posts: Option<seq<Post>>)

  const LoadFailed := "Failed to load user profile."
  const Deleted := "Post deleted successfully."
  const DeleteFailed := "Failed to delete post. Please try again."

  class Profile {
    /** `user.posts`, once the profile has loaded with a `posts` list. */
    var posts: Option<seq<Post>>
    var searchText: string
    var postsToShow: int
    var filtered: seq<Post>
    var displayed: seq<Post>
    var hasMore: bool
    var loading: bool
    var toasts: seq<string>
    var deleteRequests: seq<int>

    /** After the filter effect has run: the filtered list is the search result, the displayed
        list its first `postsToShow`, and `hasMore` says whether anything was cut off. */
    predicate Valid()
      reads this
    {
      && postsToShow >= PageSize
      && (posts.Some? ==> filtered == SearchFilter(posts.value, searchText))
      && displayed == Seqs.Take(filtered, postsToShow)
      && hasMore == (|filtered| > postsToShow)
    }

    constructor ()
      ensures Valid() && posts.None? && searchText == [] && postsToShow == PageSize
      ensures filtered == [] && displayed == [] && !hasMore && loading && toasts == [] && deleteRequests == []
    {
      posts := None;
      searchText := [];
      postsToShow := PageSize;
      filtered := [];
      displayed := [];
      hasMore := false;
      loading := true;
      toasts := [];
      deleteRequests := [];
    }

    /** The effect over `searchText`, `user.posts` and `postsToShow`. */
    method FilterEffect()
      requires postsToShow >= PageSize
      requires posts.None? ==> displayed == Seqs.Take(filtered, postsToShow) && hasMore == (|filtered| > postsToShow)
      modifies this
      ensures Valid()
      ensures posts == old(posts) && searchText == old(searchText) && postsToShow == old(postsToShow)
      ensures posts.None? ==> filtered == old(filtered) && displayed == old(displayed) && hasMore == old(hasMore)
      ensures loading == old(loading) && toasts == old(toasts) && deleteRequests == old(deleteRequests)
    {
      if posts.Some? {
        filtered := SearchFilter(posts.value, searchText);
        displayed := Seqs.Take(filtered, postsToShow);
        hasMore := |filtered| > postsToShow;
      }
    }

    /** `fetchUserProfile` followed by the filter effect it triggers. */
    method Fetch(reply: ProfileReply)
      requires Valid()
      modifies this
      ensures Valid() && !loading
      ensures reply.ProfileLoaded? ==> posts == reply.posts
      ensures reply.ProfileLoaded? && reply.posts.None? ==> filtered == [] && displayed == [] && !hasMore
      ensures reply.ProfileLoaded? && reply.posts.Some? && searchText == [] ==> filtered == reply.posts.value
      ensures reply.ProfileFailed? ==>
        posts == old(posts) && filtered == old(filtered) && displayed == old(displayed) && toasts == old(toasts) + [LoadFailed]
      ensures searchText == old(searchText) && postsToShow == old(postsToShow) && deleteRequests == old(deleteRequests)
    {
      match reply {
        case ProfileFailed =>
          toasts := toasts + [LoadFailed];
        case ProfileLoaded(ps) =>
          posts := ps;
          var list := if ps.Some? then ps.value else [];
          filtered := list;
          displayed := Seqs.Take(list, postsToShow);
          hasMore := |list| > postsToShow;
          if ps.Some? && searchText == [] {
            EmptySearchKeepsAll(ps.value);
          }
          FilterEffect();
      }
      loading := false;
    }

    /** `handleSearchChange`: a new search starts again from the first ten. */
    method SearchChange(text: string)
      requires Valid()
      modifies this
      ensures Valid()
      ensures searchText == text && postsToShow == PageSize
      ensures posts.Some? ==> displayed == Seqs.Take(SearchFilter(posts.value, text), PageSize)
      ensures posts == old(posts) && loading == old(loading) && toasts == old(toasts) && deleteRequests == old(deleteRequests)
    {
      searchText := text;
      postsToShow := PageSize;
      if posts.None? {
        displayed := Seqs.Take(filtered, postsToShow);
        hasMore := |filtered| > postsToShow;
      }
      FilterEffect();
    }

    /** `handleShowMore`: ten more of the same filtered list. */
    method ShowMore()
      requires Valid()
      modifies this
      ensures Valid()
      ensures postsToShow == old(postsToShow) + PageSize
      ensures filtered == old(filtered)
      ensures displayed == Seqs.Take(old(filtered), old(postsToShow) + PageSize)
      ensures hasMore == (|old(filtered)| > old(postsToShow) + PageSize)
      ensures posts == old(posts) && searchText == old(searchText)
      ensures loading == old(loading) && toasts == old(toasts) && deleteRequests == old(deleteRequests)
    {
      var next := postsToShow + PageSize;
      postsToShow := next;
      displayed := Seqs.Take(filtered, next);
      hasMore := |filtered| > next;
      FilterEffect();
    }

    /** `handleDeletePost`: after the confirmation the delete is sent. A 2xx settles the
        request, but the local removal is guarded by `status === 404`, which a settled request
        never has; any other status rejects and shows the failure toast. The page never
        changes its lists. */
    method DeletePost(postId: int, confirmed: bool, status: Option<int>)
      requires Valid()
      modifies this
      ensures Valid()
      ensures posts == PostsAfterDeleteAsWritten(old(posts), postId, confirmed, status)
      ensures posts == old(posts) && filtered == old(filtered) && displayed == old(displayed)
      ensures hasMore == old(hasMore) && postsToShow == old(postsToShow) && searchText == old(searchText)
      ensures !confirmed ==> deleteRequests == old(deleteRequests) && toasts == old(toasts)
      ensures confirmed ==> deleteRequests == old(deleteRequests) + [postId]
      ensures confirmed && (status.None? || !UseApi.Resolves(status.value)) ==> toasts == old(toasts) + [DeleteFailed]
      ensures confirmed && status.Some? && UseApi.Resolves(status.value) ==> toasts == old(toasts)
    {
      if !confirmed {
        return;
      }
      deleteRequests := deleteRequests + [postId];
      if status.Some? && UseApi.Resolves(status.value) {
        // The `status === 404` test cannot hold for a settled request.
      } else {
        toasts := toasts + [DeleteFailed];
      }
    }

    /** What the `status === 404` branch would do: drop the post from `user.posts`, re-filter on
        title and content, drop it from the displayed list, and confirm; when the re-filter
        throws, the failure toast shows instead. The filter effect then runs again because
        `user.posts` changed. */
    method Delete404Branch(postId: int)
      requires Valid() && posts.Some?
      modifies this
      ensures Valid()
      ensures posts == Some(Without(old(posts).value, postId))
      ensures forall p :: p in posts.value ==> p.id != postId
      ensures forall p :: p in displayed ==> p.id != postId
      ensures RefilterAfterDelete(posts.value, old(searchText)).Some? ==> toasts == old(toasts) + [Deleted]
      ensures RefilterAfterDelete(posts.value, old(searchText)).None? ==> toasts == old(toasts) + [DeleteFailed]
      ensures searchText == old(searchText) && postsToShow == old(postsToShow) && deleteRequests == old(deleteRequests)
    {
      var updated := Without(posts.value, postId);
      posts := Some(updated);
      var refiltered := RefilterAfterDelete(updated, searchText);
      if refiltered.Some? {
        filtered := refiltered.value;
        displayed := Without(displayed, postId);
        toasts := toasts + [Deleted];
      } else {
        toasts := toasts + [DeleteFailed];
      }
      FilterEffect();
      ShownPostsAvoid(updated, searchText, postsToShow, postId);
    }

    /** The delete as evidently intended: a settled delete removes the post from every list,
        keeping the search and the page size. */
    method DeletePostIntended(postId: int, confirmed: bool, status: Option<int>)
      requires Valid()
      modifies this
      ensures Valid()
      ensures confirmed && status.Some? && UseApi.Resolves(status.value) && old(posts).Some? ==>
        posts == Some(Without(old(posts).value, postId)) &&
        (forall p :: p in displayed ==> p.id != postId) && toasts == old(toasts) + [Deleted]
      ensures confirmed && (status.None? || !UseApi.Resolves(status.value)) ==>
        posts == old(posts) && displayed == old(displayed) && toasts == old(toasts) + [DeleteFailed]
      ensures searchText == old(searchText) && postsToShow == old(postsToShow)
    {
      if !confirmed {
        return;
      }
      deleteRequests := deleteRequests + [postId];
      if status.Some? && UseApi.Resolves(status.value) {
        if posts.Some? {
          var updated := Without(posts.value, postId);
          posts := Some(updated);
          FilterEffect();
          ShownPostsAvoid(updated, searchText, postsToShow, postId);
        }
        toasts := toasts + [Deleted];
      } else {
        toasts := toasts + [DeleteFailed];
      }
    }
  }

  /** A post missing from the list is missing from any page of its search result. */
  lemma ShownPostsAvoid(posts: seq<Post>, text: string, n: int, id: int)
    requires forall p :: p in posts ==> p.id != id
    ensures forall p :: p in Seqs.Take(SearchFilter(posts, text), n) ==> p.id != id
  {
    var f := SearchFilter(posts, text);
    forall p | p in Seqs.Take(f, n)
      ensures p.id != id
    {
      var i :| 0 <= i < |Seqs.Take(f, n)| && Seqs.Take(f, n)[i] == p;
      assert p in f;
    }
  }

  /** The displayed posts are always the start of the filtered list, at most `postsToShow` long,
      and more exist exactly when some were cut off. */
  lemma DisplayedIsPrefix(filtered: seq<Post>, displayed: seq<Post>, postsToShow: int, hasMore: bool)
    requires postsToShow >= PageSize
    requires displayed == Seqs.Take(filtered, postsToShow) && hasMore == (|filtered| > postsToShow)
    ensures |displayed| <= postsToShow && displayed == filtered[..|displayed|]
    ensures hasMore <==> |displayed| < |filtered|
  {
  }

  /** The profile's posts after `handleDeletePost` as written: the removal sits in the branch
      for a settled request whose status is 404, so no outcome of the delete changes them. */
  function PostsAfterDeleteAsWritten(posts: Option<seq<Post>>, postId: int, confirmed: bool, status: Option<int>): (r: Option<seq<Post>>)
    ensures r == posts
  {
    if confirmed && status.Some? && UseApi.Resolves(status.value) && status.value == 404 then
      match posts
      case Some(ps) => Some(Without(ps, postId))
      case None => posts
    else posts
  }

  /** As written, the author's successful delete (answered 200) leaves the deleted post in the
      profile's posts, where the intended removal would have dropped it. */
  lemma AsWrittenDeleteKeepsPost(posts: seq<Post>, i: nat)
    requires i < |posts|
    ensures var kept := PostsAfterDeleteAsWritten(Some(posts), posts[i].id, true, Some(200));
            kept == Some(posts) && posts[i] in kept.value
    ensures posts[i] !in Without(posts, posts[i].id)
  {
  }
}
