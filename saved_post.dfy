/** The saved-posts page (pages/SavedPost.jsx): the sign-in guard, unsaving a post, and how a
    card shows its tags, its author's picture and its counts. */
module SavedPost {
  import opened Base
  import opened Text
  import Seqs
  import UseApi

  const MediaHost := "http://localhost:8000"
  const TagLimit := 3

  /** A saved post card's data. */
  datatype Card = Card(id: int, tags: seq<string>, profileImage: Option<string>)

  /** The tags shown on a card. */
  function ShownTags(tags: seq<string>): (r: seq<string>)
    ensures |r| == if |tags| < TagLimit then |tags| else TagLimit
    ensures r == tags[..|r|]
  {
    if |tags| <= TagLimit then tags else tags[..TagLimit]
  }

  /** The "+N more" label: the number of hidden tags, when there are any. */
  function MoreTags(tags: seq<string>): (r: Option<int>)
    ensures r.Some? <==> |tags| > TagLimit
    ensures r.Some? ==> r.value == |tags| - |ShownTags(tags)|
  {
    if |tags| > TagLimit then Some(|tags| - TagLimit) else None
  }

  /** The author picture's URL: absolute URLs as they are, paths on the media host. */
  function ProfileImageUrl(img: string): (u: string)
    ensures StartsWith(img, "http") ==> u == img
    ensures !StartsWith(img, "http") ==> u == MediaHost + img
  {
    if StartsWith(img, "http") then img else MediaHost + img
  }

  /** `prev.filter(post => post.id !== postId)`. */
  function Unsaved(cards: seq<Card>, postId: int): (r: seq<Card>)
    ensures forall c :: c in r <==> c in cards && c.id != postId
  {
    var r := Seqs.Filter(cards, (c: Card) => c.id != postId);
    forall c ensures c in r <==> c in cards && c.id != postId {
      Seqs.FilterMembership(cards, (d: Card) => d.id != postId, c);
    }
    r
  }

  /** Unsaving keeps the other cards in their order. */
  lemma UnsavedKeepsOrder(a: seq<Card>, b: seq<Card>, postId: int)
    ensures Unsaved(a + b, postId) == Unsaved(a, postId) + Unsaved(b, postId)
  {
    Seqs.FilterAppend(a, b, (c: Card) => c.id != postId);
  }

  /** Unsaving an id that is not on the page changes nothing. */
  lemma UnsavedAbsentId(cards: seq<Card>, postId: int)
    requires forall i :: 0 <= i < |cards| ==> cards[i].id != postId
    ensures Unsaved(cards, postId) == cards
  {
    Seqs.FilterAllPass(cards, (c: Card) => c.id != postId);
  }

  const LoadFailed := "Failed to load saved posts."
  const RemovedOk := "Post removed from saved posts!"
  const RemoveFailed := "Failed to remove post from saved posts."

  class Page {
    var cards: seq<Card>
    var loading: bool
    var navigations: seq<string>
    var requests: nat
    var toasts: seq<string>

    constructor ()
      ensures cards == [] && navigations == [] && requests == 0 && toasts == []
    {
      cards := [];
      loading := true;
      navigations := [];
      requests := 0;
      toasts := [];
    }

    /** `fetchSavedPosts`: a signed-out reader is sent to /login and nothing is requested.
        `reply` is the list if the request returned 200, `None` if it failed. */
    method Fetch(isAuthenticated: bool, reply: Option<seq<Card>>)
      modifies this
      ensures !isAuthenticated ==>
        navigations == old(navigations) + ["/login"] && requests == old(requests) &&
        cards == old(cards) && toasts == old(toasts) && loading == old(loading)
      ensures isAuthenticated ==> requests == old(requests) + 1 && navigations == old(navigations) && !loading
      ensures isAuthenticated && reply.Some? ==> cards == reply.value && toasts == old(toasts)
      ensures isAuthenticated && reply.None? ==> cards == old(cards) && toasts == old(toasts) + [LoadFailed]
    {
      if !isAuthenticated {
        navigations := navigations + ["/login"];
        return;
      }
      loading := true;
      requests := requests + 1;
      if reply.Some? {
        cards := reply.value;
      } else {
        toasts := toasts + [LoadFailed];
      }
      loading := false;
    }

    /** `handleUnsavePost`. */
    method UnsavePost(postId: int, status: Option<int>)
      modifies this
      ensures requests == old(requests) + 1 && navigations == old(navigations) && loading == old(loading)
      ensures status == Some(200) || status == Some(201) ==>
        cards == Unsaved(old(cards), postId) && toasts == old(toasts) + [RemovedOk]
      ensures status.None? || !UseApi.Resolves(status.value) ==>
        cards == old(cards) && toasts == old(toasts) + [RemoveFailed]
      ensures status.Some? && UseApi.Resolves(status.value) && status.value != 200 && status.value != 201 ==>
        cards == old(cards) && toasts == old(toasts)
    {
      requests := requests + 1;
      if status.Some? && UseApi.Resolves(status.value) {
        if status.value == 200 || status.value == 201 {
          cards := Unsaved(cards, postId);
          toasts := toasts + [RemovedOk];
        }
      } else {
        toasts := toasts + [RemoveFailed];
      }
    }
  }
}
