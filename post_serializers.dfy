/** The post serializers' own logic (posts/serializers.py): creating a follow with its two
    guards, whether the requesting user liked a post, and the two fields an edit may write. */
module PostSerializers {
  import opened Base
  import opened BlogDb
  import Signals

  /** The requesting user as the serializer context holds it: absent when there is no
      request, and a flag for `is_authenticated`. */
  datatype Requester = NoRequest | Anonymous | Authenticated(id: UserId)

  /** `get_is_liked`. */
  function IsLiked(request: Requester, post: Post): (r: bool)
    ensures r <==> request.Authenticated? && request.id in post.likedBy
  {
    match request
    case Authenticated(id) => id in post.likedBy
    case _ => false
  }

  datatype FollowResult = Created(follow: Follow) | Invalid(message: string)

  const CannotFollowSelf := "You cannot follow yourself."
  const AlreadyFollowing := "Already following this user."

  /** Follow rows are unique per (follower, following). */
  predicate UniqueFollows(fs: seq<Follow>)
  {
    forall i, j :: 0 <= i < j < |fs| ==> fs[i] != fs[j]
  }

  /** `FollowSerializer.create`: following oneself is refused before any lookup; `get_or_create`
      refuses an existing pair; otherwise exactly one row is added and its save signal
      notifies the followed user. */
  method CreateFollow(db: Database, follower: UserId, following: UserId) returns (r: FollowResult)
    modifies db
    ensures follower == following ==> r == Invalid(CannotFollowSelf) && db.follows == old(db.follows) &&
                                      db.notifications == old(db.notifications)
    ensures follower != following && Follow(follower, following) in old(db.follows) ==>
              r == Invalid(AlreadyFollowing) && db.follows == old(db.follows) && db.notifications == old(db.notifications)
    ensures follower != following && Follow(follower, following) !in old(db.follows) ==>
              r == Created(Follow(follower, following)) &&
              db.follows == old(db.follows) + [Follow(follower, following)] &&
              db.notifications == old(db.notifications) + [Notification(following, follower, FollowKind, None, None)]
    ensures UniqueFollows(old(db.follows)) ==> UniqueFollows(db.follows)
    ensures db.users == old(db.users) && db.posts == old(db.posts) && db.nextUserId == old(db.nextUserId)
  {
    if follower == following {
      return Invalid(CannotFollowSelf);
    }
    var f := Follow(follower, following);
    if f in db.follows {
      return Invalid(AlreadyFollowing);
    }
    db.follows := db.follows + [f];
    Signals.OnFollowSaved(db, f, true);
    r := Created(f);
  }

  /** `PostEditSerializer`: only `title` and `content` are written. */
  function ApplyEdit(p: Post, title: string, content: seq<Block>): (q: Post)
    ensures q.title == title && q.content == content
    ensures q.author == p.author && q.like == p.like && q.likedBy == p.likedBy && q.createdAt == p.createdAt
  {
    p.(title := title, content := content)
  }
}
