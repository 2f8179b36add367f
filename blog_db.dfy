/** The server's tables, as the views, serializers and signal handlers see them: users, posts
    with their like counter and the set of users who liked them, follow rows and notification
    rows. Rows are values; the database is the one object the server changes. */
module BlogDb {
  import opened Base

  type UserId = nat
  type PostId = nat

  /** A stored password: what `set_password` keeps. `None` becomes an unusable password. */
  datatype Secret = Unusable | Hashed(raw: string)

  /** A user row: the login e-mail, the username, the stored password and the boolean
      flags passed to the manager (`is_active`, `is_staff`, `is_superuser`). */
  datatype User = User(email: string, username: string, password: Secret, flags: map<string, bool>)

  /** An editor block as the server reads it: `block.get("type")` and `block["data"]["text"]`. */
  datatype Block = Block(kind: Option<string>, text: Option<string>)

  datatype Post = Post(author: UserId, title: string, content: seq<Block>, like: int,
                       likedBy: set<UserId>, createdAt: int)

  /** A follow row: `follower` follows `following`. */
  datatype Follow = Follow(follower: UserId, following: UserId)

  datatype Notification = Notification(recipient: UserId, sender: UserId, kind: string,
                                       post: Option<PostId>, comment: Option<nat>)

  const CommentKind := "comment"
  const FollowKind := "follow"
  const LikeKind := "like"

  class Database {
    var users: map<UserId, User>
    var posts: map<PostId, Post>
    var follows: seq<Follow>
    var notifications: seq<Notification>
    /** The primary key the next user row receives. */
    var nextUserId: UserId

    constructor ()
      ensures users == map[] && posts == map[] && follows == [] && notifications == []
      ensures nextUserId == 1
    {
      users := map[];
      posts := map[];
      follows := [];
      notifications := [];
      nextUserId := 1;
    }
  }
}
