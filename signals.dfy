/** The notification rules the server runs after a save, a delete or a change to a post's
    likes (posts/signals.py). The queued comment notification is created at once: the task
    queue and its delay are not part of this model. */
module Signals {
  import opened Base
  import opened BlogDb
  import Seqs

  /** A like notification from `sender` to `author` about `post`. */
  predicate IsLikeFor(n: Notification, author: UserId, sender: UserId, post: PostId)
  {
    n.recipient == author && n.sender == sender && n.kind == LikeKind && n.post == Some(post)
  }

  /** The existence query the like handler runs. */
  predicate HasLike(ns: seq<Notification>, author: UserId, sender: UserId, post: PostId)
  {
    exists i :: 0 <= i < |ns| && IsLikeFor(ns[i], author, sender, post)
  }

  function LikeNote(author: UserId, sender: UserId, post: PostId): (n: Notification)
    ensures IsLikeFor(n, author, sender, post) && n.comment.None?
  {
    Notification(author, sender, LikeKind, Some(post), None)
  }

  /** No two like notifications share recipient, sender and post. */
  predicate UniqueLikes(ns: seq<Notification>)
  {
    forall i, j :: 0 <= i < j < |ns| && ns[i].kind == LikeKind && ns[j].kind == LikeKind ==>
      (ns[i].recipient, ns[i].sender, ns[i].post) != (ns[j].recipient, ns[j].sender, ns[j].post)
  }

  /** The rows the `post_add` branch leaves, users taken in the order the set yields them. */
  function AddLikes(ns: seq<Notification>, author: UserId, post: PostId, users: seq<UserId>): (r: seq<Notification>)
    ensures |ns| <= |r| <= |ns| + |users|
    decreases |users|
  {
    if users == [] then ns
    else
      var u := users[0];
      var next := if !HasLike(ns, author, u, post) && author != u then ns + [LikeNote(author, u, post)] else ns;
      AddLikes(next, author, post, users[1..])
  }

  /** The `post_add` branch only appends, and only like notifications to the author about this
      post from users in the set other than the author. */
  lemma {:induction false} AddLikesAppends(ns: seq<Notification>, author: UserId, post: PostId, users: seq<UserId>)
    ensures var r := AddLikes(ns, author, post, users);
      |ns| <= |r| && r[..|ns|] == ns &&
      forall k :: |ns| <= k < |r| ==> IsLikeFor(r[k], author, r[k].sender, post) && r[k].sender in users && r[k].sender != author
    decreases |users|
  {
    if users != [] {
      var u := users[0];
      var next := if !HasLike(ns, author, u, post) && author != u then ns + [LikeNote(author, u, post)] else ns;
      AddLikesAppends(next, author, post, users[1..]);
      var r := AddLikes(ns, author, post, users);
      assert r[..|next|] == next;
      assert r[..|ns|] == next[..|ns|];
      forall k | |ns| <= k < |r|
        ensures IsLikeFor(r[k], author, r[k].sender, post) && r[k].sender in users && r[k].sender != author
      {
        if k < |next| {
          assert r[k] == next[k] == LikeNote(author, u, post);
        }
      }
    }
  }

  /** The existence check keeps like notifications unique per (author, liker, post). */
  lemma {:induction false} AddLikesKeepsUnique(ns: seq<Notification>, author: UserId, post: PostId, users: seq<UserId>)
    requires UniqueLikes(ns)
    ensures UniqueLikes(AddLikes(ns, author, post, users))
    decreases |users|
  {
    if users != [] {
      var u := users[0];
      if !HasLike(ns, author, u, post) && author != u {
        var next := ns + [LikeNote(author, u, post)];
        forall i, j | 0 <= i < j < |next| && next[i].kind == LikeKind && next[j].kind == LikeKind
          ensures (next[i].recipient, next[i].sender, next[i].post) != (next[j].recipient, next[j].sender, next[j].post)
        {
          if j == |ns| {
            assert !IsLikeFor(ns[i], author, u, post);
          }
        }
        AddLikesKeepsUnique(next, author, post, users[1..]);
      } else {
        AddLikesKeepsUnique(ns, author, post, users[1..]);
      }
    }
  }

  lemma HasLikeGrows(ns: seq<Notification>, more: seq<Notification>, author: UserId, u: UserId, post: PostId)
    requires HasLike(ns, author, u, post)
    ensures HasLike(ns + more, author, u, post)
  {
    var i :| 0 <= i < |ns| && IsLikeFor(ns[i], author, u, post);
    assert (ns + more)[i] == ns[i];
  }

  /** After `post_add`, every liker other than the author has a like notification. */
  lemma {:induction false} AddLikesCovers(ns: seq<Notification>, author: UserId, post: PostId, users: seq<UserId>)
    ensures forall u :: u in users && u != author ==> HasLike(AddLikes(ns, author, post, users), author, u, post)
    decreases |users|
  {
    if users != [] {
      var u := users[0];
      var next := if !HasLike(ns, author, u, post) && author != u then ns + [LikeNote(author, u, post)] else ns;
      AddLikesCovers(next, author, post, users[1..]);
      var r := AddLikes(ns, author, post, users);
      AddLikesAppends(next, author, post, users[1..]);
      if u != author {
        assert HasLike(next, author, u, post) by {
          if !HasLike(ns, author, u, post) {
            assert next[|ns|] == LikeNote(author, u, post);
          }
        }
        assert r == next + r[|next|..];
        HasLikeGrows(next, r[|next|..], author, u, post);
      }
    }
  }

  /** A notification is kept by the `post_remove` branch unless it is a like notification
      to the author about this post from one of the users. */
  predicate KeptAfterUnlike(n: Notification, author: UserId, post: PostId, users: seq<UserId>)
  {
    !(n.recipient == author && n.kind == LikeKind && n.post == Some(post) && n.sender in users)
  }

  function RemoveLikes(ns: seq<Notification>, author: UserId, post: PostId, users: seq<UserId>): (r: seq<Notification>)
    ensures |r| <= |ns|
    ensures forall n :: n in r ==> n in ns && KeptAfterUnlike(n, author, post, users)
  {
    Seqs.Filter(ns, (n: Notification) => KeptAfterUnlike(n, author, post, users))
  }

  /** After `post_remove` no like notification from those users about the post remains, and
      every other row is kept. */
  lemma RemoveLikesClears(ns: seq<Notification>, author: UserId, post: PostId, users: seq<UserId>)
    ensures forall u :: u in users ==> !HasLike(RemoveLikes(ns, author, post, users), author, u, post)
    ensures forall n :: n in ns && KeptAfterUnlike(n, author, post, users) ==> n in RemoveLikes(ns, author, post, users)
  {
    var p := (n: Notification) => KeptAfterUnlike(n, author, post, users);
    var r := RemoveLikes(ns, author, post, users);
    forall u, i | u in users && 0 <= i < |r|
      ensures !IsLikeFor(r[i], author, u, post)
    {
      assert r[i] in r;
    }
    forall n | n in ns && KeptAfterUnlike(n, author, post, users)
      ensures n in RemoveLikes(ns, author, post, users)
    {
      Seqs.FilterMembership(ns, p, n);
    }
  }

  /** A follow notification from `follower` to `following`. */
  predicate IsFollowNote(n: Notification, f: Follow)
  {
    n.recipient == f.following && n.sender == f.follower && n.kind == FollowKind
  }

  function RemoveFollowNotes(ns: seq<Notification>, f: Follow): (r: seq<Notification>)
    ensures |r| <= |ns|
    ensures forall n :: n in r ==> n in ns && n.kind == FollowKind ==> n.recipient != f.following || n.sender != f.follower
  {
    Seqs.Filter(ns, (n: Notification) => !IsFollowNote(n, f))
  }

  /** Deleting a follow row leaves no follow notification for that pair, and keeps every
      other row. */
  lemma RemoveFollowNotesClears(ns: seq<Notification>, f: Follow)
    ensures forall n :: n in RemoveFollowNotes(ns, f) ==> !IsFollowNote(n, f)
    ensures forall n :: n in ns && !IsFollowNote(n, f) ==> n in RemoveFollowNotes(ns, f)
  {
    forall n | n in ns && !IsFollowNote(n, f)
      ensures n in RemoveFollowNotes(ns, f)
    {
      Seqs.FilterMembership(ns, (n: Notification) => !IsFollowNote(n, f), n);
    }
  }

  /** `notify_on_comment`: only a new comment by someone other than the post's author
      notifies the author. */
  method OnCommentSaved(db: Database, commentId: nat, post: PostId, postAuthor: UserId, commenter: UserId, created: bool)
    modifies db
    ensures db.notifications == old(db.notifications) +
      (if created && commenter != postAuthor
       then [Notification(postAuthor, commenter, CommentKind, Some(post), Some(commentId))] else [])
    ensures db.users == old(db.users) && db.posts == old(db.posts) && db.follows == old(db.follows)
    ensures db.nextUserId == old(db.nextUserId)
  {
    if created {
      if commenter != postAuthor {
        db.notifications := db.notifications + [Notification(postAuthor, commenter, CommentKind, Some(post), Some(commentId))];
      }
    }
  }

  /** `notify_on_follow`: a new follow row notifies the followed user. */
  method OnFollowSaved(db: Database, f: Follow, created: bool)
    modifies db
    ensures db.notifications == old(db.notifications) +
      (if created then [Notification(f.following, f.follower, FollowKind, None, None)] else [])
    ensures db.users == old(db.users) && db.posts == old(db.posts) && db.follows == old(db.follows)
    ensures db.nextUserId == old(db.nextUserId)
  {
    if created {
      db.notifications := db.notifications + [Notification(f.following, f.follower, FollowKind, None, None)];
    }
  }

  /** `remove_follow_notification`. */
  method OnFollowDeleted(db: Database, f: Follow)
    modifies db
    ensures db.notifications == RemoveFollowNotes(old(db.notifications), f)
    ensures db.users == old(db.users) && db.posts == old(db.posts) && db.follows == old(db.follows)
    ensures db.nextUserId == old(db.nextUserId)
  {
    db.notifications := RemoveFollowNotes(db.notifications, f);
  }

  datatype LikeAction = PostAdd | PostRemove | OtherAction

  /** `notify_on_like`, for the post `post` written by `author`; `users` is the changed set. */
  method OnLikeChanged(db: Database, author: UserId, post: PostId, action: LikeAction, users: seq<UserId>)
    modifies db
    ensures action == PostAdd ==> db.notifications == AddLikes(old(db.notifications), author, post, users)
    ensures action == PostRemove ==> db.notifications == RemoveLikes(old(db.notifications), author, post, users)
    ensures action == OtherAction ==> db.notifications == old(db.notifications)
    ensures db.users == old(db.users) && db.posts == old(db.posts) && db.follows == old(db.follows)
    ensures db.nextUserId == old(db.nextUserId)
  {
    if action == PostAdd {
      var i := 0;
      while i < |users|
        invariant 0 <= i <= |users|
        invariant AddLikes(db.notifications, author, post, users[i..]) == AddLikes(old(db.notifications), author, post, users)
        invariant db.users == old(db.users) && db.posts == old(db.posts) && db.follows == old(db.follows)
        invariant db.nextUserId == old(db.nextUserId)
      {
        var u := users[i];
        assert users[i..][1..] == users[i + 1..];
        if !HasLike(db.notifications, author, u, post) && author != u {
          db.notifications := db.notifications + [LikeNote(author, u, post)];
        }
        i := i + 1;
      }
    }
    if action == PostRemove {
      var i := 0;
      assert users[..0] == [];
      Seqs.FilterAllPass(db.notifications, (n: Notification) => KeptAfterUnlike(n, author, post, []));
      while i < |users|
        invariant 0 <= i <= |users|
        invariant db.notifications == RemoveLikes(old(db.notifications), author, post, users[..i])
        invariant db.users == old(db.users) && db.posts == old(db.posts) && db.follows == old(db.follows)
        invariant db.nextUserId == old(db.nextUserId)
      {
        var u := users[i];
        var keep := (n: Notification) => !IsLikeFor(n, author, u, post);
        var before := (n: Notification) => KeptAfterUnlike(n, author, post, users[..i]);
        var after := (n: Notification) => KeptAfterUnlike(n, author, post, users[..i + 1]);
        assert users[..i + 1] == users[..i] + [u];
        Seqs.FilterFilter(old(db.notifications), before, keep, after);
        db.notifications := Seqs.Filter(db.notifications, keep);
        i := i + 1;
      }
      assert users[..i] == users;
    }
  }
}
