/** The post endpoints' decisions (posts/views.py): the like toggle, the edit endpoint's title
    scan, the two image guards, the list ordering, author-only deletion and search. */
module PostViews {
  import opened Base
  import opened Text
  import opened BlogDb
  import Signals
  import PostSerializers

  // ---------------------------------------------------------------- like toggle

  datatype LikeReply = PostMissing | LikeState(message: string, likes: int, isLiked: bool)

  const LikeRemoved := "Like removed"
  const LikeAdded := "Like added"

  /** The post after the toggle by `user`: a liker is removed and the counter goes down, but
      never below zero; anyone else is added and the counter goes up. */
  function Toggled(p: Post, user: UserId): (q: Post)
    ensures user in p.likedBy ==> q.likedBy == p.likedBy - {user} && q.like == (if p.like - 1 > 0 then p.like - 1 else 0)
    ensures user !in p.likedBy ==> q.likedBy == p.likedBy + {user} && q.like == p.like + 1
    ensures q.author == p.author && q.title == p.title && q.content == p.content && q.createdAt == p.createdAt
  {
    if user in p.likedBy then p.(likedBy := p.likedBy - {user}, like := if p.like - 1 > 0 then p.like - 1 else 0)
    else p.(likedBy := p.likedBy + {user}, like := p.like + 1)
  }

  /** The counter never goes negative: a removal clamps at zero, and an addition starts from a
      counter that was not negative. */
  lemma ToggleKeepsCountNonNegative(p: Post, user: UserId)
    requires p.like >= 0 || user in p.likedBy
    ensures Toggled(p, user).like >= 0
  {
  }

  /** Toggling twice restores the post when its counter was not negative. */
  lemma ToggleTwiceRestores(p: Post, user: UserId)
    requires p.like >= 0
    requires user in p.likedBy ==> p.like >= 1
    ensures Toggled(Toggled(p, user), user) == p
  {
  }

  /** `PostLikeView.post`: the m2m change fires the like signal with the one user. */
  method LikeToggle(db: Database, postId: PostId, user: UserId) returns (r: LikeReply)
    modifies db
    ensures postId !in old(db.posts) ==> r == PostMissing && db.posts == old(db.posts) &&
                                         db.notifications == old(db.notifications)
    ensures postId in old(db.posts) ==>
      var p := old(db.posts)[postId];
      && db.posts == old(db.posts)[postId := Toggled(p, user)]
      && r == LikeState(if user in p.likedBy then LikeRemoved else LikeAdded, db.posts[postId].like, user in db.posts[postId].likedBy)
      && (user in p.likedBy ==> db.notifications == Signals.RemoveLikes(old(db.notifications), p.author, postId, [user]))
      && (user !in p.likedBy ==> db.notifications == Signals.AddLikes(old(db.notifications), p.author, postId, [user]))
    ensures db.users == old(db.users) && db.follows == old(db.follows) && db.nextUserId == old(db.nextUserId)
  {
    if postId !in db.posts {
      return PostMissing;
    }
    var p := db.posts[postId];
    if user in p.likedBy {
      db.posts := db.posts[postId := p.(likedBy := p.likedBy - {user})];
      Signals.OnLikeChanged(db, p.author, postId, Signals.PostRemove, [user]);
      var q := db.posts[postId];
      db.posts := db.posts[postId := q.(like := if q.like - 1 > 0 then q.like - 1 else 0)];
      r := LikeState(LikeRemoved, db.posts[postId].like, false);
    } else {
      db.posts := db.posts[postId := p.(likedBy := p.likedBy + {user})];
      Signals.OnLikeChanged(db, p.author, postId, Signals.PostAdd, [user]);
      var q := db.posts[postId];
      db.posts := db.posts[postId := q.(like := q.like + 1)];
      r := LikeState(LikeAdded, db.posts[postId].like, true);
    }
  }

  // ---------------------------------------------------------------- edit

  predicate IsHeader(b: Block)
  {
    b.kind == Some("header")
  }

  /** `block.get("data", {}).get("text", "")`. */
  function TextOf(b: Block): string
  {
    if b.text.Some? then b.text.value else []
  }

  /** A header whose stripped text is not empty. */
  predicate HasTitle(b: Block)
  {
    IsHeader(b) && Trim(Py, TextOf(b)) != []
  }

  /** A later header's title wins over an earlier one's; a blank earlier one survives only
      when no header follows it. */
  function Later(earlier: Option<string>, later: Option<string>): Option<string>
  {
    if later.None? then earlier else later
  }

  /** The title the scan of `EditPost.put` leaves: every header overwrites the title with its
      stripped text and the scan stops at the first one that is not empty. */
  function TitleScan(blocks: seq<Block>): (r: Option<string>)
    ensures r.None? <==> forall i :: 0 <= i < |blocks| ==> !IsHeader(blocks[i])
    ensures r.Some? && r.value != [] ==> exists i :: 0 <= i < |blocks| && HasTitle(blocks[i])
  {
    if blocks == [] then None
    else if !IsHeader(blocks[0]) then TitleScan(blocks[1..])
    else
      var t := Trim(Py, TextOf(blocks[0]));
      if t != [] then Some(t) else Later(Some([]), TitleScan(blocks[1..]))
  }

  /** The title is the first non-blank header's stripped text; with headers that are all blank
      it is the empty string; with no header at all it stays `None`. */
  lemma {:induction false} TitleScanMeaning(blocks: seq<Block>)
    ensures (forall i :: 0 <= i < |blocks| ==> !IsHeader(blocks[i])) <==> TitleScan(blocks) == None
    ensures forall k :: 0 <= k < |blocks| && HasTitle(blocks[k]) && (forall j :: 0 <= j < k ==> !HasTitle(blocks[j])) ==>
              TitleScan(blocks) == Some(Trim(Py, TextOf(blocks[k])))
    ensures (exists i :: 0 <= i < |blocks| && IsHeader(blocks[i])) && (forall i :: 0 <= i < |blocks| ==> !HasTitle(blocks[i])) ==>
              TitleScan(blocks) == Some([])
  {
    if blocks != [] {
      var rest := blocks[1..];
      TitleScanMeaning(rest);
      assert forall i :: 1 <= i < |blocks| ==> blocks[i] == rest[i - 1];
      forall k | 0 <= k < |blocks| && HasTitle(blocks[k]) && (forall j :: 0 <= j < k ==> !HasTitle(blocks[j]))
        ensures TitleScan(blocks) == Some(Trim(Py, TextOf(blocks[k])))
      {
        if k > 0 {
          assert HasTitle(rest[k - 1]);
          assert forall j :: 0 <= j < k - 1 ==> !HasTitle(rest[j]) by {
            forall j | 0 <= j < k - 1 ensures !HasTitle(rest[j]) {
              assert rest[j] == blocks[j + 1];
            }
          }
        }
      }
      if (exists i :: 0 <= i < |blocks| && IsHeader(blocks[i])) && (forall i :: 0 <= i < |blocks| ==> !HasTitle(blocks[i])) {
        if !IsHeader(blocks[0]) {
          var i :| 0 <= i < |blocks| && IsHeader(blocks[i]);
          assert IsHeader(rest[i - 1]);
        }
      }
      if TitleScan(blocks) == None {
        forall i | 0 <= i < |blocks| ensures !IsHeader(blocks[i]) {
          if i > 0 {
            assert blocks[i] == rest[i - 1];
          }
        }
      }
    }
  }

  /** The scan itself, a loop that breaks at the first non-blank header. */
  method ScanTitle(blocks: seq<Block>) returns (title: Option<string>)
    ensures title == TitleScan(blocks)
  {
    title := None;
    var i := 0;
    while i < |blocks|
      invariant 0 <= i <= |blocks|
      invariant title.Some? ==> title.value == []
      invariant TitleScan(blocks) == Later(title, TitleScan(blocks[i..]))
    {
      assert blocks[i..][1..] == blocks[i + 1..];
      if blocks[i].kind == Some("header") {
        title := Some(Trim(Py, TextOf(blocks[i])));
        if title.value != [] {
          return;
        }
      }
      i := i + 1;
    }
  }

  /** The title field's checks: not null, not blank, at most 200 characters. */
  predicate TitleAccepted(title: Option<string>)
    ensures TitleAccepted(title) ==> title != Some([]) && title.Some? && |title.value| <= 200
  {
    title.Some? && title.value != [] && |title.value| <= 200
  }

  /** `EditPost.put`. The title scan runs before the post is looked up, so absent content is a
      server error even for a missing post; a missing post is 404; a title or content the
      serializer refuses is 400; otherwise only the title and the content are written. */
  method EditPost(db: Database, pk: PostId, content: Option<seq<Block>>, contentAccepted: bool) returns (status: int)
    modifies db
    ensures content.None? ==> status == 500
    ensures content.Some? && pk !in old(db.posts) ==> status == 404
    ensures status != 200 ==> db.posts == old(db.posts)
    ensures status == 200 <==> content.Some? && pk in old(db.posts) && TitleAccepted(TitleScan(content.value)) && contentAccepted
    ensures status == 200 ==> db.posts == old(db.posts)[pk := PostSerializers.ApplyEdit(old(db.posts)[pk], TitleScan(content.value).value, content.value)]
    ensures db.users == old(db.users) && db.follows == old(db.follows) && db.notifications == old(db.notifications)
    ensures db.nextUserId == old(db.nextUserId)
  {
    if content.None? {
      return 500;
    }
    var title := ScanTitle(content.value);
    if pk !in db.posts {
      return 404;
    }
    if !TitleAccepted(title) || !contentAccepted {
      return 400;
    }
    db.posts := db.posts[pk := PostSerializers.ApplyEdit(db.posts[pk], title.value, content.value)];
    status := 200;
  }

  // ---------------------------------------------------------------- image guards

  const MaxImageBytes := 5 * 1024 * 1024

  /** An uploaded file: its name (a file object with an empty name is falsy) and its size. */
  datatype Upload = Upload(name: string, size: nat)

  /** What a handler answers: a failure message, the stored path, or an exception the view
      does not catch (answered by the framework as a server error). */
  datatype ImageReply = ImageFailure(message: string) | ImageSaved(path: string) | Unhandled(error: string)

  const ImageDir := "post_images/"

  /** What `default_storage.save(name, ...)` did: it stored the file under the name it returns,
      which differs from the one asked for when that is taken, or it raised. */
  datatype StorageResult = StoredAs(path: string) | StorageRaised(error: string)

  /** A last segment the storage can derive a file name from. */
  predicate FileNameDerivable(segment: string)
  {
    segment != [] && segment != "." && segment != ".."
  }

  /** How the file storage answers a request to save under `ImageDir + segment`: it refuses a
      name whose file name cannot be derived. */
  predicate StorageBehaves(segment: string, save: StorageResult)
  {
    !FileNameDerivable(segment) ==> save.StorageRaised?
  }

  /** `upload_image`, given what the storage did with `post_images/<name>`; nothing catches a
      storage error here. The reply names the path the storage returned. */
  function UploadImage(image: Option<Upload>, save: StorageResult): (r: ImageReply)
    ensures image.None? || image.value.name == [] ==> r == ImageFailure("No image found.")
    ensures image.Some? && image.value.name != [] && image.value.size > MaxImageBytes ==>
              r == ImageFailure("Image size must be under 5MB.")
    ensures r.ImageSaved? <==> image.Some? && image.value.name != [] && image.value.size <= MaxImageBytes && save.StoredAs?
    ensures r.ImageSaved? ==> r.path == save.path
    ensures r.Unhandled? <==> image.Some? && image.value.name != [] && image.value.size <= MaxImageBytes && save.StorageRaised?
  {
    if image.None? || image.value.name == [] then ImageFailure("No image found.")
    else if image.value.size > MaxImageBytes then ImageFailure("Image size must be under 5MB.")
    else match save
      case StoredAs(path) => ImageSaved(path)
      case StorageRaised(e) => Unhandled(e)
  }

  /** What `requests.get` did: raised, or answered with a status and a body size. */
  datatype Download = Raised(error: string) | Downloaded(status: int, size: nat)

  /** `url.split("/")[-1]`: the text after the last `/`. */
  function LastSegment(url: string): (r: string)
    ensures |r| <= |url| && r == url[|url| - |r|..]
    ensures '/' !in r
    ensures |r| < |url| ==> url[|url| - |r| - 1] == '/'
  {
    if url == [] then []
    else if url[|url| - 1] == '/' then []
    else LastSegment(url[..|url| - 1]) + [url[|url| - 1]]
  }

  /** `fetch_url`, given the download and what the storage did with `post_images/<segment>`;
      an error from either is caught and reported. */
  function FetchUrl(url: Option<string>, download: Download, save: StorageResult): (r: ImageReply)
    ensures url.None? || url.value == [] ==> r == ImageFailure("No URL provided.")
    ensures !r.Unhandled?
    ensures r.ImageSaved? <==> url.Some? && url.value != [] && download.Downloaded? &&
                                download.status == 200 && download.size <= MaxImageBytes && save.StoredAs?
    ensures r.ImageSaved? ==> r.path == save.path
    ensures url.Some? && url.value != [] && download.Raised? ==> r == ImageFailure("Error fetching image: " + download.error)
    ensures url.Some? && url.value != [] && download.Downloaded? && download.status != 200 ==>
              r == ImageFailure("Failed to download image.")
    ensures url.Some? && url.value != [] && download.Downloaded? && download.status == 200 ==>
              (download.size > MaxImageBytes ==> r == ImageFailure("Image is larger than 5MB."))
    ensures url.Some? && url.value != [] && download.Downloaded? && download.status == 200 ==>
              (download.size <= MaxImageBytes && save.StorageRaised? ==> r == ImageFailure("Error fetching image: " + save.error))
  {
    if url.None? || url.value == [] then ImageFailure("No URL provided.")
    else match download
      case Raised(e) => ImageFailure("Error fetching image: " + e)
      case Downloaded(status, size) =>
        if status != 200 then ImageFailure("Failed to download image.")
        else if size > MaxImageBytes then ImageFailure("Image is larger than 5MB.")
        else match save
          case StoredAs(path) => ImageSaved(path)
          case StorageRaised(e) => ImageFailure("Error fetching image: " + e)
  }

  /** A URL ending in `/` has an empty last segment; the storage refuses it, and the caught
      error is reported rather than a saved image. */
  lemma {:induction false} TrailingSlashNotSaved(url: string, download: Download, save: StorageResult)
    requires url != [] && url[|url| - 1] == '/'
    requires StorageBehaves(LastSegment(url), save)
    ensures !FetchUrl(Some(url), download, save).ImageSaved?
  {
    assert LastSegment(url) == [];
  }

  /** The same storage error, after an image both views accept: `fetch_url` catches it and
      reports it, while `upload_image` has no handler and lets it escape. */
  lemma StorageErrorEscapesOnlyUpload(image: Upload, url: string, size: nat, e: string)
    requires image.name != [] && image.size <= MaxImageBytes
    requires url != [] && size <= MaxImageBytes
    ensures UploadImage(Some(image), StorageRaised(e)) == Unhandled(e)
    ensures FetchUrl(Some(url), Downloaded(200, size), StorageRaised(e)) == ImageFailure("Error fetching image: " + e)
  {
  }

  // ---------------------------------------------------------------- list ordering

  datatype Ordering = Newest | Oldest | MostLiked | LeastLiked

  /** `query_params.get('sort', 'newest')` mapped to an ordering; anything unknown is newest. */
  function SortFor(sort: Option<string>): (o: Ordering)
    ensures sort == Some("oldest") <==> o == Oldest
    ensures sort == Some("most_liked") <==> o == MostLiked
    ensures sort == Some("least_liked") <==> o == LeastLiked
  {
    var s := if sort.Some? then sort.value else "newest";
    if s == "oldest" then Oldest
    else if s == "most_liked" then MostLiked
    else if s == "least_liked" then LeastLiked
    else Newest
  }

  /** Whether post `a` is listed before post `b` under an ordering whose like key is `likes`. */
  predicate Precedes(o: Ordering, likes: Post -> int, a: Post, b: Post)
  {
    match o
    case Newest => a.createdAt > b.createdAt
    case Oldest => a.createdAt < b.createdAt
    case MostLiked => likes(a) > likes(b) || (likes(a) == likes(b) && a.createdAt > b.createdAt)
    case LeastLiked => likes(a) < likes(b) || (likes(a) == likes(b) && a.createdAt < b.createdAt)
  }

  /** The key as written: `Count('like')` counts the post's one non-null `like` value. */
  function LikeCountAsWritten(p: Post): int
  {
    1
  }

  /** The key evidently meant: the stored like counter. */
  function LikeCountIntended(p: Post): int
  {
    p.like
  }

  /** As written, "most liked" is "newest" and "least liked" is "oldest". */
  lemma LikedOrderingsDegenerate(a: Post, b: Post)
    ensures Precedes(MostLiked, LikeCountAsWritten, a, b) <==> Precedes(Newest, LikeCountAsWritten, a, b)
    ensures Precedes(LeastLiked, LikeCountAsWritten, a, b) <==> Precedes(Oldest, LikeCountAsWritten, a, b)
  {
  }

  /** An older post with five likes is listed after a newer post with none under "most liked". */
  lemma AsWrittenMostLikedIgnoresLikes()
    ensures var popular := Post(1, "a", [], 5, {}, 1);
            var recent := Post(2, "b", [], 0, {}, 2);
            Precedes(MostLiked, LikeCountAsWritten, recent, popular) && !Precedes(MostLiked, LikeCountAsWritten, popular, recent)
  {
  }

  /** With the stored counter as key, more likes always come first under "most liked" and
      last under "least liked", and ties fall back to the dates. */
  lemma IntendedMostLikedOrdersByLikes(a: Post, b: Post)
    ensures a.like > b.like ==> Precedes(MostLiked, LikeCountIntended, a, b) && Precedes(LeastLiked, LikeCountIntended, b, a)
    ensures a.like == b.like ==> (Precedes(MostLiked, LikeCountIntended, a, b) <==> Precedes(Newest, LikeCountIntended, a, b))
  {
  }

  // ---------------------------------------------------------------- delete and search

  /** `delete_post`: only the author's own post is deleted; anything else is 404. */
  method DeletePost(db: Database, pk: PostId, requester: UserId) returns (status: int)
    modifies db
    ensures pk in old(db.posts) && old(db.posts)[pk].author == requester ==>
              status == 200 && db.posts == old(db.posts) - {pk}
    ensures !(pk in old(db.posts) && old(db.posts)[pk].author == requester) ==>
              status == 404 && db.posts == old(db.posts)
    ensures db.users == old(db.users) && db.follows == old(db.follows) && db.notifications == old(db.notifications)
    ensures db.nextUserId == old(db.nextUserId)
  {
    if pk in db.posts && db.posts[pk].author == requester {
      db.posts := db.posts - {pk};
      return 200;
    }
    return 404;
  }

  /** A post matches when its title or its author's username contains the query, ignoring
      case. */
  predicate SearchMatch(users: map<UserId, User>, p: Post, q: string)
  {
    ContainsIgnoreCase(p.title, q) || (p.author in users && ContainsIgnoreCase(users[p.author].username, q))
  }

  /** `PostSearchAPIView.get`: the ids of the posts it returns. */
  function Search(posts: map<PostId, Post>, users: map<UserId, User>, q: string): (r: set<PostId>)
    ensures q == [] ==> r == {}
    ensures forall id :: id in r ==> id in posts && SearchMatch(users, posts[id], q)
    ensures q != [] ==> forall id :: id in posts && SearchMatch(users, posts[id], q) ==> id in r
  {
    if q == [] then {} else set id | id in posts && SearchMatch(users, posts[id], q)
  }

  /** A non-empty query finds every post whose title contains it, whatever the letter case of either. */
  lemma SearchFindsTitles(posts: map<PostId, Post>, users: map<UserId, User>, q: string, id: PostId)
    requires q != [] && id in posts && Contains(posts[id].title, q)
    ensures id in Search(posts, users, q)
  {
    var t := posts[id].title;
    var k :| 0 <= k <= |t| - |q| && OccursAt(t, q, k);
    assert ToLower(t)[k..k + |q|] == ToLower(t[k..k + |q|]);
    assert OccursAt(ToLower(t), ToLower(q), k);
  }
}
