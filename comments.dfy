/** The comment thread under a post (pages/Comments.jsx): relative times, the indentation of
    nested replies, which comments start the thread, and the create/reply/edit/delete handlers
    with their guards. */
module Comments {
  import opened Base
  import opened Text
  import Seqs
  import UseApi

  /** A comment as the list endpoint returns it. */
  datatype Comment = Comment(id: int, parent: Option<int>, text: string, replies: seq<Comment>)

  /** A relative time: an amount and its unit ("seconds", "minutes", "hours" or "days"). */
  datatype Ago = Ago(amount: int, unit: string)

  /** `timeAgo` for a timestamp `elapsedMs` milliseconds in the past. */
  function TimeAgo(elapsedMs: int): (r: Ago)
    ensures var diff := elapsedMs / 1000;
      && (diff < 60 ==> r == Ago(diff, "seconds"))
      && (60 <= diff < 3600 ==> r.unit == "minutes" && r.amount * 60 <= diff < (r.amount + 1) * 60)
      && (3600 <= diff < 86400 ==> r.unit == "hours" && r.amount * 3600 <= diff < (r.amount + 1) * 3600)
      && (86400 <= diff ==> r.unit == "days" && r.amount * 86400 <= diff < (r.amount + 1) * 86400)
    ensures r.unit != "seconds" ==> r.amount >= 1
  {
    var diff := elapsedMs / 1000;
    if diff < 60 then Ago(diff, "seconds")
    else if diff < 3600 then Ago(diff / 60, "minutes")
    else if diff < 86400 then Ago(diff / 3600, "hours")
    else Ago(diff / 86400, "days")
  }

  /** `getIndentationClass`: the depth clamped to 3, and anything not in the table (a negative
      depth) falls back to "ml-24". */
  function IndentationClass(depth: int): (r: string)
    ensures depth == 0 ==> r == "ml-0"
    ensures depth == 1 ==> r == "ml-8"
    ensures depth == 2 ==> r == "ml-16"
    ensures (depth >= 3 || depth < 0) ==> r == "ml-24"
  {
    var k := if depth < 3 then depth else 3;
    if k == 0 then "ml-0" else if k == 1 then "ml-8" else if k == 2 then "ml-16" else "ml-24"
  }

  /** The label after a reply count: singular exactly for one reply. */
  function ReplyLabel(count: nat): (r: string)
    ensures r == "reply" <==> count == 1
    ensures r == "reply" || r == "replies"
  {
    if count == 1 then "reply" else "replies"
  }

  /** `!comment.parent`: no parent, or a falsy parent id. */
  predicate StartsThread(c: Comment)
  {
    c.parent.None? || c.parent.value == 0
  }

  /** `parentComments`. */
  function ParentComments(cs: seq<Comment>): (r: seq<Comment>)
    ensures |r| <= |cs|
  {
    Seqs.Filter(cs, StartsThread)
  }

  /** A comment is rendered at the top level exactly when it is in the list and has no parent. */
  lemma ParentCommentsMembership(cs: seq<Comment>, c: Comment)
    ensures c in ParentComments(cs) <==> c in cs && StartsThread(c)
  {
    Seqs.FilterMembership(cs, StartsThread, c);
  }

  /** The top-level comments keep their order: splitting the list splits the result. */
  lemma ParentCommentsKeepOrder(a: seq<Comment>, b: seq<Comment>)
    ensures ParentComments(a + b) == ParentComments(a) + ParentComments(b)
  {
    Seqs.FilterAppend(a, b, StartsThread);
  }

  /** The props a `CommentItem` receives. An omitted `isLogin` is `undefined`, hence false. */
  datatype ItemProps = ItemProps(isLogin: bool, depth: int, maxDepth: int)

  /** The props of a top-level item. */
  function RootProps(isLogin: bool): ItemProps
  {
    ItemProps(isLogin, 0, 3)
  }

  /** The props an item passes to each of its replies: no `isLogin`. */
  function ReplyProps(p: ItemProps): ItemProps
  {
    ItemProps(false, p.depth + 1, p.maxDepth)
  }

  /** The props of an item `level` replies below a top-level one. */
  function PropsAt(isLogin: bool, level: nat): ItemProps
  {
    if level == 0 then RootProps(isLogin) else ReplyProps(PropsAt(isLogin, level - 1))
  }

  /** Every nested item sits at its level with the root's maximum depth and believes the user
      is logged out; the Reply button shows on levels 0 to 2 only. */
  lemma {:induction false} NestedItemsLoggedOut(isLogin: bool, level: nat)
    ensures PropsAt(isLogin, level).depth == level && PropsAt(isLogin, level).maxDepth == 3
    ensures level > 0 ==> !PropsAt(isLogin, level).isLogin
    ensures level == 0 ==> PropsAt(isLogin, level).isLogin == isLogin
    ensures PropsAt(isLogin, level).depth < PropsAt(isLogin, level).maxDepth <==> level < 3
  {
    if level > 0 {
      NestedItemsLoggedOut(isLogin, level - 1);
    }
  }

  /** A request the thread sends. */
  datatype Request =
    | CreateRequest(text: string, postId: int, parentId: Option<int>)
    | UpdateRequest(commentId: int, text: string)
    | DeleteRequest(commentId: int)

  /** What a request gave back: a thrown error, or a response status. */
  datatype Reply = Failed | Status(code: int)

  /** A reply that takes the handler's `catch`: a thrown error, or a status the client rejects. */
  predicate Rejected(reply: Reply)
  {
    reply.Failed? || !UseApi.Resolves(reply.code)
  }

  const BlankReply := "Please write a reply..."
  const LoginNeeded := "You need to login to comment on this post"
  const ReplyAdded := "Reply added successfully!"
  const ReplyFailed := "Failed to add reply"
  const CommentDeleted := "Comment deleted"
  const BlankComment := "Please write a comment.... "
  const CommentAdded := "Comment added successfully!"
  const CommentFailed := "Failed to add comment"

  /** One `CommentItem`: its form state, the requests it sent, the toasts it raised and how
      often it asked the thread to reload. */
  class Item {
    const comment: Comment
    const postId: int
    const props: ItemProps
    var isReplying: bool
    var replyText: string
    var editingCommentId: Option<int>
    var editedComment: string
    var requests: seq<Request>
    var toasts: seq<string>
    var reloads: nat

    constructor (comment: Comment, postId: int, props: ItemProps)
      ensures this.comment == comment && this.postId == postId && this.props == props
      ensures !isReplying && replyText == [] && editingCommentId.None? && editedComment == []
      ensures requests == [] && toasts == [] && reloads == 0
    {
      this.comment := comment;
      this.postId := postId;
      this.props := props;
      isReplying := false;
      replyText := [];
      editingCommentId := None;
      editedComment := [];
      requests := [];
      toasts := [];
      reloads := 0;
    }

    /** `handleReplySubmit`: the blank check comes first, then the login check, and only then
        is the reply posted; `reply` is the outcome of that post. */
    method ReplySubmit(reply: Reply)
      modifies this
      ensures editingCommentId == old(editingCommentId) && editedComment == old(editedComment)
      ensures IsBlank(Js, old(replyText)) ==>
        toasts == old(toasts) + [BlankReply] && requests == old(requests) &&
        replyText == old(replyText) && isReplying == old(isReplying) && reloads == old(reloads)
      ensures !IsBlank(Js, old(replyText)) && !props.isLogin ==>
        toasts == old(toasts) + [LoginNeeded] && requests == old(requests) &&
        replyText == old(replyText) && isReplying == old(isReplying) && reloads == old(reloads)
      ensures !IsBlank(Js, old(replyText)) && props.isLogin ==>
        requests == old(requests) + [CreateRequest(old(replyText), postId, Some(comment.id))]
      ensures !IsBlank(Js, old(replyText)) && props.isLogin && reply == Status(201) ==>
        replyText == [] && !isReplying && reloads == old(reloads) + 1 && toasts == old(toasts) + [ReplyAdded]
      ensures !IsBlank(Js, old(replyText)) && props.isLogin && Rejected(reply) ==>
        replyText == old(replyText) && isReplying == old(isReplying) && reloads == old(reloads) &&
        toasts == old(toasts) + [ReplyFailed]
      ensures !IsBlank(Js, old(replyText)) && props.isLogin && !Rejected(reply) && reply.code != 201 ==>
        replyText == old(replyText) && isReplying == old(isReplying) && reloads == old(reloads) &&
        toasts == old(toasts)
    {
      TrimEmptyIffBlank(Js, replyText);
      if Trim(Js, replyText) == [] {
        toasts := toasts + [BlankReply];
        return;
      }
      if !props.isLogin {
        toasts := toasts + [LoginNeeded];
        return;
      }
      requests := requests + [CreateRequest(replyText, postId, Some(comment.id))];
      if Rejected(reply) {
        toasts := toasts + [ReplyFailed];
      } else if reply.code == 201 {
        replyText := [];
        isReplying := false;
        reloads := reloads + 1;
        toasts := toasts + [ReplyAdded];
      }
    }

    /** `handleEditComment`. */
    method EditComment(commentId: int, currentText: string)
      modifies this
      ensures editingCommentId == Some(commentId) && editedComment == currentText
      ensures isReplying == old(isReplying) && replyText == old(replyText)
      ensures requests == old(requests) && toasts == old(toasts) && reloads == old(reloads)
    {
      editingCommentId := Some(commentId);
      editedComment := currentText;
    }

    /** `handleUpdateComment`: after a patch the client accepts, the edit state is cleared, then
        the call to the undefined `fetchComments` throws and is caught, so no success toast
        appears and nothing reloads. A rejected patch only logs, leaving the edit open. */
    method UpdateComment(commentId: int, reply: Reply)
      modifies this
      ensures isReplying == old(isReplying) && replyText == old(replyText) && reloads == old(reloads)
      ensures !props.isLogin ==>
        toasts == old(toasts) + [LoginNeeded] && requests == old(requests) &&
        editingCommentId == old(editingCommentId) && editedComment == old(editedComment)
      ensures props.isLogin ==>
        toasts == old(toasts) && requests == old(requests) + [UpdateRequest(commentId, old(editedComment))]
      ensures props.isLogin && !Rejected(reply) ==> editingCommentId.None? && editedComment == []
      ensures props.isLogin && Rejected(reply) ==>
        editingCommentId == old(editingCommentId) && editedComment == old(editedComment)
    {
      if !props.isLogin {
        toasts := toasts + [LoginNeeded];
        return;
      }
      requests := requests + [UpdateRequest(commentId, editedComment)];
      if !Rejected(reply) {
        editingCommentId := None;
        editedComment := [];
      }
    }

    /** `handleCancelEdit`. */
    method CancelEdit()
      modifies this
      ensures editingCommentId.None? && editedComment == []
      ensures isReplying == old(isReplying) && replyText == old(replyText)
      ensures requests == old(requests) && toasts == old(toasts) && reloads == old(reloads)
    {
      editingCommentId := None;
      editedComment := [];
    }

    /** `handleDeleteComment`: a 200 or 204 reloads the thread and confirms; any other settled
        status, and any rejection, which the `catch` only logs, does nothing. */
    method DeleteComment(commentId: int, reply: Reply)
      modifies this
      ensures requests == old(requests) + [DeleteRequest(commentId)]
      ensures isReplying == old(isReplying) && replyText == old(replyText)
      ensures editingCommentId == old(editingCommentId) && editedComment == old(editedComment)
      ensures reply == Status(200) || reply == Status(204) ==>
        reloads == old(reloads) + 1 && toasts == old(toasts) + [CommentDeleted]
      ensures !(reply == Status(200) || reply == Status(204)) ==>
        reloads == old(reloads) && toasts == old(toasts)
    {
      requests := requests + [DeleteRequest(commentId)];
      if reply == Status(200) || reply == Status(204) {
        reloads := reloads + 1;
        toasts := toasts + [CommentDeleted];
      }
    }
  }

  /** The thread component: the new-comment form and its outcome. */
  class Thread {
    const postId: int
    var newComment: string
    var requests: seq<Request>
    var toasts: seq<string>
    var reloads: nat

    constructor (postId: int)
      ensures this.postId == postId && newComment == [] && requests == [] && toasts == [] && reloads == 0
    {
      this.postId := postId;
      newComment := [];
      requests := [];
      toasts := [];
      reloads := 0;
    }

    /** `createComment`: a blank comment is refused before any request; there is no login
        check here. */
    method CreateComment(reply: Reply)
      modifies this
      ensures IsBlank(Js, old(newComment)) ==>
        toasts == old(toasts) + [BlankComment] && requests == old(requests) &&
        newComment == old(newComment) && reloads == old(reloads)
      ensures !IsBlank(Js, old(newComment)) ==>
        requests == old(requests) + [CreateRequest(old(newComment), postId, None)]
      ensures !IsBlank(Js, old(newComment)) && reply == Status(201) ==>
        newComment == [] && reloads == old(reloads) + 1 && toasts == old(toasts) + [CommentAdded]
      ensures !IsBlank(Js, old(newComment)) && Rejected(reply) ==>
        newComment == old(newComment) && reloads == old(reloads) && toasts == old(toasts) + [CommentFailed]
      ensures !IsBlank(Js, old(newComment)) && !Rejected(reply) && reply.code != 201 ==>
        newComment == old(newComment) && reloads == old(reloads) && toasts == old(toasts)
    {
      TrimEmptyIffBlank(Js, newComment);
      if Trim(Js, newComment) == [] {
        toasts := toasts + [BlankComment];
        return;
      }
      requests := requests + [CreateRequest(newComment, postId, None)];
      if Rejected(reply) {
        toasts := toasts + [CommentFailed];
      } else if reply.code == 201 {
        newComment := [];
        reloads := reloads + 1;
        toasts := toasts + [CommentAdded];
      }
    }
  }
}
