/** The navigation bar (components/Nav.jsx): its own notification socket, which classifies
    frames and writes the unread count, the light/dark theme, the mobile menu and the unread
    badge. */
module Nav {
  import opened Base

  /** Frame types that carry a `message` to show. */
  const MessageTypes: seq<string> := ["comment_notification", "follow_notification", "like_notification"]

  /** What one inbound frame does: the count written to the store, and the toast raised. */
  datatype Effect = Effect(count: JsValue, toast: Option<JsValue>)

  predicate IsCountUpdate(frame: Object)
  {
    IsString(Get(frame, "type"), "count_update")
  }

  predicate IsMessageFrame(frame: Object)
  {
    exists i | 0 <= i < |MessageTypes| :: IsString(Get(frame, "type"), MessageTypes[i])
  }

  /** `onmessage`'s three branches. */
  function Classify(frame: Object): (e: Effect)
    ensures e.count == Get(frame, "unread_count")
    ensures e.toast.None? <==> IsCountUpdate(frame)
    ensures IsMessageFrame(frame) ==> e.toast == Some(Get(frame, "message"))
    ensures !IsCountUpdate(frame) && !IsMessageFrame(frame) ==> e.toast == Some(Get(frame, "notification"))
  {
    var kind := Get(frame, "type");
    if IsString(kind, "count_update") then Effect(Get(frame, "unread_count"), None)
    else if kind in [Defined(JStr(MessageTypes[0])), Defined(JStr(MessageTypes[1])), Defined(JStr(MessageTypes[2]))] then
      Effect(Get(frame, "unread_count"), Some(Get(frame, "message")))
    else Effect(Get(frame, "unread_count"), Some(Get(frame, "notification")))
  }

  /** The theme on first render: the saved one if any, else the system preference. */
  function InitialTheme(saved: Option<string>, prefersDark: bool): (t: string)
    ensures TruthyString(saved) ==> t == saved.value
    ensures !TruthyString(saved) ==> t == (if prefersDark then "dark" else "light")
  {
    if TruthyString(saved) then saved.value else if prefersDark then "dark" else "light"
  }

  function NextTheme(prev: string): (t: string)
    ensures t == "light" || t == "dark"
    ensures t != prev
  {
    if prev == "light" then "dark" else "light"
  }

  /** Toggling twice restores the theme exactly when it was one of the two known themes
      (any other saved value comes back as "light"). */
  lemma ToggleTwiceRestores(t: string)
    ensures NextTheme(NextTheme(t)) == t <==> t == "light" || t == "dark"
  {
  }

  /** `unread_count > 0` as JavaScript compares it: numbers by value, `true` as 1, and
      `null`/`undefined`/`false` never. */
  predicate ShowBadge(count: JsValue)
  {
    match count
    case Defined(JInt(n)) => n > 0
    case Defined(JBool(b)) => b
    case _ => false
  }

  /** The menu after `navigateTo` and after `toggleMobileMenu`. */
  function MenuAfterNavigate(menuOpen: bool): (r: bool)
    ensures !r
  {
    false
  }

  function MenuAfterToggle(menuOpen: bool): (r: bool)
    ensures r != menuOpen
  {
    !menuOpen
  }

  /** The bar's socket effect and its store writes. `userId` is the `reduxUser?.id` of the
      last render; each run of the effect makes a socket, its cleanup closes it. */
  class Bar {
    var userId: JsValue
    var created: nat
    /** The `socket` state: the last socket made. */
    var socket: Option<nat>
    /** Sockets made and not closed. */
    var open: set<nat>
    var unreadCount: JsValue
    var toasts: seq<JsValue>
    var theme: string
    var menuOpen: bool

    predicate Valid()
      reads this
    {
      && (socket.Some? <==> created > 0)
      && (socket.Some? ==> socket.value == created)
      && (if Truthy(userId) then open == {created} && created > 0 else open == {})
    }

    constructor (userId: JsValue, unreadCount: JsValue, saved: Option<string>, prefersDark: bool)
      ensures Valid() && this.userId == userId && this.unreadCount == unreadCount
      ensures theme == InitialTheme(saved, prefersDark) && !menuOpen && toasts == []
      ensures created == (if Truthy(userId) then 1 else 0)
    {
      this.userId := userId;
      this.unreadCount := unreadCount;
      theme := InitialTheme(saved, prefersDark);
      menuOpen := false;
      toasts := [];
      socket := None;
      created := 0;
      open := {};
      new;
      if Truthy(userId) {
        created := 1;
        socket := Some(1);
        open := {1};
      }
    }

    /** A render with a different user id: the old socket is closed, and a new one opened
        when the new id is truthy; at most one socket is ever open. */
    method ChangeUser(id: JsValue)
      requires Valid() && id != userId
      modifies this
      ensures Valid() && userId == id && |open| <= 1
      ensures old(socket).Some? ==> old(socket).value !in open
      ensures created == old(created) + (if Truthy(id) then 1 else 0)
      ensures unreadCount == old(unreadCount) && toasts == old(toasts) && theme == old(theme) && menuOpen == old(menuOpen)
    {
      open := {};
      userId := id;
      if Truthy(id) {
        created := created + 1;
        socket := Some(created);
        open := {created};
      }
    }

    method OnMessage(frame: Object)
      modifies this
      ensures unreadCount == Classify(frame).count
      ensures toasts == old(toasts) + (if Classify(frame).toast.Some? then [Classify(frame).toast.value] else [])
      ensures userId == old(userId) && created == old(created) && socket == old(socket) && open == old(open)
      ensures theme == old(theme) && menuOpen == old(menuOpen)
    {
      var e := Classify(frame);
      unreadCount := e.count;
      if e.toast.Some? {
        toasts := toasts + [e.toast.value];
      }
    }

    /** The handler is assigned to `socket.error`, which the browser never calls, so an error
        event does nothing. */
    method OnError()
      ensures unchanged(this)
    {
    }

    /** `onclose` only logs: no reconnect, no state change. */
    method OnClose()
      ensures unchanged(this)
    {
    }

    method ToggleTheme()
      modifies this
      ensures theme == NextTheme(old(theme))
      ensures userId == old(userId) && created == old(created) && socket == old(socket) && open == old(open)
      ensures unreadCount == old(unreadCount) && toasts == old(toasts) && menuOpen == old(menuOpen)
    {
      theme := NextTheme(theme);
    }

    method NavigateTo()
      modifies this
      ensures !menuOpen
      ensures userId == old(userId) && created == old(created) && socket == old(socket) && open == old(open)
      ensures unreadCount == old(unreadCount) && toasts == old(toasts) && theme == old(theme)
    {
      menuOpen := MenuAfterNavigate(menuOpen);
    }

    method ToggleMobileMenu()
      modifies this
      ensures menuOpen == !old(menuOpen)
      ensures userId == old(userId) && created == old(created) && socket == old(socket) && open == old(open)
      ensures unreadCount == old(unreadCount) && toasts == old(toasts) && theme == old(theme)
    {
      menuOpen := MenuAfterToggle(menuOpen);
    }
  }
}
