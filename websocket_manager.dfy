/** The app-wide notification socket (components/socketprovider/WebSocketManager.jsx): it opens
    a socket for the signed-in user, writes every frame's `unread_count` into the store, and
    after a close retries once every 3000 ms, with at most one retry timer pending. */
module WebSocketManager {
  import opened Base

  const ReconnectDelayMs := 3000

  /** The store keys the root reducer defines (store/store.js). */
  const StoreKeys: set<string> := {"auth", "filter", "notifications"}

  /** `useSelector(state => state.user)?.id`: the root state maps reducer keys to slices. */
  function SelectedUserId(root: map<string, Object>): (r: JsValue)
    ensures "user" !in root ==> r == Undefined
  {
    if "user" in root then Get(root["user"], "id") else Undefined
  }

  /** The key the persisted root reducer adds next to the slices. */
  const PersistKey := "_persist"

  /** As the store is configured there is no `user` slice, whether or not the persisted state
      has been rehydrated, so the selected id is never truthy. */
  lemma ConfiguredStoreHasNoUser(root: map<string, Object>)
    requires root.Keys <= StoreKeys + {PersistKey}
    ensures !Truthy(SelectedUserId(root))
  {
    assert "user" !in StoreKeys + {PersistKey};
  }

  /** Frames whose toast shows their `message`. */
  predicate HasMessageToast(frame: Object)
  {
    IsString(Get(frame, "type"), "follow_notification") || IsString(Get(frame, "type"), "like_notification")
  }

  /** The toast raised for a frame: `message` for follow and like frames, `notification`
      for every other frame. */
  function ToastFor(frame: Object): (t: JsValue)
    ensures HasMessageToast(frame) ==> t == Get(frame, "message")
    ensures !HasMessageToast(frame) ==> t == Get(frame, "notification")
  {
    var kind := Get(frame, "type");
    if IsString(kind, "follow_notification") then Get(frame, "message")
    else if IsString(kind, "like_notification") then Get(frame, "message")
    else Get(frame, "notification")
  }

  /** `reconnectTimerRef`: no timer, a timer that will fire, or a timer that was cleared but
      whose id is still held (cleanup does not reset the ref). */
  datatype Timer = NoTimer | Pending | Cleared

  class Manager {
    /** The user id the mounted closure captured. */
    const userId: JsValue
    /** Sockets created so far; a socket is named by its creation number. */
    var created: nat
    /** `socketRef.current`. */
    var socket: Option<nat>
    /** Sockets on which `close()` has been called. */
    var closeRequested: set<nat>
    var isConnected: bool
    var timer: Timer
    /** Timers whose callback is still to run. */
    var pendingTimers: nat
    var unmounted: bool
    /** The store's unread count, and the toasts raised. */
    var unreadCount: JsValue
    var toasts: seq<JsValue>

    predicate Valid()
      reads this
    {
      && pendingTimers == (if timer == Pending then 1 else 0)
      && (socket.Some? <==> created > 0)
      && (socket.Some? ==> socket.value == created)
      && (!Truthy(userId) ==> created == 0)
    }

    /** Mounting runs the effect, which calls `connectWebSocket`. */
    constructor (userId: JsValue, unreadCount: JsValue)
      ensures Valid() && this.userId == userId && this.unreadCount == unreadCount
      ensures created == (if Truthy(userId) then 1 else 0)
      ensures timer == NoTimer && !isConnected && !unmounted && toasts == [] && closeRequested == {}
    {
      this.userId := userId;
      this.unreadCount := unreadCount;
      created := 0;
      socket := None;
      closeRequested := {};
      isConnected := false;
      timer := NoTimer;
      pendingTimers := 0;
      unmounted := false;
      toasts := [];
      new;
      Connect();
    }

    /** `connectWebSocket`: nothing without a user id, otherwise a new socket replaces the ref. */
    method Connect()
      requires socket.Some? <==> created > 0
      requires socket.Some? ==> socket.value == created
      modifies this
      ensures created == old(created) + (if Truthy(userId) then 1 else 0)
      ensures socket == if Truthy(userId) then Some(created) else old(socket)
      ensures closeRequested == old(closeRequested) && isConnected == old(isConnected)
      ensures timer == old(timer) && pendingTimers == old(pendingTimers) && unmounted == old(unmounted)
      ensures unreadCount == old(unreadCount) && toasts == old(toasts)
    {
      if !Truthy(userId) {
        return;
      }
      created := created + 1;
      socket := Some(created);
    }

    method OnOpen()
      modifies this
      ensures isConnected
      ensures created == old(created) && socket == old(socket) && closeRequested == old(closeRequested)
      ensures timer == old(timer) && pendingTimers == old(pendingTimers) && unmounted == old(unmounted)
      ensures unreadCount == old(unreadCount) && toasts == old(toasts)
    {
      isConnected := true;
    }

    /** `onmessage`: every branch stores the frame's `unread_count` and raises a toast; then the
        handler reads an undefined name and throws, after both effects have happened. */
    method OnMessage(frame: Object) returns (threw: bool)
      modifies this
      ensures threw
      ensures unreadCount == Get(frame, "unread_count")
      ensures toasts == old(toasts) + [ToastFor(frame)]
      ensures created == old(created) && socket == old(socket) && closeRequested == old(closeRequested)
      ensures isConnected == old(isConnected) && timer == old(timer) && pendingTimers == old(pendingTimers)
      ensures unmounted == old(unmounted)
    {
      var kind := Get(frame, "type");
      if IsString(kind, "follow_notification") {
        unreadCount := Get(frame, "unread_count");
        toasts := toasts + [Get(frame, "message")];
      } else if IsString(kind, "like_notification") {
        unreadCount := Get(frame, "unread_count");
        toasts := toasts + [Get(frame, "message")];
      } else {
        unreadCount := Get(frame, "unread_count");
        toasts := toasts + [Get(frame, "notification")];
      }
      threw := true;
    }

    /** `onerror` only logs. */
    method OnError()
      ensures unchanged(this)
    {
    }

    /** `onclose`: marks the manager disconnected and schedules a retry only when the timer ref
        is empty. */
    method OnClose()
      requires Valid()
      modifies this
      ensures Valid()
      ensures !isConnected
      ensures timer == (if old(timer) == NoTimer then Pending else old(timer))
      ensures pendingTimers <= 1
      ensures created == old(created) && socket == old(socket) && closeRequested == old(closeRequested)
      ensures unmounted == old(unmounted) && unreadCount == old(unreadCount) && toasts == old(toasts)
    {
      isConnected := false;
      if timer == NoTimer {
        timer := Pending;
        pendingTimers := pendingTimers + 1;
      }
    }

    /** The retry timer fires: it reconnects and then empties the timer ref. */
    method Fire()
      requires Valid() && timer == Pending
      modifies this
      ensures Valid()
      ensures timer == NoTimer && pendingTimers == 0
      ensures created == old(created) + (if Truthy(userId) then 1 else 0)
      ensures socket == if Truthy(userId) then Some(created) else old(socket)
      ensures isConnected == old(isConnected) && closeRequested == old(closeRequested)
      ensures unmounted == old(unmounted) && unreadCount == old(unreadCount) && toasts == old(toasts)
    {
      pendingTimers := pendingTimers - 1;
      Connect();
      timer := NoTimer;
    }

    /** The effect's cleanup: close the current socket and clear a pending timer, leaving the
        timer ref and the socket's `onclose` in place. */
    method Cleanup()
      requires Valid()
      modifies this
      ensures Valid() && unmounted
      ensures closeRequested == old(closeRequested) + (if old(socket).Some? then {old(socket).value} else {})
      ensures timer == (if old(timer) == Pending then Cleared else old(timer))
      ensures pendingTimers == 0
      ensures created == old(created) && socket == old(socket) && isConnected == old(isConnected)
      ensures unreadCount == old(unreadCount) && toasts == old(toasts)
    {
      if socket.Some? {
        closeRequested := closeRequested + {socket.value};
      }
      if timer == Pending {
        timer := Cleared;
        pendingTimers := 0;
      }
      unmounted := true;
    }
  }

  /** A close that arrives after cleanup, when no timer was held, still schedules a retry on
      the unmounted manager. */
  method CloseAfterCleanup(userId: JsValue) returns (m: Manager)
    requires Truthy(userId)
    ensures m.Valid() && m.unmounted && m.timer == Pending && m.pendingTimers == 1
    ensures m.socket == Some(1) && 1 in m.closeRequested
  {
    m := new Manager(userId, Defined(JInt(0)));
    m.Cleanup();
    m.OnClose();
  }

  /** Cleanup before the retry fires cancels it for good: the held id blocks any later
      `onclose` from scheduling another. */
  method CleanupCancelsRetry(userId: JsValue) returns (m: Manager)
    requires Truthy(userId)
    ensures m.Valid() && m.unmounted && m.timer == Cleared && m.pendingTimers == 0
    ensures m.created == 1
  {
    m := new Manager(userId, Defined(JInt(0)));
    m.OnClose();
    m.Cleanup();
    m.OnClose();
  }
}
