/** The unread-notification counter in the store (store/notificationsSlice.js). */
module NotificationsSlice {
  import opened Base

  /** The slice's actions; only `SetUnreadCount` is exported to the rest of the app. */
  datatype Action = SetUnreadCount(payload: JsValue) | ResetCount

  const InitialCount: JsValue := Defined(JInt(0))

  /** The reducer: both actions overwrite the count; the payload is stored as it comes. */
  function Reduce(count: JsValue, a: Action): (r: JsValue)
    ensures a.SetUnreadCount? ==> r == a.payload
    ensures a.ResetCount? ==> r == InitialCount
  {
    match a
    case SetUnreadCount(p) => p
    case ResetCount => InitialCount
  }

  /** The count after a run of actions from `count`. */
  function ReduceAll(count: JsValue, actions: seq<Action>): JsValue
    decreases |actions|
  {
    if actions == [] then count else ReduceAll(Reduce(count, actions[0]), actions[1..])
  }

  /** The last action decides the count, whatever came before it. */
  lemma {:induction false} LastWriteWins(count: JsValue, actions: seq<Action>)
    requires actions != []
    ensures ReduceAll(count, actions) == Reduce(count, actions[|actions| - 1])
    decreases |actions|
  {
    if |actions| > 1 {
      LastWriteWins(Reduce(count, actions[0]), actions[1..]);
    }
  }

  /** Through the exported action the count is always the last payload, or the initial 0. */
  lemma ExportedRunGivesLastPayload(actions: seq<Action>)
    requires forall i :: 0 <= i < |actions| ==> actions[i].SetUnreadCount?
    ensures ReduceAll(InitialCount, actions) ==
              if actions == [] then InitialCount else actions[|actions| - 1].payload
  {
    if actions != [] {
      LastWriteWins(InitialCount, actions);
    }
  }

  /** The slice as it lives in the store. */
  class Slice {
    var unreadCount: JsValue

    constructor ()
      ensures unreadCount == InitialCount
    {
      unreadCount := InitialCount;
    }

    method Dispatch(a: Action)
      modifies this
      ensures unreadCount == Reduce(old(unreadCount), a)
    {
      match a {
        case SetUnreadCount(p) =>
          unreadCount := p;
        case ResetCount =>
          unreadCount := InitialCount;
      }
    }
  }
}
