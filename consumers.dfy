/** The notification socket on the server (posts/consumers.py): one group per user, joined on
    connect when the user exists and left on disconnect, and the three kinds of frame it
    forwards from the channel layer to the browser. */
module Consumers {
  import opened Base
  import Nav

  /** The channel-layer group of a user: `user_<id>`, the id as it appears in the URL. */
  function GroupName(userId: string): (g: string)
    ensures |g| == |userId| + 5 && g[..5] == "user_" && g[5..] == userId
  {
    "user_" + userId
  }

  /** Different users never share a group. */
  lemma GroupNameInjective(a: string, b: string)
    requires GroupName(a) == GroupName(b)
    ensures a == b
  {
    assert a == GroupName(a)[5..];
  }

  /** `event.get(key)`: Python's `None` is serialised as JSON `null`. */
  function PyGet(event: Object, key: string): (r: Json)
    ensures key in event ==> r == event[key]
    ensures key !in event ==> r == JNull
  {
    if key in event then event[key] else JNull
  }

  /** `event.get(key, default)`. */
  function PyGetOr(event: Object, key: string, default: Json): (r: Json)
    ensures key in event ==> r == event[key]
    ensures key !in event ==> r == default
  {
    if key in event then event[key] else default
  }

  /** `send_notification`: always the three keys, each `null` when the event lacks it. */
  function NotificationFrame(event: Object): (f: Object)
    ensures f.Keys == {"type", "message", "unread_count"}
    ensures f["type"] == PyGet(event, "event_type") && f["message"] == PyGet(event, "message")
    ensures f["unread_count"] == PyGet(event, "unread_count")
  {
    map["type" := PyGet(event, "event_type"), "message" := PyGet(event, "message"),
        "unread_count" := PyGet(event, "unread_count")]
  }

  /** `send_unfollow_notification`: `event["notification"]` raises when the key is missing, and
      then nothing is sent; the count defaults to 0. */
  function UnfollowFrame(event: Object): (f: Option<Object>)
    ensures f.None? <==> "notification" !in event
    ensures f.Some? ==> f.value.Keys == {"type", "notification", "unread_count"} &&
                        f.value["notification"] == event["notification"] &&
                        f.value["type"] == PyGet(event, "event_type") &&
                        f.value["unread_count"] == PyGetOr(event, "unread_count", JInt(0))
  {
    if "notification" !in event then None
    else Some(map["type" := PyGet(event, "event_type"), "notification" := event["notification"],
                  "unread_count" := PyGetOr(event, "unread_count", JInt(0))])
  }

  /** `send_count_update`: the type defaults to `count_update` and the count to 0. */
  function CountUpdateFrame(event: Object): (f: Object)
    ensures f.Keys == {"type", "unread_count"}
    ensures f["type"] == PyGetOr(event, "event_type", JStr("count_update"))
    ensures f["unread_count"] == PyGetOr(event, "unread_count", JInt(0))
  {
    map["type" := PyGetOr(event, "event_type", JStr("count_update")),
        "unread_count" := PyGetOr(event, "unread_count", JInt(0))]
  }

  /** A count update the server sends without a type, or with type `count_update`, reaches the
      navigation bar as a silent count change, and the count is 0 when the event had none. */
  lemma CountUpdateIsSilent(event: Object)
    requires "event_type" !in event || event["event_type"] == JStr("count_update")
    ensures Nav.Classify(CountUpdateFrame(event)) == Nav.Effect(Defined(PyGetOr(event, "unread_count", JInt(0))), None)
  {
    assert Nav.IsCountUpdate(CountUpdateFrame(event));
  }

  /** A comment, follow or like event reaches the bar as a toast of its message and the
      count it carries (`null` when it carried none). */
  lemma MessageEventToasts(event: Object, i: nat)
    requires i < |Nav.MessageTypes| && PyGet(event, "event_type") == JStr(Nav.MessageTypes[i])
    ensures Nav.Classify(NotificationFrame(event)) ==
            Nav.Effect(Defined(PyGet(event, "unread_count")), Some(Defined(PyGet(event, "message"))))
  {
    assert Nav.IsMessageFrame(NotificationFrame(event));
  }

  /** A notification event without a type is sent with type `null`, and the bar, finding no
      `notification` key in the frame, toasts `undefined`. */
  lemma UntypedEventToastsUndefined(event: Object)
    requires "event_type" !in event
    ensures Nav.Classify(NotificationFrame(event)).toast == Some(Undefined)
  {
    var f := NotificationFrame(event);
    assert !Nav.IsMessageFrame(f) by {
      forall i | 0 <= i < |Nav.MessageTypes| ensures !IsString(Get(f, "type"), Nav.MessageTypes[i]) {
        assert Get(f, "type") == Defined(JNull);
      }
    }
  }

  /** An unfollow event reaches the bar as a toast of its notification. */
  lemma UnfollowEventToasts(event: Object)
    requires "notification" in event
    requires PyGet(event, "event_type") == JStr("unfollow")
    ensures var f := UnfollowFrame(event).value;
            Nav.Classify(f) == Nav.Effect(Defined(PyGetOr(event, "unread_count", JInt(0))), Some(Defined(event["notification"])))
  {
    var f := UnfollowFrame(event).value;
    assert !Nav.IsMessageFrame(f) by {
      forall i | 0 <= i < |Nav.MessageTypes| ensures !IsString(Get(f, "type"), Nav.MessageTypes[i]) {
        assert Get(f, "type") == Defined(JStr("unfollow"));
      }
    }
  }

  /** The channel layer: which channels belong to each group. */
  class Layer {
    var groups: map<string, set<nat>>

    constructor ()
      ensures groups == map[]
    {
      groups := map[];
    }

    function Members(g: string): (r: set<nat>)
      reads this
      ensures g !in groups ==> r == {}
    {
      if g in groups then groups[g] else {}
    }

    method GroupAdd(g: string, channel: nat)
      modifies this
      ensures groups == old(groups)[g := old(Members(g)) + {channel}]
    {
      groups := groups[g := Members(g) + {channel}];
    }

    method GroupDiscard(g: string, channel: nat)
      modifies this
      ensures groups == old(groups)[g := old(Members(g)) - {channel}]
    {
      groups := groups[g := Members(g) - {channel}];
    }
  }

  datatype Lookup = Found(exists_: bool) | LookupRaised

  /** `is_valid_user`: a failing query counts as no such user. */
  function IsValidUser(lookup: Lookup): (r: bool)
    ensures r <==> lookup == Found(true)
  {
    lookup.Found? && lookup.exists_
  }

  /** One socket connection. `group` is set by `connect`; before that the attribute is
      missing and `disconnect`'s discard raises and is swallowed. */
  class Consumer {
    const layer: Layer
    const channel: nat
    var group: Option<string>
    var accepted: bool
    var closed: bool
    var sent: seq<Object>

    constructor (layer: Layer, channel: nat)
      ensures this.layer == layer && this.channel == channel
      ensures group == None && !accepted && !closed && sent == []
    {
      this.layer := layer;
      this.channel := channel;
      group := None;
      accepted := false;
      closed := false;
      sent := [];
    }

    /** `connect`: the group name is set first; only an existing user joins it and is
        accepted, anyone else is closed and the layer is untouched. */
    method Connect(userId: string, lookup: Lookup)
      modifies this, layer
      ensures group == Some(GroupName(userId))
      ensures IsValidUser(lookup) ==> accepted && !closed
      ensures IsValidUser(lookup) ==>
        layer.groups == old(layer.groups)[GroupName(userId) := old(layer.Members(GroupName(userId))) + {channel}]
      ensures !IsValidUser(lookup) ==> closed && accepted == old(accepted) && layer.groups == old(layer.groups)
      ensures sent == old(sent)
    {
      group := Some(GroupName(userId));
      if IsValidUser(lookup) {
        layer.GroupAdd(GroupName(userId), channel);
        accepted := true;
        closed := false;
      } else {
        closed := true;
      }
    }

    /** `disconnect`: leaves the group; a failing discard is swallowed. */
    method Disconnect(discardFails: bool)
      modifies layer
      ensures group.Some? && !discardFails ==>
                layer.groups == old(layer.groups)[group.value := old(layer.Members(group.value)) - {channel}]
      ensures group.None? || discardFails ==> layer.groups == old(layer.groups)
    {
      if group.Some? && !discardFails {
        layer.GroupDiscard(group.value, channel);
      }
    }

    method SendNotification(event: Object)
      modifies this
      ensures sent == old(sent) + [NotificationFrame(event)]
      ensures group == old(group) && accepted == old(accepted) && closed == old(closed)
    {
      sent := sent + [NotificationFrame(event)];
    }

    /** Returns whether the handler raised. */
    method SendUnfollowNotification(event: Object) returns (raised: bool)
      modifies this
      ensures raised <==> "notification" !in event
      ensures sent == old(sent) + (if raised then [] else [UnfollowFrame(event).value])
      ensures group == old(group) && accepted == old(accepted) && closed == old(closed)
    {
      var f := UnfollowFrame(event);
      if f.None? {
        return true;
      }
      sent := sent + [f.value];
      raised := false;
    }

    method SendCountUpdate(event: Object)
      modifies this
      ensures sent == old(sent) + [CountUpdateFrame(event)]
      ensures group == old(group) && accepted == old(accepted) && closed == old(closed)
    {
      sent := sent + [CountUpdateFrame(event)];
    }
  }

  /** A user's socket that connects and then disconnects leaves its group as it found it,
      when the channel was not already in it. */
  method ConnectThenDisconnect(layer: Layer, channel: nat, userId: string)
    modifies layer
    requires channel !in layer.Members(GroupName(userId))
    ensures layer.Members(GroupName(userId)) == old(layer.Members(GroupName(userId)))
    ensures forall g :: g != GroupName(userId) ==> layer.Members(g) == old(layer.Members(g))
  {
    var c := new Consumer(layer, channel);
    c.Connect(userId, Found(true));
    c.Disconnect(false);
  }
}
