/** The session check that runs when the app mounts (components/AuthProvider.jsx): keep a
    usable access token, otherwise refresh it with the refresh token, and log out on anything
    that goes wrong. The `loading` flag holds the children back until the check has finished. */
module AuthProvider {
  import opened Base

  /** What `jwtDecode` reads from a token: the `exp` claim in seconds, when there is one. */
  datatype Claims = Claims(exp: Option<int>)

  /** A JSON web token as the browser holds it: its text, and its claims when it decodes
      (`None` when `jwtDecode` would throw). */
  datatype Jwt = Jwt(text: string, claims: Option<Claims>)

  /** The auth slice of the store as the component reads it. */
  datatype AuthState = AuthState(accessToken: Option<Jwt>, refreshToken: Option<Jwt>, user: Option<Object>, isLogin: bool)

  /** What the `token/refresh/` request gave back: a thrown request error, or a body whose
      fields hold tokens. */
  datatype RefreshReply = RequestFailed | Replied(body: map<string, Jwt>)

  /** The actions the check dispatches to the store. */
  datatype Action =
    | SaveLogin(accessToken: Jwt, refreshToken: Jwt, user: Option<Object>, isLogin: bool)
    | RemoveLogin

  /** The observable result of one check: whether the refresh request went out, and what
      was dispatched (nothing when the stored access token is still good). */
  datatype Outcome = Outcome(requested: bool, dispatch: Option<Action>)

  /** The response field the code reads the new access token from (misspelled in the source). */
  const AccessFieldAsWritten := "aceess"
  /** The field the token endpoint actually returns. */
  const AccessField := "access"

  predicate TruthyToken(t: Option<Jwt>)
  {
    t.Some? && t.value.text != []
  }

  /** `jwtDecode(t)`: no claims when the value is undefined, empty or malformed. */
  function Decode(t: Option<Jwt>): Option<Claims>
  {
    if t.Some? && t.value.text != [] then t.value.claims else None
  }

  /** `decoded.exp > Date.now() / 1000`, in integer milliseconds; a missing `exp` compares false. */
  predicate Unexpired(c: Claims, nowMs: int)
  {
    c.exp.Some? && c.exp.value * 1000 > nowMs
  }

  /** The stored access token is present and decodes with an `exp` in the future. */
  predicate AccessUsable(s: AuthState, nowMs: int)
  {
    TruthyToken(s.accessToken) && Decode(s.accessToken).Some? && Unexpired(Decode(s.accessToken).value, nowMs)
  }

  /** The stored access token is present but `jwtDecode` throws on it. */
  predicate AccessMalformed(s: AuthState)
  {
    TruthyToken(s.accessToken) && Decode(s.accessToken).None?
  }

  function Field(body: map<string, Jwt>, key: string): Option<Jwt>
  {
    if key in body then Some(body[key]) else None
  }

  /** `checkAuth`, reading the new access token from the response field `accessKey`. A login
      is saved only after a refresh request, for the stored user, with the token the reply
      carried under `accessKey`. */
  function CheckAuthWith(accessKey: string, s: AuthState, nowMs: int, reply: RefreshReply): (r: Outcome)
    ensures r.dispatch.Some? && r.dispatch.value.SaveLogin? ==>
      && r.requested && reply.Replied? && accessKey in reply.body
      && r.dispatch.value.accessToken == reply.body[accessKey]
      && r.dispatch.value.user == s.user && r.dispatch.value.isLogin
    ensures r.requested ==> TruthyToken(s.refreshToken)
  {
    if AccessMalformed(s) then Outcome(false, Some(RemoveLogin))
    else if AccessUsable(s, nowMs) then Outcome(false, None)
    else if !TruthyToken(s.refreshToken) then Outcome(false, Some(RemoveLogin))
    else match reply
      case RequestFailed => Outcome(true, Some(RemoveLogin))
      case Replied(body) =>
        var newAccess := Field(body, accessKey);
        var newRefresh := if TruthyToken(Field(body, "refresh")) then body["refresh"] else s.refreshToken.value;
        var decoded := Decode(newAccess);
        if decoded.None? then Outcome(true, Some(RemoveLogin))
        else if Unexpired(decoded.value, nowMs) then
          Outcome(true, Some(SaveLogin(newAccess.value, newRefresh, s.user, true)))
        else Outcome(true, Some(RemoveLogin))
  }

  /** The check as the source writes it. It agrees with the intended check whenever no
      refresh request goes out; the misspelled field only matters for the reply. */
  function Check(s: AuthState, nowMs: int, reply: RefreshReply): (r: Outcome)
    ensures !r.requested ==> r == CheckAuthWith(AccessField, s, nowMs, reply)
    ensures r.requested && reply.RequestFailed? ==> r.dispatch == Some(RemoveLogin)
  {
    CheckAuthWith(AccessFieldAsWritten, s, nowMs, reply)
  }

  /** The check as evidently intended: the new access token read from `access`. */
  function CheckAuthIntended(s: AuthState, nowMs: int, reply: RefreshReply): (r: Outcome)
    ensures r.dispatch.Some? && r.dispatch.value.SaveLogin? ==>
      reply.Replied? && AccessField in reply.body && r.dispatch.value.accessToken == reply.body[AccessField]
  {
    CheckAuthWith(AccessField, s, nowMs, reply)
  }

  /** A stored access token that decodes with a future `exp` ends the check at once:
      no refresh request and nothing dispatched. */
  lemma UsableAccessNeedsNothing(k: string, s: AuthState, nowMs: int, reply: RefreshReply)
    requires AccessUsable(s, nowMs)
    ensures CheckAuthWith(k, s, nowMs, reply) == Outcome(false, None)
  {
  }

  /** The refresh request goes out exactly when a refresh token is held and the access token
      is absent, expired or without `exp`; a malformed access token never reaches the refresh. */
  lemma RefreshRequestedIff(k: string, s: AuthState, nowMs: int, reply: RefreshReply)
    ensures CheckAuthWith(k, s, nowMs, reply).requested <==>
              TruthyToken(s.refreshToken) && !AccessUsable(s, nowMs) && !AccessMalformed(s)
  {
  }

  /** Without a usable access token and without a refresh token the outcome is `removeLogin`. */
  lemma NoTokensLogsOut(k: string, s: AuthState, nowMs: int, reply: RefreshReply)
    requires !AccessUsable(s, nowMs) && !TruthyToken(s.refreshToken)
    ensures CheckAuthWith(k, s, nowMs, reply) == Outcome(false, Some(RemoveLogin))
  {
  }

  /** Fail closed: a stored access token that does not decode, a failed request, a refreshed
      token that does not decode and one that is already expired all end in `removeLogin`;
      only a usable access token avoids a dispatch. */
  lemma FailClosed(k: string, s: AuthState, nowMs: int, reply: RefreshReply)
    ensures CheckAuthWith(k, s, nowMs, reply).dispatch.None? <==> AccessUsable(s, nowMs)
    ensures AccessMalformed(s) ==> CheckAuthWith(k, s, nowMs, reply) == Outcome(false, Some(RemoveLogin))
    ensures reply.RequestFailed? && !AccessUsable(s, nowMs) ==>
              CheckAuthWith(k, s, nowMs, reply).dispatch == Some(RemoveLogin)
    ensures reply.Replied? && CheckAuthWith(k, s, nowMs, reply).requested &&
            (Decode(Field(reply.body, k)).None? || !Unexpired(Decode(Field(reply.body, k)).value, nowMs)) ==>
              CheckAuthWith(k, s, nowMs, reply).dispatch == Some(RemoveLogin)
  {
  }

  /** A successful refresh keeps the stored user, marks the session logged in, stores the
      decoded new access token, and falls back to the old refresh token when the response
      carries none. */
  lemma SaveKeepsUser(k: string, s: AuthState, nowMs: int, reply: RefreshReply)
    requires CheckAuthWith(k, s, nowMs, reply).dispatch.Some?
    requires CheckAuthWith(k, s, nowMs, reply).dispatch.value.SaveLogin?
    ensures var a := CheckAuthWith(k, s, nowMs, reply).dispatch.value;
      && reply.Replied? && k in reply.body && a.accessToken == reply.body[k]
      && Unexpired(Decode(Some(a.accessToken)).value, nowMs)
      && a.user == s.user && a.isLogin
      && a.refreshToken == (if TruthyToken(Field(reply.body, "refresh")) then reply.body["refresh"] else s.refreshToken.value)
  {
  }

  /** As written, a real token-endpoint reply (which has no `aceess` field) can never be used:
      every refresh attempt ends in `removeLogin`. */
  lemma AsWrittenRefreshAlwaysLogsOut(s: AuthState, nowMs: int, reply: RefreshReply)
    requires reply.Replied? ==> AccessFieldAsWritten !in reply.body
    requires Check(s, nowMs, reply).requested
    ensures Check(s, nowMs, reply).dispatch == Some(RemoveLogin)
  {
  }

  /** With the intended field, a reply carrying a fresh access token logs the user in again. */
  lemma IntendedRefreshSaves(s: AuthState, nowMs: int, body: map<string, Jwt>)
    requires TruthyToken(s.refreshToken) && !AccessUsable(s, nowMs) && !AccessMalformed(s)
    requires AccessField in body && Decode(Some(body[AccessField])).Some?
    requires Unexpired(Decode(Some(body[AccessField])).value, nowMs)
    ensures CheckAuthIntended(s, nowMs, Replied(body)).dispatch.Some?
    ensures CheckAuthIntended(s, nowMs, Replied(body)).dispatch.value.SaveLogin?
    ensures CheckAuthIntended(s, nowMs, Replied(body)).dispatch.value.accessToken == body[AccessField]
  {
  }

  /** What the provider renders. */
  datatype Screen = Spinner | Children

  /** The provider component: its `loading` state, the store it reads, the actions it has
      dispatched and the refresh tokens it has sent. */
  class Provider {
    var loading: bool
    const store: AuthState
    var dispatched: seq<Action>
    var refreshRequests: seq<Jwt>

    constructor (store: AuthState)
      ensures this.store == store && loading && dispatched == [] && refreshRequests == []
    {
      this.store := store;
      loading := true;
      dispatched := [];
      refreshRequests := [];
    }

    /** Children render only once `loading` is false. */
    function Render(): (r: Screen)
      reads this
      ensures r == Children <==> !loading
    {
      if loading then Spinner else Children
    }

    /** `checkAuth`, step by step; `reply` is what the refresh request returns if it is sent. */
    method CheckAuth(nowMs: int, reply: RefreshReply)
      modifies this
      ensures !loading && Render() == Children
      ensures var o := Check(store, nowMs, reply);
        && dispatched == old(dispatched) + (if o.dispatch.Some? then [o.dispatch.value] else [])
        && refreshRequests == old(refreshRequests) + (if o.requested then [store.refreshToken.value] else [])
    {
      var failed := false;
      if TruthyToken(store.accessToken) {
        var decoded := Decode(store.accessToken);
        if decoded.None? {
          failed := true;
        } else if Unexpired(decoded.value, nowMs) {
          loading := false;
          return;
        }
      }
      if !failed {
        if TruthyToken(store.refreshToken) {
          refreshRequests := refreshRequests + [store.refreshToken.value];
          match reply {
            case RequestFailed =>
              failed := true;
            case Replied(body) =>
              var newAccess := Field(body, AccessFieldAsWritten);
              var newRefresh := if TruthyToken(Field(body, "refresh")) then body["refresh"] else store.refreshToken.value;
              var decoded := Decode(newAccess);
              if decoded.None? {
                failed := true;
              } else if Unexpired(decoded.value, nowMs) {
                dispatched := dispatched + [SaveLogin(newAccess.value, newRefresh, store.user, true)];
              } else {
                failed := true;
              }
          }
        } else {
          dispatched := dispatched + [RemoveLogin];
        }
      }
      if failed {
        dispatched := dispatched + [RemoveLogin];
      }
      loading := false;
    }
  }
}
