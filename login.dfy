/** The sign-in / sign-up page (pages/Login.jsx): the form validators, written out as
    predicates over the strings the regular expressions accept, and what a login or a
    registration reply does to the page and the store. */
module Login {
  import opened Base
  import opened Text
  import UseApi

  predicate All(s: string, p: char -> bool)
  {
    forall i :: 0 <= i < |s| ==> p(s[i])
  }

  predicate Any(s: string, p: char -> bool)
  {
    exists i :: 0 <= i < |s| && p(s[i])
  }

  /** `[\w.-]`. */
  predicate IsEmailChar(c: char)
  {
    IsWordChar(c) || c == '.' || c == '-'
  }

  /** `[!@#$%^&*]`. */
  predicate IsPasswordSymbol(c: char)
  {
    c == '!' || c == '@' || c == '#' || c == '$' || c == '%' || c == '^' || c == '&' || c == '*'
  }

  predicate NotLineTerminator(c: char)
  {
    !IsLineTerminator(c)
  }

  /** `/^[\w.-]+@[\w.-]+\.\w+$/`: the string splits as local part, `@`, domain, `.`, suffix,
      for some choice of the `@` and of the `.` (the backtracking the regular expression does). */
  predicate EmailMatches(s: string)
  {
    exists at, dot | 0 < at && at + 1 < dot && dot + 1 < |s| ::
      s[at] == '@' && s[dot] == '.' &&
      All(s[..at], IsEmailChar) && All(s[at + 1..dot], IsEmailChar) && All(s[dot + 1..], IsWordChar)
  }

  /** The position of the last `.` in `s`, if any. */
  function LastDot(s: string): (r: Option<nat>)
    ensures r.Some? ==> r.value < |s| && s[r.value] == '.' &&
                        forall k :: r.value < k < |s| ==> s[k] != '.'
    ensures r.None? ==> forall k :: 0 <= k < |s| ==> s[k] != '.'
  {
    if s == [] then None
    else if s[|s| - 1] == '.' then Some(|s| - 1)
    else LastDot(s[..|s| - 1])
  }

  /** The position of the first `@` in `s`, if any. */
  function FirstAt(s: string): (r: Option<nat>)
    ensures r.Some? ==> r.value < |s| && s[r.value] == '@' &&
                        forall k :: 0 <= k < r.value ==> s[k] != '@'
    ensures r.None? ==> forall k :: 0 <= k < |s| ==> s[k] != '@'
  {
    if s == [] then None
    else if s[0] == '@' then Some(0)
    else match FirstAt(s[1..])
      case None => None
      case Some(k) => Some(k + 1)
  }

  /** A deterministic reading of the same pattern: cut at the first `@` and at the last `.`. */
  predicate EmailByCuts(s: string)
  {
    FirstAt(s).Some? && LastDot(s).Some? &&
    var at := FirstAt(s).value;
    var dot := LastDot(s).value;
    0 < at && at + 1 < dot && dot + 1 < |s| &&
    All(s[..at], IsEmailChar) && All(s[at + 1..dot], IsEmailChar) && All(s[dot + 1..], IsWordChar)
  }

  /** An `@` preceded only by local-part characters is the first `@`. */
  lemma FirstAtIs(s: string, at: nat)
    requires at < |s| && s[at] == '@' && All(s[..at], IsEmailChar)
    ensures FirstAt(s) == Some(at)
  {
  }

  /** A `.` followed only by word characters is the last `.`. */
  lemma LastDotIs(s: string, dot: nat)
    requires dot < |s| && s[dot] == '.' && All(s[dot + 1..], IsWordChar)
    ensures LastDot(s) == Some(dot)
  {
  }

  /** The pattern admits only one way to match: the `@` is the first one (the local part holds
      none) and the `.` is the last one (the suffix holds none). */
  lemma EmailMatchesByCuts(s: string)
    ensures EmailMatches(s) <==> EmailByCuts(s)
  {
    if EmailMatches(s) {
      var at, dot :| 0 < at && at + 1 < dot && dot + 1 < |s| &&
        s[at] == '@' && s[dot] == '.' &&
        All(s[..at], IsEmailChar) && All(s[at + 1..dot], IsEmailChar) && All(s[dot + 1..], IsWordChar);
      FirstAtIs(s, at);
      LastDotIs(s, dot);
    }
    if EmailByCuts(s) {
      var at := FirstAt(s).value;
      var dot := LastDot(s).value;
      assert s[at] == '@' && s[dot] == '.';
    }
  }

  /** `/^(?=.*[a-z])(?=.*[A-Z])(?=.*\d)(?=.*[!@#$%^&*]).{6,}$/`: each look-ahead finds its
      character before any line terminator, and `.{6,}$` consumes the whole string. */
  predicate PasswordRegexMatches(p: string)
  {
    (exists i :: 0 <= i < |p| && IsLower(p[i]) && All(p[..i], NotLineTerminator)) &&
    (exists i :: 0 <= i < |p| && IsUpper(p[i]) && All(p[..i], NotLineTerminator)) &&
    (exists i :: 0 <= i < |p| && IsDigit(p[i]) && All(p[..i], NotLineTerminator)) &&
    (exists i :: 0 <= i < |p| && IsPasswordSymbol(p[i]) && All(p[..i], NotLineTerminator)) &&
    |p| >= 6 && All(p, NotLineTerminator)
  }

  /** The password field: `required`, `min(6)` and the strength pattern. */
  predicate PasswordValid(p: string)
    ensures PasswordValid(p) ==> Any(p, IsLower) && Any(p, IsUpper) && Any(p, IsDigit) && Any(p, IsPasswordSymbol)
  {
    p != [] && |p| >= 6 && PasswordRegexMatches(p)
  }

  /** A password passes exactly when it has at least six characters, no line break, and a
      lower-case letter, an upper-case letter, a digit and one of `!@#$%^&*`. */
  lemma PasswordValidIff(p: string)
    ensures PasswordValid(p) <==>
      |p| >= 6 && All(p, NotLineTerminator) &&
      Any(p, IsLower) && Any(p, IsUpper) && Any(p, IsDigit) && Any(p, IsPasswordSymbol)
  {
    if |p| >= 6 && All(p, NotLineTerminator) {
      forall i | 0 <= i < |p|
        ensures All(p[..i], NotLineTerminator)
      {
      }
    }
  }

  /** The username field: trimmed, then `required` and `/^\w{3,}$/`. */
  predicate UsernameValid(raw: string)
    ensures UsernameValid(raw) ==> ' ' !in Trim(Js, raw) && '@' !in Trim(Js, raw)
  {
    var u := Trim(Js, raw);
    u != [] && |u| >= 3 && All(u, IsWordChar)
  }

  /** The email field: trimmed, then `required` and the pattern. */
  predicate EmailValid(raw: string)
    ensures EmailValid(raw) ==> |Trim(Js, raw)| >= 5 && '@' in Trim(Js, raw)
  {
    var e := Trim(Js, raw);
    e != [] && EmailMatches(e)
  }

  datatype LoginForm = LoginForm(email: string, password: string)

  datatype SignupForm = SignupForm(username: string, email: string, password: string, confirmPassword: string)

  predicate LoginFormValid(f: LoginForm)
    ensures LoginFormValid(f) ==> |f.password| >= 6 && '@' in Trim(Js, f.email)
  {
    EmailValid(f.email) && PasswordValid(f.password)
  }

  /** `confirm_password` is `oneOf([ref("password"), null])` and `required`. */
  predicate SignupFormValid(f: SignupForm)
    ensures SignupFormValid(f) ==> f.confirmPassword == f.password && |f.password| >= 6
    ensures SignupFormValid(f) ==> ' ' !in Trim(Js, f.username) && '@' in Trim(Js, f.email)
  {
    UsernameValid(f.username) && EmailValid(f.email) && PasswordValid(f.password) &&
    f.confirmPassword == f.password && f.confirmPassword != []
  }

  const EmptySignup := SignupForm([], [], [], [])

  /** What the server gave back: no response at all, or a status and a body. */
  datatype Response = NoResponse | Response(status: int, data: Object)

  /** `saveLogin` as the page dispatches it. */
  datatype SaveLogin = SaveLogin(accessToken: JsValue, refreshToken: JsValue, user: JsValue)

  datatype Request = LoginRequest(login: LoginForm) | RegisterRequest(signup: SignupForm)

  const LoginSucceeded := "Login successful"
  const InvalidCredentials := "Invalid Credentials"
  const Registered := "New User Registered"

  class Page {
    var isLogin: bool
    var signup: SignupForm
    var submitting: bool
    var requests: seq<Request>
    var dispatched: seq<SaveLogin>
    var toasts: seq<string>
    var navigations: seq<string>

    constructor ()
      ensures isLogin && signup == EmptySignup && !submitting
      ensures requests == [] && dispatched == [] && toasts == [] && navigations == []
    {
      isLogin := true;
      signup := EmptySignup;
      submitting := false;
      requests := [];
      dispatched := [];
      toasts := [];
      navigations := [];
    }

    /** The mount effect: a stored access token sends the visitor home. */
    method Mount(token: JsValue)
      modifies this
      ensures navigations == old(navigations) + (if Truthy(token) then ["/"] else [])
      ensures isLogin == old(isLogin) && signup == old(signup) && requests == old(requests)
      ensures dispatched == old(dispatched) && toasts == old(toasts) && submitting == old(submitting)
    {
      if Truthy(token) {
        navigations := navigations + ["/"];
      }
    }

    /** Submitting the sign-in form. The form library calls `handleLogin` only once the schema
        passes, and sends the values as typed. A 200 stores exactly the reply's tokens and
        user; a rejected request shows the credentials error; other 2xx replies do nothing. */
    method SubmitLogin(form: LoginForm, reply: Response)
      modifies this
      ensures !submitting
      ensures !LoginFormValid(form) ==> requests == old(requests) && dispatched == old(dispatched) && toasts == old(toasts)
      ensures LoginFormValid(form) ==> requests == old(requests) + [LoginRequest(form)]
      ensures LoginFormValid(form) && reply.Response? && reply.status == 200 ==>
        dispatched == old(dispatched) + [SaveLogin(Get(reply.data, "access"), Get(reply.data, "refresh"), Get(reply.data, "user"))] &&
        toasts == old(toasts) + [LoginSucceeded]
      ensures LoginFormValid(form) && (reply.NoResponse? || !UseApi.Resolves(reply.status)) ==>
        dispatched == old(dispatched) && toasts == old(toasts) + [InvalidCredentials]
      ensures LoginFormValid(form) && reply.Response? && UseApi.Resolves(reply.status) && reply.status != 200 ==>
        dispatched == old(dispatched) && toasts == old(toasts)
      ensures isLogin == old(isLogin) && signup == old(signup) && navigations == old(navigations)
    {
      if !LoginFormValid(form) {
        submitting := false;
        return;
      }
      submitting := true;
      requests := requests + [LoginRequest(form)];
      if reply.NoResponse? || !UseApi.Resolves(reply.status) {
        toasts := toasts + [InvalidCredentials];
      } else if reply.status == 200 {
        toasts := toasts + [LoginSucceeded];
        dispatched := dispatched + [SaveLogin(Get(reply.data, "access"), Get(reply.data, "refresh"), Get(reply.data, "user"))];
      }
      submitting := false;
    }

    /** Submitting the sign-up form: only a 201 resets the form and switches to sign-in;
        a failure is only logged. */
    method SubmitSignup(form: SignupForm, reply: Response)
      modifies this
      ensures !submitting
      ensures !SignupFormValid(form) ==> requests == old(requests) && isLogin == old(isLogin) && signup == old(signup) && toasts == old(toasts)
      ensures SignupFormValid(form) ==> requests == old(requests) + [RegisterRequest(form)]
      ensures SignupFormValid(form) && reply.Response? && reply.status == 201 ==>
        isLogin && signup == EmptySignup && toasts == old(toasts) + [Registered]
      ensures SignupFormValid(form) && !(reply.Response? && reply.status == 201) ==>
        isLogin == old(isLogin) && signup == old(signup) && toasts == old(toasts)
      ensures dispatched == old(dispatched) && navigations == old(navigations)
    {
      if !SignupFormValid(form) {
        submitting := false;
        return;
      }
      submitting := true;
      requests := requests + [RegisterRequest(form)];
      if reply.Response? && UseApi.Resolves(reply.status) && reply.status == 201 {
        toasts := toasts + [Registered];
        signup := EmptySignup;
        isLogin := true;
      }
      submitting := false;
    }
  }
}
