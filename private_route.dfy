/** The guard around protected pages (routes/PrivateRoute.jsx): render the children when the
    user is logged in, otherwise redirect home and show the login notice once per mount. */
module PrivateRoute {

  /** What the guard renders. */
  datatype View<C> = Navigate(to: string, replace: bool) | Render(children: C)

  const LoginNotice := "Please login to access this page."

  /** The render decision: a logged-in user gets the children unchanged, anyone else a
      replacing redirect to "/". */
  function Route<C>(isLogin: bool, children: C): (v: View<C>)
    ensures v.Render? <==> isLogin
    ensures isLogin ==> v.children == children
    ensures !isLogin ==> v == Navigate("/", true)
  {
    if !isLogin then Navigate("/", true) else Render(children)
  }

  /** One mounted guard: the `hasShownToast` ref and the notices it has raised. */
  class Guard {
    var hasShownToast: bool
    var toasts: seq<string>

    /** The flag is set exactly when the one notice has been shown. */
    predicate Valid()
      reads this
    {
      (if hasShownToast then toasts == [LoginNotice] else toasts == [])
    }

    constructor ()
      ensures Valid() && !hasShownToast && toasts == []
    {
      hasShownToast := false;
      toasts := [];
    }

    /** The effect that runs when `is_login` changes: one notice while logged out and not yet
        shown, and the flag is never cleared. */
    method Effect(isLogin: bool)
      requires Valid()
      modifies this
      ensures Valid()
      ensures hasShownToast == (old(hasShownToast) || !isLogin)
      ensures toasts == old(toasts) + (if !isLogin && !old(hasShownToast) then [LoginNotice] else [])
      ensures |toasts| <= 1
    {
      if !isLogin && !hasShownToast {
        toasts := toasts + [LoginNotice];
        hasShownToast := true;
      }
    }
  }

  /** However the login state changes across re-renders, one mount shows the notice at most
      once, and shows it exactly when some run saw the user logged out. */
  method EffectRuns(g: Guard, logins: seq<bool>)
    requires g.Valid() && !g.hasShownToast
    modifies g
    ensures g.Valid()
    ensures g.toasts == (if false in logins then [LoginNotice] else [])
  {
    var i := 0;
    while i < |logins|
      invariant 0 <= i <= |logins|
      invariant g.Valid()
      invariant g.hasShownToast <==> false in logins[..i]
    {
      g.Effect(logins[i]);
      assert logins[..i + 1] == logins[..i] + [logins[i]];
      i := i + 1;
    }
    assert logins[..i] == logins;
  }
}
