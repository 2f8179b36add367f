/** Registration and login on the server (accounts/serializers.py): the field checks that run
    first, then the serializer's own `validate`, then the user row the manager creates. */
module AccountSerializers {
  import opened Base
  import opened Text
  import opened BlogDb
  import AccountModels
  import Login

  /** A required character field after the field layer: absent, blank once stripped, or its
      stripped value. */
  datatype Field = Missing | Blank | Value(text: string)

  /** A required `CharField` (and `EmailField`): surrounding whitespace is stripped and an
      empty result is refused. */
  function CharField(raw: Option<string>): (f: Field)
    ensures raw.None? <==> f == Missing
    ensures f.Value? ==> f.text == Trim(Py, raw.value) && f.text != []
    ensures raw.Some? && Trim(Py, raw.value) == [] <==> f == Blank
  {
    if raw.None? then Missing
    else if Trim(Py, raw.value) == [] then Blank
    else Value(Trim(Py, raw.value))
  }

  const PasswordMinLength := 8

  datatype RegisterData = RegisterData(username: Option<string>, email: Option<string>,
                                       password: Option<string>, confirmPassword: Option<string>)

  /** How the uniqueness of the e-mail is checked before the row is created: as written, the
      address as sent; evidently intended, the address the manager will store. */
  datatype EmailCheck = ExactEmail | NormalizedEmail

  function EmailKey(check: EmailCheck, email: string): string
  {
    if check == ExactEmail then email else AccountModels.NormalizeEmail(email)
  }

  /** The fields the field layer refuses: any field absent or blank, a username or an e-mail
      already in use, an e-mail that is not an address, a password under eight characters. */
  function RegisterFieldErrors(users: map<UserId, User>, d: RegisterData, wellFormed: bool, check: EmailCheck): (errs: set<string>)
    ensures errs <= {"username", "email", "password", "confirm_password"}
    ensures "confirm_password" in errs <==> !CharField(d.confirmPassword).Value?
    ensures "password" in errs <==> !CharField(d.password).Value? || |CharField(d.password).text| < PasswordMinLength
    ensures "email" in errs <==> !CharField(d.email).Value? || !wellFormed ||
                                 AccountModels.EmailTaken(users, EmailKey(check, CharField(d.email).text))
    ensures "username" in errs <==> !CharField(d.username).Value? || AccountModels.UsernameTaken(users, CharField(d.username).text)
  {
    var u := CharField(d.username);
    var e := CharField(d.email);
    var p := CharField(d.password);
    var c := CharField(d.confirmPassword);
    (if !u.Value? || AccountModels.UsernameTaken(users, u.text) then {"username"} else {}) +
    (if !e.Value? || !wellFormed || AccountModels.EmailTaken(users, EmailKey(check, e.text)) then {"email"} else {}) +
    (if !p.Value? || |p.text| < PasswordMinLength then {"password"} else {}) +
    (if !c.Value? then {"confirm_password"} else {})
  }

  datatype RegisterOutcome = FieldErrors(fields: set<string>) | PasswordsDiffer | Registered | ServerError

  /** What `UserRegisterView.post` answers: field errors first, then the password mismatch of
      `validate`, then the manager's create, whose unique columns may still refuse the row. */
  function RegisterOutcomeOf(users: map<UserId, User>, d: RegisterData, wellFormed: bool, check: EmailCheck): (r: RegisterOutcome)
    ensures r.FieldErrors? <==> RegisterFieldErrors(users, d, wellFormed, check) != {}
    ensures r.FieldErrors? ==> r.fields == RegisterFieldErrors(users, d, wellFormed, check)
    ensures r == PasswordsDiffer <==> RegisterFieldErrors(users, d, wellFormed, check) == {} &&
                                      CharField(d.password) != CharField(d.confirmPassword)
  {
    var errs := RegisterFieldErrors(users, d, wellFormed, check);
    if errs != {} then FieldErrors(errs)
    else if CharField(d.password).text != CharField(d.confirmPassword).text then PasswordsDiffer
    else if AccountModels.Clashes(users, Some(CharField(d.email).text), CharField(d.username).text) then ServerError
    else Registered
  }

  /** With the check on the stored form of the address, the unique columns never refuse a row
      the serializer let through. */
  lemma IntendedNeverServerError(users: map<UserId, User>, d: RegisterData, wellFormed: bool)
    ensures RegisterOutcomeOf(users, d, wellFormed, NormalizedEmail) != ServerError
  {
  }

  /** The manager stores `amy@X.io` as `amy@x.io`. */
  lemma {:induction false} NormalizesDomain()
    ensures AccountModels.NormalizeEmail("amy@X.io") == "amy@x.io"
  {
    AccountModels.TrimIdentity("amy@X.io");
    AccountModels.LastAtSplit("amy", "X.io");
    assert "amy" + "@" + "X.io" == "amy@X.io";
    assert "amy@X.io"[..3] == "amy" && "amy@X.io"[4..] == "X.io";
    assert ToLower("X.io") == "x.io";
  }

  /** A request whose fields are already stripped passes the field layer when no user has
      the exact address or the username. */
  lemma {:induction false} FieldsPass(users: map<UserId, User>, d: RegisterData)
    requires d.username.Some? && d.email.Some? && d.password.Some? && d.confirmPassword == d.password
    requires Trim(Py, d.username.value) == d.username.value != []
    requires Trim(Py, d.email.value) == d.email.value != []
    requires Trim(Py, d.password.value) == d.password.value && |d.password.value| >= PasswordMinLength
    requires !AccountModels.EmailTaken(users, d.email.value) && !AccountModels.UsernameTaken(users, d.username.value)
    ensures RegisterFieldErrors(users, d, true, ExactEmail) == {}
  {
  }

  /** As written, an address already registered with a lower-case domain is let through when
      sent with an upper-case domain, and the create then fails on the unique column. */
  lemma AsWrittenDomainCaseServerError(users: map<UserId, User>, d: RegisterData)
    requires users == map[1 := User("amy@x.io", "amy", Hashed("Secret123"), map[])]
    requires d == RegisterData(Some("bob"), Some("amy@X.io"), Some("Secret123"), Some("Secret123"))
    ensures RegisterOutcomeOf(users, d, true, ExactEmail) == ServerError
  {
    AccountModels.TrimIdentity(d.username.value);
    AccountModels.TrimIdentity(d.email.value);
    AccountModels.TrimIdentity(d.password.value);
    assert !AccountModels.EmailTaken(users, d.email.value);
    FieldsPass(users, d);
    NormalizesDomain();
    assert users[1].email == AccountModels.NormalizeEmail(d.email.value);
  }

  /** `UserRegisterView.post` with the serializer as written: `confirm_password` is dropped and
      the rest goes to `create_user`. */
  method Register(db: Database, d: RegisterData, wellFormed: bool) returns (r: RegisterOutcome)
    modifies db
    requires AccountModels.KeysBelow(db.users, db.nextUserId)
    ensures r == RegisterOutcomeOf(old(db.users), d, wellFormed, ExactEmail)
    ensures r == Registered ==>
      db.users == old(db.users)[old(db.nextUserId) := User(AccountModels.NormalizeEmail(CharField(d.email).text),
                                                          CharField(d.username).text,
                                                          Hashed(CharField(d.password).text),
                                                          map["is_active" := true])]
    ensures r != Registered ==> db.users == old(db.users)
    ensures AccountModels.UniqueUsers(old(db.users)) ==> AccountModels.UniqueUsers(db.users)
    ensures AccountModels.KeysBelow(db.users, db.nextUserId)
    ensures db.posts == old(db.posts) && db.follows == old(db.follows) && db.notifications == old(db.notifications)
  {
    var errs := RegisterFieldErrors(db.users, d, wellFormed, ExactEmail);
    if errs != {} {
      return FieldErrors(errs);
    }
    var password := CharField(d.password).text;
    if password != CharField(d.confirmPassword).text {
      return PasswordsDiffer;
    }
    var created := AccountModels.CreateUser(db, Some(CharField(d.email).text), Some(password),
                                            CharField(d.username).text, map[]);
    r := if created.CreatedUser? then Registered else ServerError;
  }

  /** The client accepts a six-character password that the server then refuses. */
  lemma ClientMinimumBelowServer(users: map<UserId, User>, username: string, email: string)
    ensures Login.PasswordValid("aB1!xy")
    ensures var d := RegisterData(Some(username), Some(email), Some("aB1!xy"), Some("aB1!xy"));
            "password" in RegisterFieldErrors(users, d, true, ExactEmail)
  {
    var p := "aB1!xy";
    assert IsLower(p[0]) && IsUpper(p[1]) && IsDigit(p[2]) && Login.IsPasswordSymbol(p[3]);
    assert Login.All(p[..0], Login.NotLineTerminator);
    assert Login.All(p[..1], Login.NotLineTerminator);
    assert Login.All(p[..2], Login.NotLineTerminator);
    assert Login.All(p[..3], Login.NotLineTerminator);
    AccountModels.TrimIdentity(p);
  }

  // ---------------------------------------------------------------- login

  datatype LoginData = LoginData(email: Option<string>, password: Option<string>)

  datatype LoginOutcome = FieldsRefused(fields: set<string>) | CredentialsRequired | InvalidEmail
                        | PasswordIncorrect | LoggedIn(id: UserId)

  const CredentialsRequiredMessage := "Email and password are required."
  const InvalidEmailMessage := "Invalid email"
  const PasswordIncorrectMessage := "password is incorrect"

  function LoginFieldErrors(d: LoginData, wellFormed: bool): (errs: set<string>)
    ensures "email" in errs <==> !CharField(d.email).Value? || !wellFormed
    ensures "password" in errs <==> !CharField(d.password).Value?
    ensures errs <= {"email", "password"}
  {
    (if !CharField(d.email).Value? || !wellFormed then {"email"} else {}) +
    (if !CharField(d.password).Value? then {"password"} else {})
  }

  /** What `authenticate` accepts: the stored password matches and the account is active
      (an absent flag is the column's default, active). */
  predicate Authenticates(u: User, password: string)
  {
    u.password == Hashed(password) && (("is_active" in u.flags) ==> u.flags["is_active"])
  }

  /** `UserLoginView.post`: the field layer, then `validate`'s three checks in order. The
      lookups match the address exactly as sent. */
  method LogIn(db: Database, d: LoginData, wellFormed: bool) returns (r: LoginOutcome)
    ensures LoginFieldErrors(d, wellFormed) != {} <==> r.FieldsRefused?
    ensures r.FieldsRefused? ==> r.fields == LoginFieldErrors(d, wellFormed)
    ensures r != CredentialsRequired
    ensures r == InvalidEmail <==> LoginFieldErrors(d, wellFormed) == {} &&
                                   !AccountModels.EmailTaken(db.users, CharField(d.email).text)
    ensures r == PasswordIncorrect <==>
      && LoginFieldErrors(d, wellFormed) == {}
      && AccountModels.EmailTaken(db.users, CharField(d.email).text)
      && forall k :: k in db.users && db.users[k].email == CharField(d.email).text ==>
           !Authenticates(db.users[k], CharField(d.password).text)
    ensures r.LoggedIn? ==>
      && LoginFieldErrors(d, wellFormed) == {}
      && r.id in db.users
      && db.users[r.id].email == CharField(d.email).text
      && Authenticates(db.users[r.id], CharField(d.password).text)
  {
    var errs := LoginFieldErrors(d, wellFormed);
    if errs != {} {
      return FieldsRefused(errs);
    }
    var email := CharField(d.email).text;
    var password := CharField(d.password).text;
    if email == [] || password == [] {
      return CredentialsRequired;
    }
    if !AccountModels.EmailTaken(db.users, email) {
      return InvalidEmail;
    }
    if exists k :: k in db.users && db.users[k].email == email && Authenticates(db.users[k], password) {
      var k :| k in db.users && db.users[k].email == email && Authenticates(db.users[k], password);
      return LoggedIn(k);
    }
    return PasswordIncorrect;
  }
}
