/** The custom user manager (accounts/models.py): how a user row is created, with e-mail as
    the required, unique login field, the flag defaults of `create_user` and
    `create_superuser`, and the password stored through `set_password`. */
module AccountModels {
  import opened Base
  import opened Text
  import opened BlogDb

  /** `extra_fields.setdefault(key, value)`: a value the caller supplied is kept. */
  function SetDefault(extra: map<string, bool>, key: string, value: bool): (r: map<string, bool>)
    ensures key in extra ==> r == extra
    ensures key !in extra ==> r == extra[key := value]
    ensures r.Keys == extra.Keys + {key} && r[key] == (if key in extra then extra[key] else value)
  {
    if key in extra then extra else extra[key := value]
  }

  /** The position of the last `@`. */
  function LastAt(s: string): (r: Option<nat>)
    ensures r.Some? ==> r.value < |s| && s[r.value] == '@' && forall j :: r.value < j < |s| ==> s[j] != '@'
    ensures r.None? ==> forall j :: 0 <= j < |s| ==> s[j] != '@'
  {
    if s == [] then None
    else if s[|s| - 1] == '@' then Some(|s| - 1)
    else LastAt(s[..|s| - 1])
  }

  /** The manager's `normalize_email`: the stripped address split at its last `@`, with the
      domain lower-cased; an address without `@` is returned as it came, unstripped. */
  function NormalizeEmail(email: string): (r: string)
    ensures LastAt(Trim(Py, email)).None? ==> r == email
    ensures r == [] <==> email == []
  {
    var t := Trim(Py, email);
    match LastAt(t)
    case None => email
    case Some(i) => t[..i] + "@" + ToLower(t[i + 1..])
  }

  lemma LowerCharKeeps(c: char)
    ensures LowerChar(c) == '@' <==> c == '@'
    ensures IsSpace(Py, LowerChar(c)) <==> IsSpace(Py, c)
    ensures LowerChar(LowerChar(c)) == LowerChar(c)
  {
  }

  /** A string whose ends are not whitespace is its own strip. */
  lemma TrimIdentity(s: string)
    requires s != [] && !IsSpace(Py, s[0]) && !IsSpace(Py, s[|s| - 1])
    ensures Trim(Py, s) == s
  {
    assert TrimStart(Py, s) == s;
  }

  /** A stripped string starts with a character that is not whitespace. */
  lemma TrimFirst(s: string)
    requires Trim(Py, s) != []
    ensures !IsSpace(Py, Trim(Py, s)[0]) && !IsSpace(Py, Trim(Py, s)[|Trim(Py, s)| - 1])
  {
    TrimEndSplits(Py, TrimStart(Py, s));
  }

  /** In `name@low`, with no `@` in `low`, the last `@` is the one after `name`. */
  lemma {:induction false} LastAtSplit(name: string, low: string)
    requires forall j :: 0 <= j < |low| ==> low[j] != '@'
    ensures LastAt(name + "@" + low) == Some(|name|)
  {
    var r := name + "@" + low;
    assert r[|name|] == '@';
    forall j | |name| < j < |r| ensures r[j] != '@' {
      assert r[j] == low[j - |name| - 1];
    }
  }

  /** An address already split as `name@domain`, stripped and with a lower-case domain
      without `@`, is its own normal form. */
  lemma {:induction false} NormalFormFixed(name: string, low: string)
    requires name == [] || !IsSpace(Py, name[0])
    requires low == [] || !IsSpace(Py, low[|low| - 1])
    requires forall j :: 0 <= j < |low| ==> low[j] != '@'
    requires ToLower(low) == low
    ensures NormalizeEmail(name + "@" + low) == name + "@" + low
  {
    var r := name + "@" + low;
    assert r[0] == if name != [] then name[0] else '@';
    assert r[|r| - 1] == if low != [] then low[|low| - 1] else '@';
    TrimIdentity(r);
    LastAtSplit(name, low);
    assert r[..|name|] == name;
    assert r[|name| + 1..] == low;
  }

  /** The lower-cased domain after the last `@` of a stripped address has no `@`, does not end
      in whitespace and lower-cases to itself. */
  lemma {:induction false} DomainPart(t: string, i: nat)
    requires i < |t| && !IsSpace(Py, t[|t| - 1])
    requires forall j :: i < j < |t| ==> t[j] != '@'
    ensures var low := ToLower(t[i + 1..]);
            && (low == [] || !IsSpace(Py, low[|low| - 1]))
            && (forall j :: 0 <= j < |low| ==> low[j] != '@')
            && ToLower(low) == low
  {
    var low := ToLower(t[i + 1..]);
    forall j | 0 <= j < |low| ensures low[j] != '@' && ToLower(low)[j] == low[j] {
      LowerCharKeeps(t[i + 1 + j]);
    }
    if low != [] {
      LowerCharKeeps(t[|t| - 1]);
    }
  }

  /** Normalising an address twice changes nothing more. */
  lemma {:induction false} NormalizeEmailIdempotent(email: string)
    ensures NormalizeEmail(NormalizeEmail(email)) == NormalizeEmail(email)
  {
    var t := Trim(Py, email);
    var k := LastAt(t);
    if k.Some? {
      var i := k.value;
      assert NormalizeEmail(email) == t[..i] + "@" + ToLower(t[i + 1..]);
      TrimFirst(email);
      DomainPart(t, i);
      assert i == 0 || t[..i][0] == t[0];
      NormalFormFixed(t[..i], ToLower(t[i + 1..]));
    }
  }

  /** No two users share an e-mail address, nor a username. */
  predicate UniqueUsers(users: map<UserId, User>)
  {
    forall a, b :: a in users && b in users && a != b ==>
      users[a].email != users[b].email && users[a].username != users[b].username
  }

  /** Every stored user's key is below the next key handed out. */
  predicate KeysBelow(users: map<UserId, User>, next: UserId)
  {
    forall k :: k in users ==> k < next
  }

  predicate EmailTaken(users: map<UserId, User>, email: string)
  {
    exists k :: k in users && users[k].email == email
  }

  predicate UsernameTaken(users: map<UserId, User>, username: string)
  {
    exists k :: k in users && users[k].username == username
  }

  /** The row the unique constraints refuse: a normalised e-mail or a username in use. */
  predicate Clashes(users: map<UserId, User>, email: Option<string>, username: string)
  {
    TruthyString(email) && (EmailTaken(users, NormalizeEmail(email.value)) || UsernameTaken(users, username))
  }

  /** What `set_password` stores: no password gives an unusable one. */
  function Stored(password: Option<string>): (s: Secret)
    ensures s.Unusable? <==> password.None?
  {
    if password.None? then Unusable else Hashed(password.value)
  }

  datatype Created = EmailRequired | IntegrityError | CreatedUser(id: UserId)

  const EmailRequiredMessage := "Email field is required."

  /** `_create_user`: an absent or empty e-mail raises before anything is touched; the row is
      saved once, and the unique e-mail and username columns refuse a duplicate. */
  method CreateUserRow(db: Database, email: Option<string>, password: Option<string>, username: string,
                       extra: map<string, bool>) returns (r: Created)
    modifies db
    requires KeysBelow(db.users, db.nextUserId)
    ensures r == EmailRequired <==> !TruthyString(email)
    ensures r.CreatedUser? ==> r.id == old(db.nextUserId) && db.nextUserId == old(db.nextUserId) + 1
    ensures r.CreatedUser? ==> db.users == old(db.users)[r.id := User(NormalizeEmail(email.value), username, Stored(password), extra)]
    ensures r == IntegrityError <==> Clashes(old(db.users), email, username)
    ensures !r.CreatedUser? ==> db.users == old(db.users) && db.nextUserId == old(db.nextUserId)
    ensures KeysBelow(db.users, db.nextUserId)
    ensures UniqueUsers(old(db.users)) ==> UniqueUsers(db.users)
    ensures db.posts == old(db.posts) && db.follows == old(db.follows) && db.notifications == old(db.notifications)
  {
    if !TruthyString(email) {
      return EmailRequired;
    }
    var e := NormalizeEmail(email.value);
    if EmailTaken(db.users, e) || UsernameTaken(db.users, username) {
      return IntegrityError;
    }
    var id := db.nextUserId;
    db.users := db.users[id := User(e, username, Stored(password), extra)];
    db.nextUserId := id + 1;
    r := CreatedUser(id);
  }

  /** `create_user`: `is_active` defaults to true. */
  method CreateUser(db: Database, email: Option<string>, password: Option<string>, username: string,
                    extra: map<string, bool>) returns (r: Created)
    modifies db
    requires KeysBelow(db.users, db.nextUserId)
    ensures r == EmailRequired <==> !TruthyString(email)
    ensures r.CreatedUser? ==> r.id == old(db.nextUserId)
    ensures r.CreatedUser? ==> db.users == old(db.users)[r.id := User(NormalizeEmail(email.value), username, Stored(password), SetDefault(extra, "is_active", true))]
    ensures r.CreatedUser? ==> db.users[r.id].flags["is_active"] == (if "is_active" in extra then extra["is_active"] else true)
    ensures r == IntegrityError <==> Clashes(old(db.users), email, username)
    ensures !r.CreatedUser? ==> db.users == old(db.users)
    ensures KeysBelow(db.users, db.nextUserId)
    ensures UniqueUsers(old(db.users)) ==> UniqueUsers(db.users)
    ensures db.posts == old(db.posts) && db.follows == old(db.follows) && db.notifications == old(db.notifications)
  {
    r := CreateUserRow(db, email, password, username, SetDefault(extra, "is_active", true));
  }

  /** `create_superuser`: `is_staff` and `is_superuser` default to true. */
  method CreateSuperuser(db: Database, email: Option<string>, password: Option<string>, username: string,
                         extra: map<string, bool>) returns (r: Created)
    modifies db
    requires KeysBelow(db.users, db.nextUserId)
    ensures r == EmailRequired <==> !TruthyString(email)
    ensures r.CreatedUser? ==> r.id == old(db.nextUserId)
    ensures r.CreatedUser? ==> db.users == old(db.users)[r.id := User(NormalizeEmail(email.value), username, Stored(password),
                                                          SetDefault(SetDefault(extra, "is_staff", true), "is_superuser", true))]
    ensures r.CreatedUser? ==> db.users[r.id].flags["is_staff"] == (if "is_staff" in extra then extra["is_staff"] else true)
    ensures r.CreatedUser? ==> db.users[r.id].flags["is_superuser"] == (if "is_superuser" in extra then extra["is_superuser"] else true)
    ensures r == IntegrityError <==> Clashes(old(db.users), email, username)
    ensures !r.CreatedUser? ==> db.users == old(db.users)
    ensures KeysBelow(db.users, db.nextUserId)
    ensures UniqueUsers(old(db.users)) ==> UniqueUsers(db.users)
    ensures db.posts == old(db.posts) && db.follows == old(db.follows) && db.notifications == old(db.notifications)
  {
    r := CreateUserRow(db, email, password, username, SetDefault(SetDefault(extra, "is_staff", true), "is_superuser", true));
  }
}
