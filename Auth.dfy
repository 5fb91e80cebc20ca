/** The auth blueprint: the administrator guard, the Firebase login's user resolution (by uid,
    then by email with the uid linked, then a new user under the first free username), and
    registration with its duplicate check. */
module Auth {
  import opened Common
  import opened Models

  // ---------------------------------------------------------------- admin_required

  /** What a guarded view does: redirect to the login page, or run the view. */
  datatype Guarded<T> = RedirectToLogin | Proceed(value: T)

  /** `admin_required`: the view runs only for an authenticated administrator; the current user is
      `None` when nobody is logged in. */
  function AdminRequired<T>(current: Option<User>, view: T): (r: Guarded<T>)
    ensures r.Proceed? <==> current.Some? && current.value.role == Admin
    ensures r.Proceed? ==> r.value == view
  {
    if current.None? || current.value.role != Admin then RedirectToLogin else Proceed(view)
  }

  /** No role but the administrator's passes, and neither does an anonymous visitor. */
  lemma AdminRequiredRejects<T>(u: User, view: T)
    requires u.role != Admin
    ensures AdminRequired(Some(u), view) == RedirectToLogin
    ensures AdminRequired(None, view) == RedirectToLogin
  {
  }

  // ---------------------------------------------------------------- the unique-username loop

  /** The `k`-th name tried: the base, then the base followed by 1, 2, … */
  function Candidate(base: string, k: nat): string
  {
    if k == 0 then base else base + DecimalString(k)
  }

  lemma {:induction false} DecimalStringInjective(a: nat, b: nat)
    requires DecimalString(a) == DecimalString(b)
    ensures a == b
  {
    var s := DecimalString(a);
    if a >= 10 && b >= 10 {
      assert s[..|s| - 1] == DecimalString(a / 10) && s[..|s| - 1] == DecimalString(b / 10);
      DecimalStringInjective(a / 10, b / 10);
      assert s[|s| - 1] == (48 + a % 10) as char == (48 + b % 10) as char;
    }
  }

  /** Different positions of the sequence give different names. */
  lemma CandidateInjective(base: string, j: nat, k: nat)
    requires Candidate(base, j) == Candidate(base, k)
    ensures j == k
  {
    if j > 0 && k > 0 {
      var c := Candidate(base, j);
      assert c[|base|..] == DecimalString(j) && c[|base|..] == DecimalString(k);
      DecimalStringInjective(j, k);
    }
  }

  /** The names tried before position `k`. */
  function Tried(base: string, k: nat): set<string>
  {
    set j | 0 <= j < k :: Candidate(base, j)
  }

  lemma {:induction false} TriedSize(base: string, k: nat)
    ensures |Tried(base, k)| == k
  {
    if k > 0 {
      TriedSize(base, k - 1);
      assert Tried(base, k) == Tried(base, k - 1) + {Candidate(base, k - 1)};
      if Candidate(base, k - 1) in Tried(base, k - 1) {
        var j :| 0 <= j < k - 1 && Candidate(base, j) == Candidate(base, k - 1);
        CandidateInjective(base, j, k - 1);
      }
    }
  }

  /** If the first `k` names are all taken, there are at least `k` taken names. */
  lemma TakenBound(names: set<string>, base: string, k: nat)
    requires forall j :: 0 <= j < k ==> Candidate(base, j) in names
    ensures k <= |names|
  {
    TriedSize(base, k);
    assert Tried(base, k) <= names;
    SubsetSize(Tried(base, k), names);
  }

  lemma SubsetSize(a: set<string>, b: set<string>)
    requires a <= b
    ensures |a| <= |b|
  {
    assert b == a + (b - a);
  }

  /** The usernames in use. */
  function Names(users: seq<User>): set<string>
  {
    set u | u in users :: u.username
  }

  /** The first name from position `k` on that is not in use. */
  function FreeName(names: set<string>, base: string, k: nat): string
    requires forall j :: 0 <= j < k ==> Candidate(base, j) in names
    decreases |names| - k
  {
    TakenBound(names, base, k);
    if Candidate(base, k) !in names then Candidate(base, k)
    else
      TakenBound(names, base, k + 1);
      FreeName(names, base, k + 1)
  }

  /** The name found is free, and it is the first free one of the sequence base, base1, base2, … */
  lemma {:induction false} FreeNameFirst(names: set<string>, base: string, k: nat)
    requires forall j :: 0 <= j < k ==> Candidate(base, j) in names
    ensures exists n: nat :: k <= n && FreeName(names, base, k) == Candidate(base, n) &&
              Candidate(base, n) !in names && forall j :: 0 <= j < n ==> Candidate(base, j) in names
    decreases |names| - k
  {
    TakenBound(names, base, k);
    if Candidate(base, k) in names {
      TakenBound(names, base, k + 1);
      FreeNameFirst(names, base, k + 1);
    }
  }

  /** `User.query.filter_by(username=…).first()` finds a user. */
  function HasUsername(name: string): User -> bool
  {
    (u: User) => u.username == name
  }

  /** The loop `while User.query.filter_by(username=username).first(): username = f"{base}{count}"; count += 1`. */
  method UniqueUsername(db: Database, email: string) returns (username: string)
    ensures username == FreeName(Names(db.users), Before(email, '@'), 0)
  {
    var base := Before(email, '@');
    ghost var names := Names(db.users);
    username := base;
    var count := 1;
    while First(db.users, HasUsername(username)).Some?
      invariant count >= 1 && username == Candidate(base, count - 1)
      invariant forall j :: 0 <= j < count - 1 ==> Candidate(base, j) in names
      invariant FreeName(names, base, 0) == FreeName(names, base, count - 1)
      decreases |names| - count + 1
    {
      var u := First(db.users, HasUsername(username)).value;
      assert username in names;
      TakenBound(names, base, count);
      username := base + DecimalString(count);
      count := count + 1;
    }
  }

  // ---------------------------------------------------------------- Firebase login

  /** The claims of a verified ID token. */
  datatype Token = Token(uid: string, email: string, name: string)

  datatype LoginResult = InvalidToken | LoggedIn(user: User)

  function HasUid(uid: string): User -> bool
  {
    (u: User) => u.firebaseUid == Some(uid)
  }

  function HasEmail(email: string): User -> bool
  {
    (u: User) => u.email == email
  }

  /** The user a first Firebase login creates: the first free username, the column default role
      (lab technician), no password. */
  function NewFirebaseUser(t: Tables, uid: string, email: string, fullName: string): User
  {
    User(|t.users| + 1, FreeName(Names(t.users), Before(email, '@'), 0), email, None, Some(uid), LabTechnician, fullName, true)
  }

  /** The resolution order of a verified login: a user with the uid is used as is; otherwise the first
      user with the email gets the uid linked; otherwise a new user is added. */
  function ResolveUser(t: Tables, uid: string, email: string, fullName: string): (Tables, User)
  {
    match First(t.users, HasUid(uid))
    case Some(u) => (t, u)
    case None =>
      match FirstIndex(t.users, HasEmail(email))
      case Some(k) =>
        var u := t.users[k].(firebaseUid := Some(uid));
        (t.(users := t.users[k := u]), u)
      case None =>
        var u := NewFirebaseUser(t, uid, email, fullName);
        (t.(users := t.users + [u]), u)
  }

  const DevUid: string := "dev-user-id"
  const DevEmail: string := "developer@example.com"
  const DevName: string := "Developer Account"

  /** The token branch of `login`: `token` is what `verify_firebase_token` returned, `devFallback`
      whether DEBUG is on and FLASK_ENV is 'development'. */
  function FirebaseLogin(t: Tables, token: Option<Token>, devFallback: bool): (Tables, LoginResult)
  {
    if token.None? && !devFallback then (t, InvalidToken)
    else
      var (uid, email, name) := if token.Some? then (token.value.uid, token.value.email, token.value.name)
                                else (DevUid, DevEmail, DevName);
      var (t2, u) := ResolveUser(t, uid, email, name);
      (t2, LoggedIn(u))
  }

  /** An unverified token without the development fallback logs nobody in and changes nothing. */
  lemma FirebaseLoginInvalid(t: Tables, devFallback: bool)
    ensures !devFallback ==> FirebaseLogin(t, None, devFallback) == (t, InvalidToken)
    ensures devFallback ==> FirebaseLogin(t, None, devFallback).1.LoggedIn?
  {
  }

  /** The three cases of the resolution, in order. */
  lemma ResolveUserOrder(t: Tables, uid: string, email: string, fullName: string)
    ensures (exists u :: u in t.users && u.firebaseUid == Some(uid)) ==>
              ResolveUser(t, uid, email, fullName) == (t, First(t.users, HasUid(uid)).value)
    ensures (forall u :: u in t.users ==> u.firebaseUid != Some(uid)) && (exists u :: u in t.users && u.email == email) ==>
              var k := FirstIndex(t.users, HasEmail(email)).value;
              k < |t.users| && t.users[k].email == email && (forall i :: 0 <= i < k ==> t.users[i].email != email) &&
              ResolveUser(t, uid, email, fullName) ==
              (t.(users := t.users[k := t.users[k].(firebaseUid := Some(uid))]), t.users[k].(firebaseUid := Some(uid)))
    ensures (forall u :: u in t.users ==> u.firebaseUid != Some(uid) && u.email != email) ==>
              ResolveUser(t, uid, email, fullName) ==
              (t.(users := t.users + [NewFirebaseUser(t, uid, email, fullName)]), NewFirebaseUser(t, uid, email, fullName))
  {
    if (forall u :: u in t.users ==> u.firebaseUid != Some(uid)) && (exists u :: u in t.users && u.email == email) {
      var u :| u in t.users && u.email == email;
      var i :| 0 <= i < |t.users| && t.users[i] == u;
      assert HasEmail(email)(t.users[i]);
    }
    if forall u :: u in t.users ==> u.firebaseUid != Some(uid) && u.email != email {
      assert forall i :: 0 <= i < |t.users| ==> !HasEmail(email)(t.users[i]);
    }
  }

  /** A created user's username is the first free one of the sequence derived from the email, so it is
      not in use; the user carries the uid and the lab-technician role. */
  lemma NewFirebaseUserFresh(t: Tables, uid: string, email: string, fullName: string)
    ensures NewFirebaseUser(t, uid, email, fullName).username !in Names(t.users)
    ensures exists n: nat :: NewFirebaseUser(t, uid, email, fullName).username == Candidate(Before(email, '@'), n) &&
              forall j :: 0 <= j < n ==> Candidate(Before(email, '@'), j) in Names(t.users)
    ensures NewFirebaseUser(t, uid, email, fullName).role == LabTechnician
  {
    FreeNameFirst(Names(t.users), Before(email, '@'), 0);
  }

  /** Usernames, emails and Firebase uids are unique across users, as the schema's unique columns demand. */
  predicate UniqueAccounts(users: seq<User>)
  {
    forall i, j :: 0 <= i < j < |users| ==>
      users[i].username != users[j].username && users[i].email != users[j].email &&
      (users[i].firebaseUid.Some? ==> users[i].firebaseUid != users[j].firebaseUid)
  }

  /** Linking and creating respect the unique columns: the login never produces a duplicate. */
  lemma ResolveUserKeepsUnique(t: Tables, uid: string, email: string, fullName: string)
    requires UniqueAccounts(t.users)
    ensures UniqueAccounts(ResolveUser(t, uid, email, fullName).0.users)
    ensures ResolveUser(t, uid, email, fullName).1 in ResolveUser(t, uid, email, fullName).0.users
    ensures ResolveUser(t, uid, email, fullName).1.firebaseUid == Some(uid)
  {
    ResolveUserOrder(t, uid, email, fullName);
    if First(t.users, HasUid(uid)).None? {
      var r := FirstIndex(t.users, HasEmail(email));
      if r.Some? {
        var k := r.value;
        var us := t.users[k := t.users[k].(firebaseUid := Some(uid))];
        assert us[k] in us;
        forall i, j | 0 <= i < j < |us|
          ensures us[i].username != us[j].username && us[i].email != us[j].email &&
                  (us[i].firebaseUid.Some? ==> us[i].firebaseUid != us[j].firebaseUid)
        {
          assert HasUid(uid)(t.users[i]) == false && HasUid(uid)(t.users[j]) == false by {
            assert t.users[i] in t.users && t.users[j] in t.users;
          }
        }
      } else {
        var nu := NewFirebaseUser(t, uid, email, fullName);
        NewFirebaseUserFresh(t, uid, email, fullName);
        var us := t.users + [nu];
        forall i, j | 0 <= i < j < |us|
          ensures us[i].username != us[j].username && us[i].email != us[j].email &&
                  (us[i].firebaseUid.Some? ==> us[i].firebaseUid != us[j].firebaseUid)
        {
          if j == |t.users| {
            assert us[i] == t.users[i] && t.users[i] in t.users;
            assert !HasUid(uid)(t.users[i]) && !HasEmail(email)(t.users[i]);
          }
        }
      }
    }
  }

  /** The login keeps user ids keyed: a linked user keeps its id, a created one gets the next. */
  lemma ResolveUserKeyed(t: Tables, uid: string, email: string, fullName: string)
    requires KeyedRows(t.users, UserId)
    ensures KeyedRows(ResolveUser(t, uid, email, fullName).0.users, UserId)
    ensures ResolveUser(t, uid, email, fullName).0 == t.(users := ResolveUser(t, uid, email, fullName).0.users)
  {
    if First(t.users, HasUid(uid)).None? && FirstIndex(t.users, HasEmail(email)).None? {
      KeyedAppend(t.users, UserId, NewFirebaseUser(t, uid, email, fullName));
    }
  }

  /** The token branch of `login`. */
  method FirebaseLoginMethod(db: Database, token: Option<Token>, devFallback: bool) returns (r: LoginResult)
    modifies db
    ensures (db.Snapshot(), r) == FirebaseLogin(old(db.Snapshot()), token, devFallback)
  {
    if token.None? && !devFallback {
      return InvalidToken;
    }
    var uid, email, name := DevUid, DevEmail, DevName;
    if token.Some? {
      uid, email, name := token.value.uid, token.value.email, token.value.name;
    }
    var found := First(db.users, HasUid(uid));
    if found.Some? {
      return LoggedIn(found.value);
    }
    var k := FirstIndex(db.users, HasEmail(email));
    if k.Some? {
      var u := db.users[k.value].(firebaseUid := Some(uid));
      db.users := db.users[k.value := u];
      return LoggedIn(u);
    }
    var username := UniqueUsername(db, email);
    var u := User(|db.users| + 1, username, email, None, Some(uid), LabTechnician, name, true);
    db.users := db.users + [u];
    return LoggedIn(u);
  }

  // ---------------------------------------------------------------- register

  datatype RegisterForm = RegisterForm(username: string, email: string, password: string, fullName: string)

  /** `(User.username == username) | (User.email == email)`. */
  function Clashes(form: RegisterForm): User -> bool
  {
    (u: User) => u.username == form.username || u.email == form.email
  }

  /** `register`: refused when the username or the email is in use; otherwise a doctor is added with the
      hashed password; `firebaseUid` is what the optional Firebase account creation returned. */
  function Register(t: Tables, form: RegisterForm, hashPassword: string -> string, firebaseUid: Option<string>): (Tables, bool)
  {
    if First(t.users, Clashes(form)).Some? then (t, false)
    else
      (t.(users := t.users + [User(|t.users| + 1, form.username, form.email, Some(hashPassword(form.password)),
                                   firebaseUid, Doctor, form.fullName, true)]), true)
  }

  /** Registration is refused exactly on a clash, and a registered user is a doctor. */
  lemma RegisterOutcome(t: Tables, form: RegisterForm, hashPassword: string -> string, firebaseUid: Option<string>)
    ensures !Register(t, form, hashPassword, firebaseUid).1 <==>
              exists u :: u in t.users && (u.username == form.username || u.email == form.email)
    ensures !Register(t, form, hashPassword, firebaseUid).1 ==> Register(t, form, hashPassword, firebaseUid).0 == t
    ensures Register(t, form, hashPassword, firebaseUid).1 ==>
              var us := Register(t, form, hashPassword, firebaseUid).0.users;
              |us| == |t.users| + 1 && us[..|t.users|] == t.users && us[|t.users|].role == Doctor &&
              us[|t.users|].username == form.username && us[|t.users|].email == form.email
  {
    if u :| u in t.users && (u.username == form.username || u.email == form.email) {
      assert Clashes(form)(u);
    }
    var us := Register(t, form, hashPassword, firebaseUid).0.users;
    if Register(t, form, hashPassword, firebaseUid).1 {
      assert us[..|t.users|] == t.users;
    }
  }

  /** Registration keeps usernames and emails unique, given a fresh Firebase uid. */
  lemma RegisterKeepsUnique(t: Tables, form: RegisterForm, hashPassword: string -> string, firebaseUid: Option<string>)
    requires UniqueAccounts(t.users)
    requires firebaseUid.Some? ==> forall u :: u in t.users ==> u.firebaseUid != firebaseUid
    ensures UniqueAccounts(Register(t, form, hashPassword, firebaseUid).0.users)
  {
    var us := Register(t, form, hashPassword, firebaseUid).0.users;
    if Register(t, form, hashPassword, firebaseUid).1 {
      forall i, j | 0 <= i < j < |us|
        ensures us[i].username != us[j].username && us[i].email != us[j].email &&
                (us[i].firebaseUid.Some? ==> us[i].firebaseUid != us[j].firebaseUid)
      {
        if j == |t.users| {
          assert us[i] == t.users[i] && t.users[i] in t.users;
          assert !Clashes(form)(t.users[i]);
        }
      }
    }
  }

  /** A registered user gets the next id. */
  lemma RegisterKeyed(t: Tables, form: RegisterForm, hashPassword: string -> string, firebaseUid: Option<string>)
    requires KeyedRows(t.users, UserId)
    ensures KeyedRows(Register(t, form, hashPassword, firebaseUid).0.users, UserId)
  {
    if Register(t, form, hashPassword, firebaseUid).1 {
      KeyedAppend(t.users, UserId, Register(t, form, hashPassword, firebaseUid).0.users[|t.users|]);
      assert Register(t, form, hashPassword, firebaseUid).0.users ==
             t.users + [Register(t, form, hashPassword, firebaseUid).0.users[|t.users|]];
    }
  }

  method RegisterMethod(db: Database, form: RegisterForm, hashPassword: string -> string, firebaseUid: Option<string>)
    returns (ok: bool)
    modifies db
    ensures (db.Snapshot(), ok) == Register(old(db.Snapshot()), form, hashPassword, firebaseUid)
  {
    if First(db.users, Clashes(form)).Some? {
      return false;
    }
    db.users := db.users + [User(|db.users| + 1, form.username, form.email, Some(hashPassword(form.password)),
                                 firebaseUid, Doctor, form.fullName, true)];
    return true;
  }
}
