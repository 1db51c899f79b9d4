/** The `/api/auth` routes: registration and login. Hashing a PIN and
    comparing a PIN with a hash are the parameters `hash` and `matches`
    (bcrypt with a random salt in the application); the fresh document id
    is the parameter `newId`. */
module AuthRoutes {
  import opened Js
  import opened Text
  import opened Records
  import opened Http

  /** The body of `POST /api/auth/register`. */
  datatype RegisterRequest = RegisterRequest(
    username: Option<string>,
    pin: Option<string>,
    firstName: Option<string>,
    lastName: Option<string>,
    initialBalance: NumInput,
    dailySpendingLimit: NumInput)

  /** The body of `POST /api/auth/login`. */
  datatype LoginRequest = LoginRequest(username: Option<string>, pin: Option<string>)

  /** The username check of registration: 8 to 12 characters once trimmed. */
  predicate UsernameAccepted(username: Option<string>)
  {
    Truthy(username) && UsernameMinLength <= |Trim(username.value)| <= UsernameMaxLength
  }

  /** The PIN check of registration: 4 to 6 ASCII digits and nothing else. */
  predicate PinAccepted(pin: Option<string>)
  {
    Truthy(pin) && IsPinFormat(pin.value)
  }

  /** `Number(dailySpendingLimit) || 1000`: a missing, non-numeric or zero
      limit becomes the default. */
  function LimitOrDefault(x: NumInput): (r: int)
    ensures ToNumber(x).Some? && ToNumber(x).value != 0 ==> r == ToNumber(x).value
    ensures ToNumber(x).None? || ToNumber(x) == Some(0) ==> r == DefaultDailySpendingLimit
  {
    match ToNumber(x)
    case Some(n) => if n != 0 then n else DefaultDailySpendingLimit
    case None => DefaultDailySpendingLimit
  }

  /** Every registration check passes: the request is well formed, its
      username is free and its initial balance is a number (not missing,
      not null, not something `Number` turns into NaN). */
  predicate Admitted(db: Store, req: RegisterRequest)
  {
    && UsernameAccepted(req.username) && PinAccepted(req.pin)
    && Truthy(req.firstName) && Truthy(req.lastName)
    && FindByUsername(db.users, NormalizeUsername(req.username.value)).None?
    && req.initialBalance.Num?
  }

  /** The user document registration creates from an admitted request. */
  function NewUser(req: RegisterRequest, hash: string -> string, newId: string): (u: User)
    requires UsernameAccepted(req.username) && PinAccepted(req.pin)
    requires Truthy(req.firstName) && Truthy(req.lastName)
    requires ToNumber(req.initialBalance).Some?
    ensures u.id == newId && u.pin == hash(req.pin.value)
    ensures u.username == NormalizeUsername(req.username.value)
    ensures u.initialBalance == ToNumber(req.initialBalance).value
    ensures u.dailySpendingLimit == LimitOrDefault(req.dailySpendingLimit)
    ensures u.firstName == Trim(req.firstName.value) && u.lastName == Trim(req.lastName.value)
  {
    User(newId, NormalizeUsername(req.username.value),
         Trim(req.firstName.value), Trim(req.lastName.value),
         ToNumber(req.initialBalance).value,
         LimitOrDefault(req.dailySpendingLimit), hash(req.pin.value))
  }

  /** The new user satisfies the schema when its PIN hash is not empty:
      the stored username is 8 to 12 characters, trimmed and lower-case,
      and the names are trimmed. */
  lemma NewUserValid(req: RegisterRequest, hash: string -> string, newId: string)
    requires UsernameAccepted(req.username) && PinAccepted(req.pin)
    requires Truthy(req.firstName) && Truthy(req.lastName)
    requires ToNumber(req.initialBalance).Some?
    requires hash(req.pin.value) != ""
    ensures ValidUser(NewUser(req, hash, newId))
  {
    var u := NewUser(req, hash, newId);
    NormalizeIsLowerOfTrim(req.username.value);
    assert UsernameMinLength <= |u.username| <= UsernameMaxLength;
    NormalizeIsNormal(req.username.value);
  }

  /** `POST /register`. The checks run in order (username, PIN, names,
      initial balance, duplicate username) and the first that fails answers
      400. A non-numeric initial balance, or a PIN hash the schema would
      refuse, fails in the store: 500. Otherwise the user is stored with the
      username trimmed and lower-cased, the names trimmed and the PIN
      hashed, and the public view is answered with 201. */
  function Register(db: Store, req: RegisterRequest, hash: string -> string, newId: string): (out: (Response, Store))
    ensures !UsernameAccepted(req.username)
        <==> out.0 == Error(BAD_REQUEST, "Username must be 8-12 characters")
    ensures UsernameAccepted(req.username) && !PinAccepted(req.pin)
        <==> out.0 == Error(BAD_REQUEST, "PIN must be 4-6 digits")
    ensures UsernameAccepted(req.username) && PinAccepted(req.pin)
        && (!Truthy(req.firstName) || !Truthy(req.lastName))
        <==> out.0 == Error(BAD_REQUEST, "First and Last name are required")
    ensures UsernameAccepted(req.username) && PinAccepted(req.pin)
        && Truthy(req.firstName) && Truthy(req.lastName)
        && (req.initialBalance.Undefined? || req.initialBalance.Null?)
        <==> out.0 == Error(BAD_REQUEST, "Initial balance is required")
    ensures UsernameAccepted(req.username) && PinAccepted(req.pin)
        && Truthy(req.firstName) && Truthy(req.lastName)
        && !(req.initialBalance.Undefined? || req.initialBalance.Null?)
        && FindByUsername(db.users, NormalizeUsername(req.username.value)).Some?
        <==> out.0 == Error(BAD_REQUEST, "Username already exists")
    ensures UsernameAccepted(req.username) && PinAccepted(req.pin)
        && Truthy(req.firstName) && Truthy(req.lastName)
        && !(req.initialBalance.Undefined? || req.initialBalance.Null?)
        && FindByUsername(db.users, NormalizeUsername(req.username.value)).None?
        && (req.initialBalance.NonNumeric? || hash(req.pin.value) == "")
        <==> out.0 == Error(SERVER_ERROR, "Server error during registration")
    ensures out.0.status in {CREATED, BAD_REQUEST, SERVER_ERROR}
    ensures out.0.status != CREATED ==> out.1 == db
    ensures out.0.status == CREATED <==> Admitted(db, req) && hash(req.pin.value) != ""
    ensures out.0.status == CREATED ==>
      && out.1 == db.(users := db.users + [NewUser(req, hash, newId)])
      && out.0 == Response(CREATED, UserBody(ToPublic(NewUser(req, hash, newId))))
  {
    if !UsernameAccepted(req.username) then
      (Error(BAD_REQUEST, "Username must be 8-12 characters"), db)
    else if !PinAccepted(req.pin) then
      (Error(BAD_REQUEST, "PIN must be 4-6 digits"), db)
    else if !Truthy(req.firstName) || !Truthy(req.lastName) then
      (Error(BAD_REQUEST, "First and Last name are required"), db)
    else if req.initialBalance.Undefined? || req.initialBalance.Null? then
      (Error(BAD_REQUEST, "Initial balance is required"), db)
    else if FindByUsername(db.users, NormalizeUsername(req.username.value)).Some? then
      (Error(BAD_REQUEST, "Username already exists"), db)
    else if ToNumber(req.initialBalance).None? || hash(req.pin.value) == "" then
      (Error(SERVER_ERROR, "Server error during registration"), db)
    else
      var u := NewUser(req, hash, newId);
      (Response(CREATED, UserBody(ToPublic(u))), db.(users := db.users + [u]))
  }

  /** Registration keeps the store valid when the new id is fresh: the
      new user satisfies the schema and no two users end up with the same
      username. */
  lemma RegisterPreservesValidStore(db: Store, req: RegisterRequest, hash: string -> string, newId: string)
    requires ValidStore(db)
    requires forall i :: 0 <= i < |db.users| ==> db.users[i].id != newId
    ensures ValidStore(Register(db, req, hash, newId).1)
  {
    if Register(db, req, hash, newId).0.status == CREATED {
      var u := NewUser(req, hash, newId);
      NewUserValid(req, hash, newId);
      assert forall i :: 0 <= i < |db.users| ==> db.users[i].username != u.username;
      AddUserPreservesValidStore(db, u);
    }
  }

  /** Appending a valid user whose id and username are both new keeps the
      store valid. */
  lemma AddUserPreservesValidStore(db: Store, u: User)
    requires ValidStore(db) && ValidUser(u)
    requires forall i :: 0 <= i < |db.users| ==> db.users[i].id != u.id
    requires forall i :: 0 <= i < |db.users| ==> db.users[i].username != u.username
    ensures ValidStore(db.(users := db.users + [u]))
  {
    var users := db.users + [u];
    forall i, j | 0 <= i < j < |users|
      ensures users[i].id != users[j].id
      ensures users[i].username != users[j].username
    {
      assert users[i] == db.users[i];
    }
    forall i | 0 <= i < |users|
      ensures ValidUser(users[i])
    {
      if i < |db.users| {
        assert users[i] == db.users[i];
      } else {
        assert users[i] == u;
      }
    }
  }

  /** Usernames that differ only in letter case or surrounding white space
      are the same account: once one is registered, the other is refused. */
  lemma CaseVariantRefused(db: Store, req: RegisterRequest, other: string,
                           hash: string -> string, newId: string, newId2: string)
    requires Register(db, req, hash, newId).0.status == CREATED
    requires NormalizeUsername(other) == NormalizeUsername(req.username.value)
    requires other != ""
    ensures Register(Register(db, req, hash, newId).1, req.(username := Some(other)), hash, newId2).0
         == Error(BAD_REQUEST, "Username already exists")
  {
    var u := NewUser(req, hash, newId);
    var db' := db.(users := db.users + [u]);
    assert Register(db, req, hash, newId).1 == db';
    NormalizeIsLowerOfTrim(other);
    NormalizeIsLowerOfTrim(req.username.value);
    assert u in db'.users;
    FindByUsernameFinds(db'.users, u);
    var req2 := req.(username := Some(other));
    assert UsernameAccepted(req2.username);
  }

  /** A lookup by a username some user has finds a user. */
  lemma {:induction false} FindByUsernameFinds(users: seq<User>, u: User)
    requires u in users
    ensures FindByUsername(users, u.username).Some?
  {
    if users[0] != u {
      FindByUsernameFinds(users[1..], u);
    }
  }

  /** `POST /login`. Both fields are required (400); an unknown username
      and a wrong PIN get the same 401; otherwise the stored user's public
      view. The username is looked up trimmed and lower-cased, like at
      registration. */
  function Login(db: Store, req: LoginRequest, matches: (string, string) -> bool): (r: Response)
    ensures !Truthy(req.username) || !Truthy(req.pin)
        <==> r == Error(BAD_REQUEST, "Username and PIN are required")
    ensures Truthy(req.username) && Truthy(req.pin)
        && (match FindByUsername(db.users, NormalizeUsername(req.username.value))
            case None => true
            case Some(u) => !matches(req.pin.value, u.pin))
        <==> r == Error(UNAUTHORIZED, "Invalid username or PIN")
    ensures r.status == OK ==>
      && Truthy(req.username) && Truthy(req.pin)
      && var found := FindByUsername(db.users, NormalizeUsername(req.username.value));
      && found.Some? && matches(req.pin.value, found.value.pin)
      && r.body == UserBody(ToPublic(found.value))
    ensures r.status in {OK, BAD_REQUEST, UNAUTHORIZED}
  {
    if !Truthy(req.username) || !Truthy(req.pin) then
      Error(BAD_REQUEST, "Username and PIN are required")
    else match FindByUsername(db.users, NormalizeUsername(req.username.value))
      case None => Error(UNAUTHORIZED, "Invalid username or PIN")
      case Some(u) =>
        if !matches(req.pin.value, u.pin) then Error(UNAUTHORIZED, "Invalid username or PIN")
        else Response(OK, UserBody(ToPublic(u)))
  }

  /** A lookup in a store with one more user finds the new user when no
      earlier user had its username. */
  lemma {:induction false} FindByUsernameAppended(users: seq<User>, u: User)
    requires FindByUsername(users, u.username).None?
    ensures FindByUsername(users + [u], u.username) == Some(u)
  {
    if users == [] {
      assert users + [u] == [u];
    } else {
      assert (users + [u])[1..] == users[1..] + [u];
      FindByUsernameAppended(users[1..], u);
    }
  }

  /** Register, then log in: with any spelling of the username that
      normalises to the same name and the registered PIN, login succeeds
      and answers the very view registration did. */
  lemma RegisterThenLogin(db: Store, req: RegisterRequest, hash: string -> string,
                          matches: (string, string) -> bool, newId: string, typed: string)
    requires forall p :: matches(p, hash(p))
    requires Register(db, req, hash, newId).0.status == CREATED
    requires NormalizeUsername(typed) == NormalizeUsername(req.username.value)
    requires typed != ""
    ensures var r := Login(Register(db, req, hash, newId).1, LoginRequest(Some(typed), req.pin), matches);
      r.status == OK && r.body == Register(db, req, hash, newId).0.body
  {
    var out := Register(db, req, hash, newId);
    assert Admitted(db, req);
    var u := NewUser(req, hash, newId);
    assert out.1.users == db.users + [u] && out.0.body == UserBody(ToPublic(u));
    FindByUsernameAppended(db.users, u);
    LoginFindsUser(out.1, typed, req.pin.value, matches, u);
  }

  /** Login with a name that finds a user and a PIN that matches answers
      that user's public view. */
  lemma LoginFindsUser(db: Store, typed: string, pin: string, matches: (string, string) -> bool, u: User)
    requires typed != "" && pin != ""
    requires FindByUsername(db.users, NormalizeUsername(typed)) == Some(u)
    requires matches(pin, u.pin)
    ensures Login(db, LoginRequest(Some(typed), Some(pin)), matches) == Response(OK, UserBody(ToPublic(u)))
  {
  }

  /** A failed login does not reveal whether the username exists: the
      answer for an unknown username equals the answer for a known one with
      a wrong PIN. */
  lemma LoginFailuresIndistinguishable(db: Store, unknown: LoginRequest, wrongPin: LoginRequest,
                                       matches: (string, string) -> bool)
    requires Truthy(unknown.username) && Truthy(unknown.pin)
    requires FindByUsername(db.users, NormalizeUsername(unknown.username.value)).None?
    requires Truthy(wrongPin.username) && Truthy(wrongPin.pin)
    requires var found := FindByUsername(db.users, NormalizeUsername(wrongPin.username.value));
      found.Some? && !matches(wrongPin.pin.value, found.value.pin)
    ensures Login(db, unknown, matches) == Login(db, wrongPin, matches)
    ensures Login(db, unknown, matches).status == UNAUTHORIZED
  {
  }
}
