/** `PUT /api/users/:id`: the profile update. Only the names and the two
    numeric settings can change; a field left out of the request keeps its
    stored value. */
module UserRoutes {
  import opened Js
  import opened Text
  import opened Records
  import opened Http

  /** The body of the profile update. */
  datatype UpdateRequest = UpdateRequest(
    firstName: Option<string>,
    lastName: Option<string>,
    initialBalance: NumInput,
    dailySpendingLimit: NumInput)

  /** A truthy name replaces the stored one, trimmed; any other value
      leaves it alone. */
  function UpdatedName(stored: string, given: Option<string>): (r: string)
    ensures Truthy(given) ==> r == Trim(given.value)
    ensures !Truthy(given) ==> r == stored
    ensures IsTrimmed(stored) ==> IsTrimmed(r)
  {
    if Truthy(given) then Trim(given.value) else stored
  }

  /** A numeric setting other than `undefined` is replaced by its `Number`
      value (so `null` gives 0); a value that is NaN is refused by the
      schema's cast. `None` is that refusal. */
  function UpdatedNumber(stored: int, given: NumInput): (r: Option<int>)
    ensures given.Undefined? ==> r == Some(stored)
    ensures given.Null? ==> r == Some(0)
    ensures given.Num? ==> r == Some(given.n)
    ensures r.None? <==> given.NonNumeric?
  {
    if given.Undefined? then Some(stored) else ToNumber(given)
  }

  /** The user document `save` writes back, or `None` when a numeric field
      cannot be cast. */
  function ApplyUpdate(u: User, req: UpdateRequest): (r: Option<User>)
    ensures r.None? <==> req.initialBalance.NonNumeric? || req.dailySpendingLimit.NonNumeric?
    ensures r.Some? ==>
      && r.value.id == u.id && r.value.username == u.username && r.value.pin == u.pin
      && r.value.firstName == UpdatedName(u.firstName, req.firstName)
      && r.value.lastName == UpdatedName(u.lastName, req.lastName)
      && Some(r.value.initialBalance) == UpdatedNumber(u.initialBalance, req.initialBalance)
      && Some(r.value.dailySpendingLimit) == UpdatedNumber(u.dailySpendingLimit, req.dailySpendingLimit)
    ensures r.Some? && ValidUser(u) ==> ValidUser(r.value)
  {
    match (UpdatedNumber(u.initialBalance, req.initialBalance),
           UpdatedNumber(u.dailySpendingLimit, req.dailySpendingLimit))
    case (Some(balance), Some(limit)) =>
      Some(u.(firstName := UpdatedName(u.firstName, req.firstName),
              lastName := UpdatedName(u.lastName, req.lastName),
              initialBalance := balance,
              dailySpendingLimit := limit))
    case _ => None
  }

  /** The profile update: 400 for a malformed id, 404 for an unknown user,
      500 when a numeric field is not a number; otherwise the updated user
      replaces the stored one and its public view is answered. */
  function UpdateUser(db: Store, id: string, req: UpdateRequest, isValidId: string -> bool): (out: (Response, Store))
    ensures !isValidId(id) <==> out.0 == Error(BAD_REQUEST, "Invalid User ID")
    ensures isValidId(id) && FindUser(db.users, id).None? <==> out.0 == Error(NOT_FOUND, "User not found")
    ensures isValidId(id) && FindUser(db.users, id).Some? && ApplyUpdate(FindUser(db.users, id).value, req).None?
        <==> out.0 == Error(SERVER_ERROR, "Error updating profile")
    ensures out.0.status in {OK, BAD_REQUEST, NOT_FOUND, SERVER_ERROR}
    ensures out.0.status != OK ==> out.1 == db
    ensures out.0.status == OK <==>
      isValidId(id) && FindUser(db.users, id).Some? && ApplyUpdate(FindUser(db.users, id).value, req).Some?
    ensures out.0.status == OK ==>
      && var u' := ApplyUpdate(FindUser(db.users, id).value, req).value;
      && out.1 == db.(users := ReplaceUser(db.users, u'))
      && out.0.body == UserBody(ToPublic(u'))
  {
    if !isValidId(id) then (Error(BAD_REQUEST, "Invalid User ID"), db)
    else match FindUser(db.users, id)
      case None => (Error(NOT_FOUND, "User not found"), db)
      case Some(u) =>
        match ApplyUpdate(u, req)
        case None => (Error(SERVER_ERROR, "Error updating profile"), db)
        case Some(u') => (Response(OK, UserBody(ToPublic(u'))), db.(users := ReplaceUser(db.users, u')))
  }

  /** Rewriting one user with a valid document that keeps its id and
      username keeps the users collection valid. */
  lemma ReplaceUserPreservesValidUsers(users: seq<User>, k: int, u: User)
    requires ValidUsers(users)
    requires 0 <= k < |users|
    requires u.id == users[k].id && u.username == users[k].username
    requires ValidUser(u)
    ensures ValidUsers(ReplaceUser(users, u))
  {
    ReplaceUserAt(users, k, u);
    var users' := users[k := u];
    forall i, j | 0 <= i < j < |users'|
      ensures users'[i].id != users'[j].id && users'[i].username != users'[j].username
    {
      assert users'[i].id == users[i].id && users'[i].username == users[i].username;
      assert users'[j].id == users[j].id && users'[j].username == users[j].username;
    }
    forall i | 0 <= i < |users'|
      ensures ValidUser(users'[i])
    {
      if i != k {
        assert users'[i] == users[i];
      }
    }
  }

  /** A profile update keeps the store valid. */
  lemma UpdatePreservesValidStore(db: Store, id: string, req: UpdateRequest, isValidId: string -> bool)
    requires ValidStore(db)
    ensures ValidStore(UpdateUser(db, id, req, isValidId).1)
  {
    if UpdateUser(db, id, req, isValidId).0.status == OK {
      var prev := FindUser(db.users, id).value;
      var k :| 0 <= k < |db.users| && db.users[k] == prev;
      ReplaceUserPreservesValidUsers(db.users, k, ApplyUpdate(prev, req).value);
    }
  }

  /** The update touches only the user it names: every other user is kept
      as stored, and the transactions are untouched. */
  lemma UpdateTouchesOnlyThatUser(db: Store, id: string, req: UpdateRequest, isValidId: string -> bool)
    ensures var db' := UpdateUser(db, id, req, isValidId).1;
      && db'.transactions == db.transactions
      && |db'.users| == |db.users|
      && forall i :: 0 <= i < |db.users| && db.users[i].id != id ==> db'.users[i] == db.users[i]
  {
  }

  /** An update that supplies nothing answers the stored user and, ids
      being unique, leaves the store as it was. */
  lemma EmptyUpdateChangesNothing(db: Store, id: string, isValidId: string -> bool)
    requires ValidStore(db)
    requires isValidId(id) && FindUser(db.users, id).Some?
    ensures var out := UpdateUser(db, id, UpdateRequest(None, None, Undefined, Undefined), isValidId);
      out.1 == db && out.0 == Response(OK, UserBody(ToPublic(FindUser(db.users, id).value)))
  {
    var u := FindUser(db.users, id).value;
    var req := UpdateRequest(None, None, Undefined, Undefined);
    assert ApplyUpdate(u, req) == Some(u);
    var k :| 0 <= k < |db.users| && db.users[k] == u;
    ReplaceUserAt(db.users, k, u);
    assert db.users[k := u] == db.users;
  }

  /** Sending `null` for a numeric setting stores 0 (`Number(null)`), not
      the stored value. */
  lemma NullSettingBecomesZero(u: User)
    ensures var r := ApplyUpdate(u, UpdateRequest(None, None, Null, Null));
      r.Some? && r.value.initialBalance == 0 && r.value.dailySpendingLimit == 0
  {
  }

  /** A name of white space only is truthy, so it replaces the stored name
      with the empty string. */
  lemma BlankNameClearsName(u: User)
    ensures var r := ApplyUpdate(u, UpdateRequest(Some("  "), None, Undefined, Undefined));
      r.Some? && r.value.firstName == ""
  {
    assert TrimStart("  ") == "";
  }
}
