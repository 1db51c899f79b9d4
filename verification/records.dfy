/** The two stored entities, `User` and `Transaction`, with the schema
    constraints the document store enforces on them, and the store itself:
    the users and transactions it holds, in insertion order. */
module Records {
  import opened Text
  import opened Js

  /** The `type` enumeration of a transaction: exactly "income" or "expense". */
  datatype TxType = Income | Expense

  /** Reads the `type` request field; anything but the two names is refused
      by the schema's enum validator. */
  function ParseTxType(s: Option<string>): (r: Option<TxType>)
    ensures r == Some(Income) <==> s == Some("income")
    ensures r == Some(Expense) <==> s == Some("expense")
  {
    if s == Some("income") then Some(Income)
    else if s == Some("expense") then Some(Expense)
    else None
  }

  /** A transaction: `user` is the owning user's id, `date` an instant in
      milliseconds, `amount` in minor currency units. */
  datatype Transaction = Transaction(
    id: string,
    user: string,
    kind: TxType,
    category: string,
    amount: int,
    date: int,
    description: string)

  const DescriptionMaxLength: int := 300
  const DefaultCategory: string := "Uncategorized"

  /** The transaction schema: an owner is required, the category is
      required and stored trimmed, the amount is at least 0 and the
      description at most 300 characters. */
  predicate ValidTransaction(t: Transaction)
  {
    && t.user != ""
    && t.category != "" && IsTrimmed(t.category)
    && t.amount >= 0
    && |t.description| <= DescriptionMaxLength
  }

  /** A stored transaction passes through the schema's setters unchanged:
      its category is its own trim. */
  lemma StoredTransactionIsFixed(t: Transaction)
    requires ValidTransaction(t)
    ensures Trim(t.category) == t.category && t.category != ""
  {
    TrimmedIsFixed(t.category);
  }

  /** A user; `pin` holds the hash of the PIN, never the PIN itself. */
  datatype User = User(
    id: string,
    username: string,
    firstName: string,
    lastName: string,
    initialBalance: int,
    dailySpendingLimit: int,
    pin: string)

  const UsernameMinLength: int := 8
  const UsernameMaxLength: int := 12
  const DefaultInitialBalance: int := 0
  const DefaultDailySpendingLimit: int := 1000

  /** The user schema: a username of 8 to 12 characters, stored trimmed and
      lower-case; names stored trimmed; a PIN hash is required. */
  predicate ValidUser(u: User)
  {
    && UsernameMinLength <= |u.username| <= UsernameMaxLength
    && IsTrimmed(u.username) && IsLowerCase(u.username)
    && IsTrimmed(u.firstName) && IsTrimmed(u.lastName)
    && u.pin != ""
  }

  /** A stored user's username is its own lookup key, and the schema's
      setters leave its names unchanged. */
  lemma StoredUserIsFixed(u: User)
    requires ValidUser(u)
    ensures NormalizeUsername(u.username) == u.username
    ensures Trim(u.firstName) == u.firstName && Trim(u.lastName) == u.lastName
  {
    LowerCaseIsFixed(u.username);
    TrimmedIsFixed(u.username);
    TrimmedIsFixed(u.firstName);
    TrimmedIsFixed(u.lastName);
  }

  /** What the API returns for a user: every field but the PIN hash. */
  datatype PublicUser = PublicUser(
    id: string,
    username: string,
    firstName: string,
    lastName: string,
    initialBalance: int,
    dailySpendingLimit: int)

  function ToPublic(u: User): (p: PublicUser)
    ensures p.id == u.id && p.username == u.username
    ensures p.firstName == u.firstName && p.lastName == u.lastName
    ensures p.initialBalance == u.initialBalance
    ensures p.dailySpendingLimit == u.dailySpendingLimit
  {
    PublicUser(u.id, u.username, u.firstName, u.lastName, u.initialBalance, u.dailySpendingLimit)
  }

  /** The public view cannot reveal the PIN hash: users that differ only in
      it look the same. */
  lemma PublicViewIgnoresPin(u: User, pin: string)
    ensures ToPublic(u.(pin := pin)) == ToPublic(u)
  {
  }

  datatype Store = Store(users: seq<User>, transactions: seq<Transaction>)

  /** Ids identify documents, usernames are unique, every document
      satisfies its schema. */
  ghost predicate ValidStore(db: Store)
  {
    ValidUsers(db.users) && ValidTransactions(db.transactions)
  }

  /** The users collection: unique ids, unique usernames, valid documents. */
  ghost predicate ValidUsers(users: seq<User>)
  {
    && (forall i, j :: 0 <= i < j < |users| ==> users[i].id != users[j].id)
    && (forall i, j :: 0 <= i < j < |users| ==> users[i].username != users[j].username)
    && (forall i :: 0 <= i < |users| ==> ValidUser(users[i]))
  }

  /** The transactions collection: unique ids, valid documents. */
  ghost predicate ValidTransactions(txs: seq<Transaction>)
  {
    && (forall i, j :: 0 <= i < j < |txs| ==> txs[i].id != txs[j].id)
    && (forall i :: 0 <= i < |txs| ==> ValidTransaction(txs[i]))
  }

  /** `User.findById`: the user with that id, if any. */
  function FindUser(users: seq<User>, id: string): (r: Option<User>)
    ensures r.Some? ==> r.value in users && r.value.id == id
    ensures r.None? ==> forall i :: 0 <= i < |users| ==> users[i].id != id
  {
    if users == [] then None
    else if users[0].id == id then Some(users[0])
    else FindUser(users[1..], id)
  }

  /** `User.findOne({ username })`: the user with that username, if any. */
  function FindByUsername(users: seq<User>, username: string): (r: Option<User>)
    ensures r.Some? ==> r.value in users && r.value.username == username
    ensures r.None? ==> forall i :: 0 <= i < |users| ==> users[i].username != username
  {
    if users == [] then None
    else if users[0].username == username then Some(users[0])
    else FindByUsername(users[1..], username)
  }

  /** Replaces the user carrying `u`'s id (the document `save` writes back). */
  function ReplaceUser(users: seq<User>, u: User): (r: seq<User>)
    ensures |r| == |users|
    ensures forall i :: 0 <= i < |users| ==>
      r[i] == (if users[i].id == u.id then u else users[i])
  {
    if users == [] then []
    else [if users[0].id == u.id then u else users[0]] + ReplaceUser(users[1..], u)
  }

  /** With unique ids, replacing by a document that carries the id of the
      user at position `k` rewrites that position only. */
  lemma ReplaceUserAt(users: seq<User>, k: int, u: User)
    requires forall i, j :: 0 <= i < j < |users| ==> users[i].id != users[j].id
    requires 0 <= k < |users| && users[k].id == u.id
    ensures ReplaceUser(users, u) == users[k := u]
  {
    var r := ReplaceUser(users, u);
    forall i | 0 <= i < |users|
      ensures r[i] == users[k := u][i]
    {
      if i < k {
        assert users[i].id != users[k].id;
      } else if i > k {
        assert users[k].id != users[i].id;
      }
    }
  }
}
