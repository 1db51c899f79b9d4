/** The transactions page's own state changes: removing a row after a
    confirmed delete, opening the edit dialog on a transaction, and
    closing it after a successful update. The requests themselves are
    outside the model; their outcome is a parameter. */
module TransactionsPage {
  import opened Js
  import opened Records
  import opened Sequences
  import opened Sorting
  import opened Calendar
  import opened IsoDate
  import opened Http
  import TransactionRoutes

  /** How an awaited request ended: resolved, or threw. */
  datatype Outcome = Succeeded | Failed

  /** What `handleDelete` does: whether a request went out, and the list
      it leaves. */
  datatype DeleteStep = DeleteStep(requested: bool, list: seq<Transaction>)

  /** `handleDelete`: nothing happens unless the user confirms; a failed
      request leaves the list; a successful one drops the rows with that
      id, the others keeping their order. */
  function HandleDelete(list: seq<Transaction>, id: string, confirmed: bool, outcome: Outcome): (r: DeleteStep)
    ensures r.requested == confirmed
    ensures !confirmed || outcome == Failed ==> r.list == list
    ensures confirmed && outcome == Succeeded ==> forall i :: 0 <= i < |r.list| ==> r.list[i].id != id
  {
    if !confirmed then DeleteStep(false, list)
    else if outcome == Failed then DeleteStep(true, list)
    else DeleteStep(true, Filter(list, TransactionRoutes.OtherThan(id)))
  }

  /** After a successful delete a row is listed exactly when it was
      listed before and carries another id. */
  lemma DeleteRemovesExactlyThatId(list: seq<Transaction>, id: string, t: Transaction)
    ensures t in HandleDelete(list, id, true, Succeeded).list <==> t in list && t.id != id
  {
    FilterMembers(list, TransactionRoutes.OtherThan(id), t);
  }

  /** After a successful delete the other rows keep their multiplicity:
      nothing but the deleted id is lost. */
  lemma DeleteKeepsOtherRows(list: seq<Transaction>, id: string, t: Transaction)
    requires t.id != id
    ensures multiset(HandleDelete(list, id, true, Succeeded).list)[t] == multiset(list)[t]
  {
    var keep := TransactionRoutes.OtherThan(id);
    var drop := (x: Transaction) => x.id == id;
    var all := (x: Transaction) => true;
    FilterKeepsAll(list, all);
    FilterSplit(list, all, keep, drop);
    assert t !in multiset(Filter(list, drop)) by {
      FilterMembers(list, drop, t);
    }
  }

  /** The local update agrees with the server: when the page shows the
      user's transactions as the server lists them and the server deletes
      the transaction, the list left on the page is the list the server
      would now return, in the same order. */
  lemma DeleteMatchesRefetch(db: Store, userId: string, id: string, isValidId: string -> bool)
    requires ValidStore(db)
    requires isValidId(userId)
    requires TransactionRoutes.DeleteTransaction(db, id, isValidId).0.status == OK
    ensures var shown := TransactionRoutes.ListTransactions(db, userId, isValidId).body.items;
      var after := TransactionRoutes.DeleteTransaction(db, id, isValidId).1;
      HandleDelete(shown, id, true, Succeeded).list
        == TransactionRoutes.ListTransactions(after, userId, isValidId).body.items
  {
    TransactionRoutes.DeleteKeepsOthers(db, id, isValidId);
    DeleteCommutesWithListing(db.transactions, userId, id);
  }

  /** The ordering core of `DeleteMatchesRefetch`, on the stored list. */
  lemma DeleteCommutesWithListing(stored: seq<Transaction>, userId: string, id: string)
    ensures Filter(Sort(Filter(stored, TransactionRoutes.OwnedBy(userId)), TransactionRoutes.NewestFirst),
                   TransactionRoutes.OtherThan(id))
         == Sort(Filter(Filter(stored, TransactionRoutes.OtherThan(id)), TransactionRoutes.OwnedBy(userId)),
                 TransactionRoutes.NewestFirst)
  {
    var mine := Filter(stored, TransactionRoutes.OwnedBy(userId));
    SortFilter(mine, TransactionRoutes.NewestFirst, TransactionRoutes.OtherThan(id));
    FilterCommute(stored, TransactionRoutes.OwnedBy(userId), TransactionRoutes.OtherThan(id));
  }

  /** The edit dialog's fields; the date holds the date input's text. */
  datatype EditForm = EditForm(
    kind: TxType,
    amount: int,
    category: string,
    date: string,
    description: string)

  /** The edit dialog: whether it is open, the id being edited, and its
      fields. */
  datatype EditState = EditState(open: bool, editingId: Option<string>, form: EditForm)

  /** `openEditModal`: remembers the id, copies type, amount and category,
      writes the date as the UTC calendar day of the stored instant, and
      shows the description ("" when there is none). */
  function OpenEdit(t: Transaction): (r: EditState)
    ensures r.open && r.editingId == Some(t.id)
    ensures r.form.kind == t.kind && r.form.amount == t.amount && r.form.category == t.category
    ensures r.form.description == t.description
    ensures ParseCivil(r.form.date).Some? && DayOfCivil(ParseCivil(r.form.date).value) == DayOf(t.date, 0)
  {
    EditState(true, Some(t.id), EditForm(t.kind, t.amount, t.category, IsoDay(t.date), t.description))
  }

  /** A date stored from a "YYYY-MM-DD" text (midnight UTC of that day)
      comes back into the date input as the same text. */
  lemma EditDateRoundTrip(t: Transaction, d: int)
    requires t.date == DayStart(d, 0)
    ensures OpenEdit(t).form.date == DayText(d)
  {
    DayBounds(t.date, d, 0);
  }

  /** `handleUpdateSubmit`: on success the dialog closes and forgets the
      id; on failure everything stays as it was. */
  function AfterUpdate(st: EditState, outcome: Outcome): (r: EditState)
    ensures outcome == Succeeded ==> !r.open && r.editingId.None?
    ensures outcome == Failed ==> r == st
    ensures r.form == st.form
  {
    if outcome == Succeeded then st.(open := false, editingId := None) else st
  }

  /** Opening the dialog on a transaction and updating it successfully
      ends with the dialog closed and no id being edited, whatever was
      open before. */
  lemma EditCycleCloses(t: Transaction)
    ensures var r := AfterUpdate(OpenEdit(t), Succeeded);
      !r.open && r.editingId.None?
    ensures AfterUpdate(OpenEdit(t), Failed).editingId == Some(t.id)
  {
  }
}
