/** The new-transaction form: its fields, the state it starts in, the
    expense/income toggle, and what submitting sends and leaves behind. */
module TransactionForm {
  import opened Records
  import opened Calendar
  import opened TimeFilters
  import opened IsoDate

  /** The expense and income category lists. Their contents are defined
      outside this model; the form relies only on both being non-empty. */
  datatype Catalog = Catalog(expense: seq<string>, income: seq<string>)

  predicate ValidCatalog(cat: Catalog)
  {
    cat.expense != [] && cat.income != []
  }

  /** `currentCategories`: the list offered for a type. */
  function CategoriesFor(cat: Catalog, kind: TxType): seq<string>
  {
    if kind == Expense then cat.expense else cat.income
  }

  /** The category preselected for a type: the first of its list. */
  function FirstCategory(cat: Catalog, kind: TxType): (r: string)
    requires ValidCatalog(cat)
    ensures r in CategoriesFor(cat, kind)
  {
    CategoriesFor(cat, kind)[0]
  }

  /** The form's fields; amount and date hold the inputs' text. */
  datatype FormData = FormData(
    kind: TxType,
    amount: string,
    category: string,
    description: string,
    date: string)

  /** The category shown is one the category dropdown offers for the
      current type. */
  predicate Consistent(cat: Catalog, f: FormData)
  {
    f.category in CategoriesFor(cat, f.kind)
  }

  /** The starting state: an expense in the first expense category with
      an empty amount and description, dated by `toISOString` — the UTC
      calendar day of `now`. */
  function InitialForm(cat: Catalog, now: int): (f: FormData)
    requires ValidCatalog(cat)
    ensures Consistent(cat, f)
    ensures f.kind == Expense && f.amount == "" && f.description == ""
    ensures ParseCivil(f.date).Some? && DayOfCivil(ParseCivil(f.date).value) == DayOf(now, 0)
  {
    FormData(Expense, "", FirstCategory(cat, Expense), "", IsoDay(now))
  }

  /** For a user east of UTC, in the first hours of a local day the
      starting date is the day before. */
  lemma InitialDateLagsEastOfUtc(cat: Catalog, d: int)
    requires ValidCatalog(cat)
    ensures var c := Clock(DayStart(d, 7 * HOUR) + HOUR, 7 * HOUR);
      && DayOf(c.now, c.offset) == d
      && DayOfCivil(ParseCivil(InitialForm(cat, c.now).date).value) == d - 1
  {
    var c := Clock(DayStart(d, 7 * HOUR) + HOUR, 7 * HOUR);
    assert c.now == d * DAY - 6 * HOUR;
    assert DayOf(c.now, 0) == d - 1;
  }

  /** The starting state dated by the local calendar day of the clock. */
  function LocalInitialForm(cat: Catalog, c: Clock): (f: FormData)
    requires ValidCatalog(cat)
    ensures Consistent(cat, f)
    ensures f.kind == Expense && f.amount == "" && f.description == ""
    ensures ParseCivil(f.date).Some? && DayOfCivil(ParseCivil(f.date).value) == DayOf(c.now, c.offset)
  {
    DayTextRoundTrip(DayOf(c.now, c.offset));
    FormData(Expense, "", FirstCategory(cat, Expense), "", DayText(DayOf(c.now, c.offset)))
  }

  /** In UTC the two starting states agree. */
  lemma LocalInitialFormInUtc(cat: Catalog, now: int)
    requires ValidCatalog(cat)
    ensures LocalInitialForm(cat, Clock(now, 0)) == InitialForm(cat, now)
  {
  }

  /** `setType`: switches the type and preselects the first category of
      the new type's list; amount, description and date are kept. */
  function SetType(cat: Catalog, f: FormData, kind: TxType): (r: FormData)
    requires ValidCatalog(cat)
    ensures r.kind == kind && Consistent(cat, r)
    ensures r.amount == f.amount && r.description == f.description && r.date == f.date
  {
    f.(kind := kind, category := FirstCategory(cat, kind))
  }

  /** Pressing the active type's button again changes nothing more. */
  lemma SetTypeIdempotent(cat: Catalog, f: FormData, kind: TxType)
    requires ValidCatalog(cat)
    ensures SetType(cat, SetType(cat, f, kind), kind) == SetType(cat, f, kind)
  {
  }

  /** The category dropdown's change handler. */
  function PickCategory(f: FormData, category: string): (r: FormData)
    ensures r.category == category
    ensures r.kind == f.kind && r.amount == f.amount && r.description == f.description && r.date == f.date
  {
    f.(category := category)
  }

  /** The form stays consistent exactly when the picked category is one of
      the current type's options. */
  lemma PickOfferedCategory(cat: Catalog, f: FormData, category: string)
    ensures Consistent(cat, PickCategory(f, category)) <==> category in CategoriesFor(cat, f.kind)
  {
  }

  /** `handleSubmit`: the form is handed over as it is; the next state
      clears amount and description and preselects the first category of
      the current type, keeping the type and the date. */
  datatype SubmitStep = SubmitStep(sent: FormData, next: FormData)

  function Submit(cat: Catalog, f: FormData): (r: SubmitStep)
    requires ValidCatalog(cat)
    ensures r.sent == f
    ensures r.next.amount == "" && r.next.description == ""
    ensures r.next.kind == f.kind && r.next.date == f.date
    ensures Consistent(cat, r.next)
  {
    SubmitStep(f, f.(amount := "", description := "", category := FirstCategory(cat, f.kind)))
  }

  /** The state after a submit is what a type switch to the same type
      followed by clearing the two text fields gives; submitting again
      leaves it as it is. */
  lemma SubmitResets(cat: Catalog, f: FormData)
    requires ValidCatalog(cat)
    ensures Submit(cat, f).next == SetType(cat, f, f.kind).(amount := "", description := "")
    ensures Submit(cat, Submit(cat, f).next).next == Submit(cat, f).next
  {
  }

  /** Every transition keeps the form consistent, so the category shown
      is always one of the current type's options. */
  lemma TransitionsKeepConsistent(cat: Catalog, f: FormData, kind: TxType, category: string, c: Clock)
    requires ValidCatalog(cat)
    requires Consistent(cat, f)
    requires category in CategoriesFor(cat, f.kind)
    ensures Consistent(cat, LocalInitialForm(cat, c))
    ensures Consistent(cat, InitialForm(cat, c.now))
    ensures Consistent(cat, SetType(cat, f, kind))
    ensures Consistent(cat, PickCategory(f, category))
    ensures Consistent(cat, Submit(cat, f).next)
  {
  }
}
