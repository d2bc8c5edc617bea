/** The React component `App`: its state variables, and one transition per
    handler. Each `fetch` is replaced by its outcome, given as a parameter,
    and a handler that starts a refetch returns the query it sends. */
module Client {
  import opened Basics
  import opened Records
  import opened Validation
  import Listing
  import Report
  import Store

  /** How an awaited `fetch` ends: the JSON envelope the server sent, or an
      exception with its message (network failure, unparsable body). */
  datatype Outcome<T> = Delivered(reply: Reply<T>) | Transport(message: string)

  /** The three keys a filter control writes. */
  datatype FilterField = CategoryFilter | StartDateFilter | EndDateFilter

  /** The `filters` object. A key that was set and then cleared stays in the
      object with the value `undefined`, written `None` here. */
  type Filters = map<FilterField, Option<string>>

  /** `formData.amount`: the text typed into the amount input, or the number
      copied from an expense by `openEditModal`. */
  /** The query string of `fetchSummary`: `group_by` followed by the filters. */
  datatype SummaryRequest = SummaryRequest(groupBy: string, query: Query)

  datatype FormAmount = Entered(text: string) | Loaded(value: real)

  datatype FormData = FormData(amount: FormAmount, date: string, note: string, category: string)

  const FetchExpensesFailed := "Failed to fetch expenses"
  const AddFailedPrefix := "Failed to add expense: "
  const UpdateFailed := "Failed to update expense"
  const DeleteFailed := "Failed to delete expense"

  /** The category table the client installs when it cannot get the real one. */
  function FallbackCategories(): seq<Category> {
    [
      Category(1, "food", "#ef4444"),
      Category(2, "travel", "#3b82f6"),
      Category(3, "bills", "#f59e0b"),
      Category(4, "entertainment", "#8b5cf6"),
      Category(5, "shopping", "#ec4899"),
      Category(6, "health", "#10b981"),
      Category(7, "other", "#6b7280")
    ]
  }

  /** The fallback table is the table a fresh backend database holds. */
  lemma FallbackIsSeed()
    ensures FallbackCategories() == Store.InitialCategories()
    ensures |FallbackCategories()| == 7
    ensures forall k :: 0 <= k < 7 ==> FallbackCategories()[k].name == SeedCategories[k].0
  {
    var f, s := FallbackCategories(), Store.InitialCategories();
    assert |f| == |s|;
    forall k | 0 <= k < |f|
      ensures f[k] == s[k]
    {
    }
  }

  /** `getCategoryColor`: the colour of the first category with this exact
      name, or the default grey when there is none or its colour is empty. */
  function CategoryColor(cats: seq<Category>, name: string): (color: string)
    ensures color != ""
    decreases |cats|
  {
    if cats == [] then DefaultColor
    else if cats[0].name == name then (if cats[0].color != "" then cats[0].color else DefaultColor)
    else CategoryColor(cats[1..], name)
  }

  /** The first category carrying the name decides the colour. */
  lemma {:induction false} CategoryColorFirstMatch(cats: seq<Category>, name: string, i: nat)
    requires i < |cats| && cats[i].name == name
    requires forall j :: 0 <= j < i ==> cats[j].name != name
    ensures CategoryColor(cats, name) == if cats[i].color != "" then cats[i].color else DefaultColor
    decreases i
  {
    if i > 0 {
      CategoryColorFirstMatch(cats[1..], name, i - 1);
    }
  }

  /** A name no category carries gets the default grey. */
  lemma {:induction false} CategoryColorAbsent(cats: seq<Category>, name: string)
    requires name !in Names(cats)
    ensures CategoryColor(cats, name) == DefaultColor
    decreases |cats|
  {
    if cats != [] {
      assert cats[0] in cats;
      assert Names(cats[1..]) <= Names(cats) by {
        forall c | c in cats[1..]
          ensures c in cats
        {
        }
      }
      CategoryColorAbsent(cats[1..], name);
    }
  }

  /** Over the fallback table every seed name gets its seed colour, and any
      other name gets the colour of `other`. */
  lemma FallbackColors(name: string)
    ensures forall k :: 0 <= k < |SeedCategories| ==> CategoryColor(FallbackCategories(), SeedCategories[k].0) == SeedCategories[k].1
    ensures (forall k :: 0 <= k < |SeedCategories| ==> name != SeedCategories[k].0) ==>
      CategoryColor(FallbackCategories(), name) == CategoryColor(FallbackCategories(), "other")
  {
    var f := FallbackCategories();
    FallbackIsSeed();
    forall k | 0 <= k < |SeedCategories|
      ensures CategoryColor(f, SeedCategories[k].0) == SeedCategories[k].1
    {
      CategoryColorFirstMatch(f, SeedCategories[k].0, k);
    }
    CategoryColorFirstMatch(f, "other", 6);
    if forall k :: 0 <= k < |SeedCategories| ==> name != SeedCategories[k].0 {
      assert name !in Names(f) by {
        forall c | c in f
          ensures c.name != name
        {
          var k :| 0 <= k < |f| && f[k] == c;
        }
      }
      CategoryColorAbsent(f, name);
    }
  }

  /** `data.errors?.join(', ') || data.error` for a reply that is not a
      success: the joined list when that is not empty, otherwise the single
      message, which a list reply does not have. */
  function ErrorMessage<T>(reply: Reply<T>): (m: Option<string>)
    requires !reply.Success?
    ensures reply.Error? ==> m == Some(reply.error)
    ensures reply.Errors? ==> (m.None? <==> reply.errors == [] || reply.errors == [""])
    ensures reply.Errors? && m.Some? ==> m.value == Join(reply.errors, ", ")
  {
    match reply
    case Errors(errs) =>
      JoinEmptyIff(errs, ", ");
      var joined := Join(errs, ", ");
      if joined != "" then Some(joined) else None
    case Error(e) => Some(e)
  }

  /** `data.error`: present only on a single-message reply. */
  function ReplyError<T>(reply: Reply<T>): (m: Option<string>)
    ensures m.Some? <==> reply.Error?
  {
    if reply.Error? then Some(reply.error) else None
  }

  /** A validation refusal always reaches the banner: every message the
      backend writes is non-empty, so the join is never empty. */
  lemma ValidationMessageShown(p: Payload, isUpdate: bool, names: set<string>)
    requires ValidationErrors(p, isUpdate, names) != []
    ensures ErrorMessage<Expense>(Errors(ValidationErrors(p, isUpdate, names))) ==
      Some(Join(ValidationErrors(p, isUpdate, names), ", "))
  {
    var errs := ValidationErrors(p, isUpdate, names);
    assert errs[0] != "" by {
      if p.category.Some? {
        assert |InvalidCategory(p.category.value)| >= |CategoryPrefix|;
      }
    }
  }

  /** The form `resetForm` installs; `today` is the current date as `yyyy-MM-dd`. */
  function EmptyForm(today: string): FormData {
    FormData(Entered(""), today, "", "other")
  }

  /** The form `openEditModal` fills from an expense. */
  function EditForm(e: Expense): FormData {
    FormData(Loaded(e.amount), e.date, e.note, e.category)
  }

  /** The request body `JSON.stringify(formData)` as the backend reads it:
      all four keys are always present. `parse` is what Python's `float()`
      makes of the typed amount text. */
  function FormPayload(f: FormData, parse: string -> AmountValue): (p: Payload)
    ensures p.amount.Some? && p.date.Some? && p.note.Some? && p.category.Some?
  {
    Payload(
      Some(match f.amount case Entered(t) => parse(t) case Loaded(v) => Number(v)),
      Some(f.date), Some(f.note), Some(f.category))
  }

  /** A body sent from the form never earns "Amount is required" or "Date is
      required", on create or on update. */
  lemma FormBodyHasAllKeys(f: FormData, parse: string -> AmountValue, isUpdate: bool, names: set<string>)
    ensures AmountRequired !in ValidationErrors(FormPayload(f, parse), isUpdate, names)
    ensures DateRequired !in ValidationErrors(FormPayload(f, parse), isUpdate, names)
  {
    var p := FormPayload(f, parse);
    AmountMessages(p, isUpdate, names);
    if p.category.Some? {
      CategoryMessageNotAmount(p.category.value);
    }
    assert AmountErrors(p, isUpdate) + DateErrors(p, isUpdate) + CategoryErrors(p, names) == ValidationErrors(p, isUpdate, names);
  }

  /** Submitting the freshly reset form is refused, first of all because an
      empty amount text is not a number. */
  lemma EmptyFormRefused(today: string, parse: string -> AmountValue, names: set<string>)
    requires parse("") == NotANumber
    ensures var errs := ValidationErrors(FormPayload(EmptyForm(today), parse), false, names);
      errs != [] && errs[0] == AmountNotNumber
  {
  }

  /** Saving an edit form nobody touched, for a row the backend accepted,
      passes validation and rewrites the row to itself. */
  lemma EditRoundTrip(e: Expense, parse: string -> AmountValue, names: set<string>)
    requires e.amount > 0.0 && IsIsoDate(e.date)
    requires e.category == "" || e.category in names
    ensures ValidationErrors(FormPayload(EditForm(e), parse), true, names) == []
    ensures Store.Patch(e, FormPayload(EditForm(e), parse)) == e
  {
  }

  /** The value a filter control writes: an empty choice becomes `undefined`. */
  function FilterValue(choice: string): (v: Option<string>)
    ensures v.None? <==> choice == ""
    ensures v.Some? ==> v.value == choice
  {
    if choice == "" then None else Some(choice)
  }

  /** No filter key holds the empty string: a control writes `undefined` instead. */
  ghost predicate NoEmptyFilter(f: Filters) {
    forall k :: k in f ==> f[k] != Some("")
  }

  function Argument(f: Filters, k: FilterField): Option<string> {
    if k in f then f[k] else None
  }

  /** The listing query a filter object stands for: a key that is absent or
      `undefined` does not constrain the listing. */
  function ToQuery(f: Filters): Query {
    Query(Argument(f, CategoryFilter), Argument(f, StartDateFilter), Argument(f, EndDateFilter))
  }

  /** Under the intended conversion a key holding `undefined` filters
      exactly like a missing key. */
  lemma UndefinedLikeAbsent(s: seq<Expense>, f: Filters, k: FilterField)
    ensures Listing.Matching(s, ToQuery(f[k := None])) == Listing.Matching(s, ToQuery(f - {k}))
  {
    Listing.MatchingSameQuery(s, ToQuery(f[k := None]), ToQuery(f - {k}));
  }

  /** `new URLSearchParams(filters)` as written: an `undefined` value is
      converted to the text "undefined" and sent. */
  function SentArgument(f: Filters, k: FilterField): Option<string> {
    if k !in f then None else if f[k].None? then Some("undefined") else f[k]
  }

  function ToQueryAsWritten(f: Filters): Query {
    Query(SentArgument(f, CategoryFilter), SentArgument(f, StartDateFilter), SentArgument(f, EndDateFilter))
  }

  /** The two queries differ only where a key holds `undefined`. */
  lemma AsWrittenDiffersOnlyOnUndefined(f: Filters)
    requires forall k :: k in f ==> f[k].Some?
    ensures ToQueryAsWritten(f) == ToQuery(f)
  {
  }

  /** Setting the category control back to "All Categories" and applying:
      as written the request asks for the category "undefined", so a table
      without that category lists nothing; the intended request lists all. */
  lemma ClearedCategoryHidesEverything(s: seq<Expense>)
    requires forall e :: e in s ==> e.category != "undefined"
    ensures Listing.Matching(s, ToQueryAsWritten(map[CategoryFilter := None])) == []
    ensures Listing.Matching(s, ToQuery(map[CategoryFilter := None])) == s
  {
    Listing.MatchingNone(s, ToQueryAsWritten(map[CategoryFilter := None]));
    Listing.MatchingUnconstrained(s, ToQuery(map[CategoryFilter := None]));
  }

  /** The same for the start-date control: every valid date sorts below the
      text "undefined", so nothing passes the lower bound. */
  lemma ClearedStartDateHidesEverything(s: seq<Expense>)
    requires forall e :: e in s ==> IsIsoDate(e.date)
    ensures Listing.Matching(s, ToQueryAsWritten(map[StartDateFilter := None])) == []
    ensures Listing.Matching(s, ToQuery(map[StartDateFilter := None])) == s
  {
    var q := ToQueryAsWritten(map[StartDateFilter := None]);
    forall e | e in s
      ensures !Listing.Matches(e, q)
    {
      assert e.date[0] != 'u';
    }
    Listing.MatchingNone(s, q);
    Listing.MatchingUnconstrained(s, ToQuery(map[StartDateFilter := None]));
  }

  /** For the end-date control the stray "undefined" is harmless: every valid
      date sorts below it. */
  lemma ClearedEndDateHarmless(s: seq<Expense>)
    requires forall e :: e in s ==> IsIsoDate(e.date)
    ensures Listing.Matching(s, ToQueryAsWritten(map[EndDateFilter := None])) == s
  {
    var q := ToQueryAsWritten(map[EndDateFilter := None]);
    assert forall e :: e in s ==> Listing.Matches(e, q) by {
      forall e | e in s
        ensures Listing.Matches(e, q)
      {
        assert e.date[0] != 'u';
      }
    }
    MatchingAll(s, q);
  }

  /** The report is asked for with the same filters, so a cleared start
      date empties it too: no row, a zero total. */
  lemma ClearedStartDateEmptiesSummary(s: seq<Expense>, groupBy: string)
    requires forall e :: e in s ==> IsIsoDate(e.date)
    ensures var q := ToQueryAsWritten(map[StartDateFilter := None]);
      var r := Report.Summarize(Report.DateRows(s, q.startDate, q.endDate), groupBy);
      r.count == 0 && r.total == 0.0
  {
    var q := ToQueryAsWritten(map[StartDateFilter := None]);
    var dq := Query(None, q.startDate, q.endDate);
    forall e | e in s
      ensures !Listing.Matches(e, dq)
    {
      assert e.date[0] != 'u';
    }
    Listing.MatchingNone(s, dq);
  }

  lemma {:induction false} MatchingAll(s: seq<Expense>, q: Query)
    requires forall e :: e in s ==> Listing.Matches(e, q)
    ensures Listing.Matching(s, q) == s
    decreases |s|
  {
    if s != [] {
      var init := s[..|s| - 1];
      assert forall e :: e in init ==> e in s;
      MatchingAll(init, q);
      assert s == init + [s[|s| - 1]];
    }
  }

  /** The report ignores the category filter that the listing applies, so
      with a category chosen the two totals disagree. */
  lemma ReportIgnoresCategoryFilter()
    ensures var s := [Expense(1, 10.0, "2024-01-05", "", "food"), Expense(2, 5.0, "2024-01-06", "", "travel")];
      var q := ToQuery(map[CategoryFilter := Some("food")]);
      && Report.Total(Listing.Listed(s, q)) == 10.0
      && Report.Summarize(Report.DateRows(s, q.startDate, q.endDate), "category").total == 15.0
  {
    var s := [Expense(1, 10.0, "2024-01-05", "", "food"), Expense(2, 5.0, "2024-01-06", "", "travel")];
    var q := ToQuery(map[CategoryFilter := Some("food")]);
    assert s[..1] == [s[0]];
    assert Listing.Matching(s, q) == [s[0]];
    assert Report.DateRows(s, q.startDate, q.endDate) == s;
  }

  class App {
    var expenses: seq<Expense>
    var categories: seq<Category>
    var showAddModal: bool
    var showEditModal: bool
    var showFilterModal: bool
    var showReportModal: bool
    /** The expense being edited (`null` when none). */
    var currentExpense: Option<Expense>
    var filters: Filters
    var summary: Option<Summary>
    var loading: bool
    /** The banner message (`null` or `undefined` when none). */
    var error: Option<string>
    var formData: FormData

    ghost predicate Valid()
      reads this`filters
    {
      NoEmptyFilter(filters)
    }

    /** `totalExpenses`: the cached amounts added from the left. Amounts the
        backend accepted are positive, so the total shown is positive
        exactly when the list is not empty. */
    function TotalExpenses(): (t: real)
      reads this`expenses
      ensures expenses == [] ==> t == 0.0
      ensures (forall k :: 0 <= k < |expenses| ==> expenses[k].amount > 0.0) ==> (t > 0.0 <==> expenses != [])
    {
      Report.TotalPositive(expenses);
      Report.Total(expenses)
    }

    /** The state of a freshly mounted component. */
    constructor (today: string)
      ensures Valid()
      ensures expenses == [] && categories == []
      ensures !showAddModal && !showEditModal && !showFilterModal && !showReportModal
      ensures currentExpense.None? && filters == map[] && summary.None?
      ensures !loading && error.None?
      ensures formData == EmptyForm(today)
    {
      expenses, categories := [], [];
      showAddModal, showEditModal, showFilterModal, showReportModal := false, false, false, false;
      currentExpense, filters, summary := None, map[], None;
      loading, error := false, None;
      formData := EmptyForm(today);
    }

    /** `fetchCategories`: the server's list on success, the fallback table
        on a refusal or an exception. */
    method FetchCategories(o: Outcome<seq<Category>>)
      modifies this`categories
      ensures o.Delivered? && o.reply.Success? ==> categories == o.reply.data
      ensures !(o.Delivered? && o.reply.Success?) ==> categories == Store.InitialCategories()
    {
      if o.Delivered? && o.reply.Success? {
        categories := o.reply.data;
      } else {
        FallbackIsSeed();
        categories := FallbackCategories();
      }
    }

    /** The synchronous start of `fetchExpenses`: raise the spinner, clear the
        banner, and send the query `new URLSearchParams(f)` builds. */
    method StartFetchExpenses(f: Filters) returns (q: Query)
      modifies this`loading, this`error
      ensures loading && error.None?
      ensures q == ToQueryAsWritten(f)
      ensures (forall k :: k in f ==> f[k].Some?) ==> q == ToQuery(f)
    {
      loading := true;
      error := None;
      q := ToQueryAsWritten(f);
      if forall k :: k in f ==> f[k].Some? {
        AsWrittenDiffersOnlyOnUndefined(f);
      }
    }

    /** The end of `fetchExpenses`: a success replaces the whole list, in the
        order the server sent it; a failure keeps the list and sets the
        banner; the spinner is down on every path. */
    method FinishFetchExpenses(o: Outcome<seq<Expense>>)
      modifies this`expenses, this`error, this`loading
      ensures !loading
      ensures o.Delivered? && o.reply.Success? ==> expenses == o.reply.data && error == old(error)
      ensures o.Delivered? && !o.reply.Success? ==> expenses == old(expenses) && error == ReplyError(o.reply)
      ensures o.Transport? ==> expenses == old(expenses) && error == Some(FetchExpensesFailed)
    {
      if o.Delivered? && o.reply.Success? {
        expenses := o.reply.data;
      } else if o.Delivered? {
        error := ReplyError(o.reply);
      } else {
        error := Some(FetchExpensesFailed);
      }
      loading := false;
    }

    /** `fetchExpenses(f)` run to completion. */
    method FetchExpenses(f: Filters, o: Outcome<seq<Expense>>) returns (q: Query)
      modifies this`expenses, this`error, this`loading
      ensures q == ToQueryAsWritten(f) && !loading
      ensures o.Delivered? && o.reply.Success? ==> expenses == o.reply.data && error.None?
      ensures o.Delivered? && !o.reply.Success? ==> expenses == old(expenses) && error == ReplyError(o.reply)
      ensures o.Transport? ==> expenses == old(expenses) && error == Some(FetchExpensesFailed)
    {
      q := StartFetchExpenses(f);
      FinishFetchExpenses(o);
    }

    /** `resetForm`. */
    method ResetForm(today: string)
      modifies this`formData
      ensures formData == EmptyForm(today)
    {
      formData := EmptyForm(today);
    }

    /** `handleAddExpense`, given how the POST ended. `body` is the request
        body sent, the form as it was. On success the modal closes, the form
        is reset and a refetch with the current filters is started; the
        spinner is lowered before that refetch ends. On failure only the
        banner changes. */
    method HandleAddExpense(o: Outcome<Expense>, today: string, parse: string -> AmountValue)
      returns (body: Payload, refetch: Option<Query>)
      requires Valid()
      modifies this
      ensures Valid()
      ensures body == FormPayload(old(formData), parse)
      ensures !loading
      ensures expenses == old(expenses) && categories == old(categories) && filters == old(filters)
      ensures showEditModal == old(showEditModal) && showFilterModal == old(showFilterModal)
      ensures showReportModal == old(showReportModal) && currentExpense == old(currentExpense) && summary == old(summary)
      ensures o.Delivered? && o.reply.Success? ==>
        && !showAddModal && formData == EmptyForm(today) && error.None?
        && refetch == Some(ToQueryAsWritten(filters))
      ensures !(o.Delivered? && o.reply.Success?) ==>
        && showAddModal == old(showAddModal) && formData == old(formData) && refetch.None?
        && error == (if o.Transport? then Some(AddFailedPrefix + o.message) else ErrorMessage(o.reply))
    {
      loading := true;
      error := None;
      body := FormPayload(formData, parse);
      if o.Delivered? && o.reply.Success? {
        showAddModal := false;
        ResetForm(today);
        var q := StartFetchExpenses(filters);
        refetch := Some(q);
      } else if o.Delivered? {
        error := ErrorMessage(o.reply);
        refetch := None;
      } else {
        error := Some(AddFailedPrefix + o.message);
        refetch := None;
      }
      loading := false;
    }

    /** `handleUpdateExpense`, given how the PUT ended. With no expense
        being edited, reading its id throws before any request is sent.
        `request` is the id the PUT goes to and the body it carries. */
    method HandleUpdateExpense(o: Outcome<Expense>, today: string, parse: string -> AmountValue)
      returns (request: Option<(int, Payload)>, refetch: Option<Query>)
      requires Valid()
      modifies this
      ensures Valid()
      ensures !loading
      ensures expenses == old(expenses) && categories == old(categories) && filters == old(filters)
      ensures showAddModal == old(showAddModal) && showFilterModal == old(showFilterModal)
      ensures showReportModal == old(showReportModal) && summary == old(summary)
      ensures old(currentExpense).None? ==>
        && request.None? && refetch.None? && error == Some(UpdateFailed)
        && showEditModal == old(showEditModal) && currentExpense == old(currentExpense) && formData == old(formData)
      ensures old(currentExpense).Some? ==>
        request == Some((old(currentExpense).value.id, FormPayload(old(formData), parse)))
      ensures old(currentExpense).Some? && o.Delivered? && o.reply.Success? ==>
        && !showEditModal && currentExpense.None? && formData == EmptyForm(today) && error.None?
        && refetch == Some(ToQueryAsWritten(filters))
      ensures old(currentExpense).Some? && !(o.Delivered? && o.reply.Success?) ==>
        && showEditModal == old(showEditModal) && currentExpense == old(currentExpense) && formData == old(formData)
        && refetch.None?
        && error == (if o.Transport? then Some(UpdateFailed) else ErrorMessage(o.reply))
    {
      loading := true;
      if currentExpense.None? {
        request, refetch := None, None;
        error := Some(UpdateFailed);
      } else {
        request := Some((currentExpense.value.id, FormPayload(formData, parse)));
        if o.Delivered? && o.reply.Success? {
          showEditModal := false;
          currentExpense := None;
          ResetForm(today);
          var q := StartFetchExpenses(filters);
          refetch := Some(q);
        } else if o.Delivered? {
          error := ErrorMessage(o.reply);
          refetch := None;
        } else {
          error := Some(UpdateFailed);
          refetch := None;
        }
      }
      loading := false;
    }

    /** `handleDeleteExpense(id)`, given whether the user confirmed and how
        the DELETE ended. Without confirmation nothing happens. */
    method HandleDeleteExpense(id: int, confirmed: bool, o: Outcome<()>) returns (refetch: Option<Query>)
      requires Valid()
      modifies this
      ensures Valid()
      ensures !confirmed ==> unchanged(this) && refetch.None?
      ensures confirmed ==> !loading
      ensures expenses == old(expenses) && categories == old(categories) && filters == old(filters)
      ensures showAddModal == old(showAddModal) && showEditModal == old(showEditModal)
      ensures showFilterModal == old(showFilterModal) && showReportModal == old(showReportModal)
      ensures currentExpense == old(currentExpense) && summary == old(summary) && formData == old(formData)
      ensures confirmed && o.Delivered? && o.reply.Success? ==> refetch == Some(ToQueryAsWritten(filters)) && error.None?
      ensures confirmed && o.Delivered? && !o.reply.Success? ==> refetch.None? && error == ReplyError(o.reply)
      ensures confirmed && o.Transport? ==> refetch.None? && error == Some(DeleteFailed)
    {
      if !confirmed {
        return None;
      }
      loading := true;
      if o.Delivered? && o.reply.Success? {
        var q := StartFetchExpenses(filters);
        refetch := Some(q);
      } else if o.Delivered? {
        error := ReplyError(o.reply);
        refetch := None;
      } else {
        error := Some(DeleteFailed);
        refetch := None;
      }
      loading := false;
    }

    /** `openEditModal(expense)`. */
    method OpenEditModal(e: Expense)
      modifies this`currentExpense, this`formData, this`showEditModal
      ensures currentExpense == Some(e) && formData == EditForm(e) && showEditModal
    {
      currentExpense := Some(e);
      formData := EditForm(e);
      showEditModal := true;
    }

    /** A filter control's `onChange`: the key is written even when the
        choice is empty, so the badge count never drops. */
    method SetFilter(field: FilterField, choice: string)
      requires Valid()
      modifies this`filters
      ensures Valid()
      ensures filters == old(filters)[field := FilterValue(choice)]
      ensures field in filters && |filters| >= |old(filters)|
    {
      filters := filters[field := FilterValue(choice)];
    }

    /** `applyFilters`: refetch with the current filters and close the dialog. */
    method ApplyFilters() returns (q: Query)
      modifies this`loading, this`error, this`showFilterModal
      ensures q == ToQueryAsWritten(filters) && loading && error.None? && !showFilterModal
    {
      q := StartFetchExpenses(filters);
      showFilterModal := false;
    }

    /** `clearFilters`: drop every key and refetch unconstrained. */
    method ClearFilters() returns (q: Query)
      requires Valid()
      modifies this`filters, this`loading, this`error, this`showFilterModal
      ensures Valid()
      ensures filters == map[] && q == Query(None, None, None)
      ensures loading && error.None? && !showFilterModal
    {
      filters := map[];
      q := StartFetchExpenses(map[]);
      showFilterModal := false;
    }

    /** `fetchSummary(groupBy)`, given how the request ended: only a success
        changes anything. The request carries `group_by` and every filter,
        converted as `fetchExpenses` converts them. */
    method FetchSummary(groupBy: string, o: Outcome<Summary>) returns (req: SummaryRequest)
      modifies this`summary
      ensures req == SummaryRequest(groupBy, ToQueryAsWritten(filters))
      ensures o.Delivered? && o.reply.Success? ==> summary == Some(o.reply.data)
      ensures !(o.Delivered? && o.reply.Success?) ==> summary == old(summary)
    {
      req := SummaryRequest(groupBy, ToQueryAsWritten(filters));
      if o.Delivered? && o.reply.Success? {
        summary := Some(o.reply.data);
      }
    }

    /** `openReportModal`: ask for the summary by category and open the dialog. */
    method OpenReportModal(o: Outcome<Summary>) returns (req: SummaryRequest)
      modifies this`summary, this`showReportModal
      ensures req.groupBy == "category" && req.query == ToQueryAsWritten(filters) && showReportModal
      ensures o.Delivered? && o.reply.Success? ==> summary == Some(o.reply.data)
      ensures !(o.Delivered? && o.reply.Success?) ==> summary == old(summary)
    {
      req := FetchSummary("category", o);
      showReportModal := true;
    }
  }
}
