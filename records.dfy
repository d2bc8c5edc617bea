/** The rows of the two tables that `init_db` creates, the JSON bodies and
    query strings the HTTP endpoints accept, and the reply envelope they send. */
module Records {
  import opened Basics

  /** One row of the `expenses` table. `created_at` is not modelled. */
  datatype Expense = Expense(id: int, amount: real, date: string, note: string, category: string)

  /** One row of the `categories` table. */
  datatype Category = Category(id: int, name: string, color: string)

  /** What Python's `float()` makes of the `amount` value of a request body:
      a number, or a `ValueError`/`TypeError`. */
  datatype AmountValue = Number(value: real) | NotANumber

  /** A JSON request body for create or update. `None` means the key is absent. */
  datatype Payload = Payload(
    amount: Option<AmountValue>,
    date: Option<string>,
    note: Option<string>,
    category: Option<string>)

  /** The query-string arguments `category`, `start_date` and `end_date`
      (`None` when the argument is absent). */
  datatype Query = Query(category: Option<string>, startDate: Option<string>, endDate: Option<string>)

  /** The JSON envelope: `success: true` with `data`, or `success: false` with
      either an `errors` list or a single `error` message. */
  datatype Reply<T> = Success(data: T) | Errors(errors: seq<string>) | Error(error: string)

  /** A `{total, count}` entry of a summary breakdown. */
  datatype Group = Group(total: real, count: nat)

  /** The `data` of `/api/reports/summary`; a breakdown is present only for
      the grouping that was asked for. Keys pair with their groups in order. */
  datatype Summary = Summary(
    total: real,
    count: nat,
    byCategory: Option<seq<(string, Group)>>,
    byMonth: Option<seq<(string, Group)>>)

  const NotFound := "Expense not found"
  const NoFieldsToUpdate := "No fields to update"

  /** The colour a category gets when none is given. */
  const DefaultColor := "#6b7280"

  /** The `(name, color)` pairs `init_db` inserts, in insertion order. */
  const SeedCategories: seq<(string, string)> := [
    ("food", "#ef4444"),
    ("travel", "#3b82f6"),
    ("bills", "#f59e0b"),
    ("entertainment", "#8b5cf6"),
    ("shopping", "#ec4899"),
    ("health", "#10b981"),
    ("other", "#6b7280")
  ]

  /** The names present in a categories table. */
  function Names(cats: seq<Category>): set<string> {
    set c | c in cats :: c.name
  }

  /** Some row of `s` has this id. */
  predicate HasId(s: seq<Expense>, id: int) {
    exists k :: 0 <= k < |s| && s[k].id == id
  }

  /** Ids grow strictly along the table, as AUTOINCREMENT hands them out. */
  ghost predicate IdsIncreasing(s: seq<Expense>) {
    forall i, j :: 0 <= i < j < |s| ==> s[i].id < s[j].id
  }
}
