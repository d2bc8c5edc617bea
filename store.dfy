/** The backend's two SQLite tables as one in-memory store, with one method
    per HTTP endpoint. Table order is insertion order, which is also id order. */
module Store {
  import opened Basics
  import opened Records
  import opened Validation
  import opened Sorting
  import Listing
  import Report

  /** The categories table that inserting `seeds` in order into an empty
      table builds, when their names are distinct: ids 1, 2, 3, ... */
  function Numbered(seeds: seq<(string, string)>): seq<Category> {
    seq(|seeds|, i requires 0 <= i < |seeds| => Category(i + 1, seeds[i].0, seeds[i].1))
  }

  /** The categories table of a freshly created database. */
  function InitialCategories(): seq<Category> {
    Numbered(SeedCategories)
  }

  /** The names of a list of `(name, color)` rows. */
  function SeedNames(seeds: seq<(string, string)>): set<string>
    decreases |seeds|
  {
    if seeds == [] then {}
    else SeedNames(seeds[..|seeds| - 1]) + {seeds[|seeds| - 1].0}
  }

  ghost predicate SeedNamesDistinct(seeds: seq<(string, string)>) {
    forall i, j :: 0 <= i < j < |seeds| ==> seeds[i].0 != seeds[j].0
  }

  lemma SeedCategoriesDistinct()
    ensures SeedNamesDistinct(SeedCategories)
  {
  }

  /** The first `i` rows of a numbered table do not yet hold the `i`-th
      name, and the next insert extends them by the next numbered row. */
  lemma NumberedPrefix(seeds: seq<(string, string)>, i: nat)
    requires SeedNamesDistinct(seeds) && i < |seeds|
    ensures seeds[i].0 !in Names(Numbered(seeds)[..i])
    ensures Numbered(seeds)[..i] + [Category(i + 1, seeds[i].0, seeds[i].1)] == Numbered(seeds)[..i + 1]
  {
    var pre := Numbered(seeds)[..i];
    forall c | c in pre
      ensures c.name != seeds[i].0
    {
      var k :| 0 <= k < i && pre[k] == c;
      assert c.name == seeds[k].0;
    }
  }

  /** The categories-table constraints: AUTOINCREMENT keys handed out in
      increasing order below `next`, and `name TEXT UNIQUE`. */
  ghost predicate CategoriesWellFormed(cats: seq<Category>, next: int) {
    && 0 < next
    && NamesDistinct(cats)
    && (forall i, j :: 0 <= i < j < |cats| ==> cats[i].id < cats[j].id)
    && (forall k :: 0 <= k < |cats| ==> 0 < cats[k].id < next)
  }

  /** `INSERT OR IGNORE INTO categories (name, color)`: the table and the
      next id afterwards. */
  function InsertOrIgnore(cats: seq<Category>, next: int, name: string, color: string): (seq<Category>, int) {
    if name in Names(cats) then (cats, next) else (cats + [Category(next, name, color)], next + 1)
  }

  /** The same insert for each row of `seeds` in turn (`executemany`). */
  function InsertOrIgnoreAll(cats: seq<Category>, next: int, seeds: seq<(string, string)>): (seq<Category>, int)
    decreases |seeds|
  {
    if seeds == [] then (cats, next)
    else
      var r := InsertOrIgnoreAll(cats, next, seeds[..|seeds| - 1]);
      InsertOrIgnore(r.0, r.1, seeds[|seeds| - 1].0, seeds[|seeds| - 1].1)
  }

  lemma NamesAppend(cats: seq<Category>, c: Category)
    ensures Names(cats + [c]) == Names(cats) + {c.name}
  {
    forall d | d in cats + [c]
      ensures d in cats || d == c
    {
    }
    assert forall k :: 0 <= k < |cats| ==> (cats + [c])[k] == cats[k];
  }

  /** An insert-or-ignore keeps the constraints, keeps the rows already
      there, adds the name, and adds only a row with this name and colour. */
  lemma InsertOrIgnoreKeeps(cats: seq<Category>, next: int, name: string, color: string)
    requires CategoriesWellFormed(cats, next)
    ensures var r := InsertOrIgnore(cats, next, name, color);
      && CategoriesWellFormed(r.0, r.1)
      && cats <= r.0
      && Names(r.0) == Names(cats) + {name}
      && (forall k :: |cats| <= k < |r.0| ==> r.0[k] == Category(next, name, color))
  {
    var c := Category(next, name, color);
    NamesAppend(cats, c);
    if name !in Names(cats) {
      forall k | 0 <= k < |cats|
        ensures cats[k].name != name
      {
        assert cats[k] in cats;
      }
    }
  }

  /** Inserting several rows keeps the constraints and the rows already
      there, and adds exactly the seed names. */
  lemma {:induction false} InsertOrIgnoreAllKeeps(cats: seq<Category>, next: int, seeds: seq<(string, string)>)
    requires CategoriesWellFormed(cats, next)
    ensures var r := InsertOrIgnoreAll(cats, next, seeds);
      && CategoriesWellFormed(r.0, r.1)
      && cats <= r.0
      && Names(r.0) == Names(cats) + SeedNames(seeds)
    decreases |seeds|
  {
    if seeds != [] {
      var n := |seeds| - 1;
      InsertOrIgnoreAllKeeps(cats, next, seeds[..n]);
      var r0 := InsertOrIgnoreAll(cats, next, seeds[..n]);
      InsertOrIgnoreKeeps(r0.0, r0.1, seeds[n].0, seeds[n].1);
    }
  }

  /** Every row that inserting several rows adds is one of those rows. */
  lemma {:induction false} InsertOrIgnoreAllAdds(cats: seq<Category>, next: int, seeds: seq<(string, string)>)
    requires CategoriesWellFormed(cats, next)
    ensures var r := InsertOrIgnoreAll(cats, next, seeds);
      forall k :: |cats| <= k < |r.0| ==> (r.0[k].name, r.0[k].color) in seeds
    decreases |seeds|
  {
    if seeds != [] {
      var n := |seeds| - 1;
      var init := seeds[..n];
      InsertOrIgnoreAllKeeps(cats, next, init);
      InsertOrIgnoreAllAdds(cats, next, init);
      var r0 := InsertOrIgnoreAll(cats, next, init);
      InsertOrIgnoreKeeps(r0.0, r0.1, seeds[n].0, seeds[n].1);
      var r := InsertOrIgnoreAll(cats, next, seeds);
      forall k | |cats| <= k < |r.0|
        ensures (r.0[k].name, r.0[k].color) in seeds
      {
        if k < |r0.0| {
          assert r.0[k] == r0.0[k];
          var j :| 0 <= j < |init| && init[j] == (r0.0[k].name, r0.0[k].color);
          assert seeds[j] == init[j];
        } else {
          assert (r.0[k].name, r.0[k].color) == seeds[n];
        }
      }
    }
  }

  /** Inserting rows with distinct names into an empty table numbers them
      1, 2, 3, ... in order. */
  lemma {:induction false} InsertOrIgnoreAllFromEmpty(seeds: seq<(string, string)>)
    requires SeedNamesDistinct(seeds)
    ensures InsertOrIgnoreAll([], 1, seeds) == (Numbered(seeds), |seeds| + 1)
    decreases |seeds|
  {
    if seeds != [] {
      var n := |seeds| - 1;
      var init := seeds[..n];
      InsertOrIgnoreAllFromEmpty(init);
      NumberedPrefix(seeds, n);
      assert Numbered(init) == Numbered(seeds)[..n];
      assert Numbered(seeds)[..n + 1] == Numbered(seeds);
      assert InsertOrIgnoreAll([], 1, seeds) == InsertOrIgnore(Numbered(init), n + 1, seeds[n].0, seeds[n].1);
    }
  }

  /** Ids handed out in increasing order, all positive and below the next one. */
  ghost predicate WellNumbered(s: seq<Expense>, next: int) {
    && IdsIncreasing(s)
    && forall k :: 0 <= k < |s| ==> 0 < s[k].id < next
  }

  lemma AppendNumbered(s: seq<Expense>, next: int, e: Expense)
    requires 0 < next && WellNumbered(s, next) && e.id == next
    ensures WellNumbered(s + [e], next + 1)
  {
  }

  /** `ORDER BY name`. */
  predicate NameBefore(a: Category, b: Category) {
    StrLt(a.name, b.name)
  }

  ghost predicate NamesDistinct(cats: seq<Category>) {
    forall i, j :: 0 <= i < j < |cats| ==> cats[i].name != cats[j].name
  }

  /** The row `add_expense` inserts: `note` defaults to '' and `category` to 'other'. */
  function NewExpense(id: int, p: Payload): Expense
    requires p.amount.Some? && p.amount.value.Number? && p.date.Some?
  {
    Expense(id, p.amount.value.value, p.date.value, p.note.GetOr(""), p.category.GetOr("other"))
  }

  /** `UPDATE expenses SET ...` with one assignment per key present in the body. */
  function Patch(e: Expense, p: Payload): Expense
    requires AmountUsable(p)
  {
    Expense(
      e.id,
      if p.amount.Some? then p.amount.value.value else e.amount,
      p.date.GetOr(e.date),
      p.note.GetOr(e.note),
      p.category.GetOr(e.category))
  }

  /** The body names at least one column to update. */
  predicate HasFields(p: Payload) {
    p.amount.Some? || p.date.Some? || p.note.Some? || p.category.Some?
  }

  /** The table after `UPDATE ... WHERE id = ?`. */
  function ReplaceById(s: seq<Expense>, id: int, p: Payload): seq<Expense>
    requires AmountUsable(p)
    decreases |s|
  {
    if s == [] then []
    else [if s[0].id == id then Patch(s[0], p) else s[0]] + ReplaceById(s[1..], id, p)
  }

  /** The table after `DELETE FROM expenses WHERE id = ?`. */
  function RemoveId(s: seq<Expense>, id: int): seq<Expense>
    decreases |s|
  {
    if s == [] then []
    else if s[0].id == id then RemoveId(s[1..], id)
    else [s[0]] + RemoveId(s[1..], id)
  }

  /** An update keeps the id, writes exactly the columns whose keys are
      present, and writing the same body twice changes nothing more. */
  lemma PatchFields(e: Expense, p: Payload)
    requires AmountUsable(p)
    ensures Patch(e, p).id == e.id
    ensures !HasFields(p) ==> Patch(e, p) == e
    ensures Patch(Patch(e, p), p) == Patch(e, p)
    ensures p.note.None? ==> Patch(e, p).note == e.note
    ensures p.category.None? ==> Patch(e, p).category == e.category
    ensures p.date.None? ==> Patch(e, p).date == e.date
    ensures p.amount.None? ==> Patch(e, p).amount == e.amount
  {
  }

  /** An update rewrites the row with that id and leaves every other row,
      and the order of the table, as it was. */
  lemma {:induction false} ReplaceByIdRows(s: seq<Expense>, id: int, p: Payload)
    requires AmountUsable(p)
    ensures |ReplaceById(s, id, p)| == |s|
    ensures forall k :: 0 <= k < |s| ==> ReplaceById(s, id, p)[k] == if s[k].id == id then Patch(s[k], p) else s[k]
    ensures forall k :: 0 <= k < |s| ==> ReplaceById(s, id, p)[k].id == s[k].id
    decreases |s|
  {
    if s != [] {
      ReplaceByIdRows(s[1..], id, p);
      var r := ReplaceById(s, id, p);
      forall k | 0 <= k < |s|
        ensures r[k] == if s[k].id == id then Patch(s[k], p) else s[k]
      {
        if k > 0 {
          assert r[k] == ReplaceById(s[1..], id, p)[k - 1];
        }
      }
    }
  }

  lemma TailIncreasing(s: seq<Expense>)
    requires s != [] && IdsIncreasing(s)
    ensures IdsIncreasing(s[1..])
    ensures forall k :: 0 <= k < |s[1..]| ==> s[0].id < s[1..][k].id
  {
    var tail := s[1..];
    forall a, b | 0 <= a < b < |tail|
      ensures tail[a].id < tail[b].id
    {
      assert tail[a] == s[a + 1] && tail[b] == s[b + 1];
    }
    forall k | 0 <= k < |tail|
      ensures s[0].id < tail[k].id
    {
      assert tail[k] == s[k + 1];
    }
  }

  /** Deleting an id that no row has changes nothing. */
  lemma {:induction false} RemoveIdAbsent(s: seq<Expense>, id: int)
    requires !HasId(s, id)
    ensures RemoveId(s, id) == s
    decreases |s|
  {
    if s != [] {
      assert s[0].id != id;
      assert !HasId(s[1..], id) by {
        forall j | 0 <= j < |s[1..]|
          ensures s[1..][j].id != id
        {
          assert s[1..][j] == s[j + 1];
        }
      }
      RemoveIdAbsent(s[1..], id);
      assert s == [s[0]] + s[1..];
    }
  }

  /** A delete keeps exactly the rows with another id. */
  lemma {:induction false} RemoveIdMembers(s: seq<Expense>, id: int)
    ensures forall e :: e in RemoveId(s, id) <==> e in s && e.id != id
    decreases |s|
  {
    if s != [] {
      RemoveIdMembers(s[1..], id);
      assert s == [s[0]] + s[1..];
    }
  }

  /** Cutting out position `i` of an id-ordered table is deleting its id. */
  lemma {:induction false} RemoveAt(s: seq<Expense>, i: nat)
    requires IdsIncreasing(s) && i < |s|
    ensures s[..i] + s[i + 1..] == RemoveId(s, s[i].id)
    decreases |s|
  {
    var tail := s[1..];
    TailIncreasing(s);
    if i == 0 {
      RemoveIdAbsent(tail, s[0].id);
    } else {
      RemoveAt(tail, i - 1);
      assert tail[i - 1] == s[i];
      assert s[..i] + s[i + 1..] == [s[0]] + (tail[..i - 1] + tail[i..]);
    }
  }

  lemma CutIncreasing(s: seq<Expense>, i: nat)
    requires IdsIncreasing(s) && i < |s|
    ensures IdsIncreasing(s[..i] + s[i + 1..])
  {
    var r := s[..i] + s[i + 1..];
    forall a, b | 0 <= a < b < |r|
      ensures r[a].id < r[b].id
    {
      var a', b' := if a < i then a else a + 1, if b < i then b else b + 1;
      assert r[a] == s[a'] && r[b] == s[b'];
    }
  }

  /** A delete of an existing id removes that one row, keeping the others in
      order; a delete of a missing id changes nothing. */
  lemma RemoveIdRows(s: seq<Expense>, id: int)
    requires IdsIncreasing(s)
    ensures forall e :: e in RemoveId(s, id) <==> e in s && e.id != id
    ensures IdsIncreasing(RemoveId(s, id))
    ensures HasId(s, id) ==> |RemoveId(s, id)| == |s| - 1
    ensures !HasId(s, id) ==> RemoveId(s, id) == s
  {
    RemoveIdMembers(s, id);
    if HasId(s, id) {
      var i :| 0 <= i < |s| && s[i].id == id;
      RemoveAt(s, i);
      CutIncreasing(s, i);
    } else {
      RemoveIdAbsent(s, id);
    }
  }

  lemma ReplaceByIdNumbered(s: seq<Expense>, id: int, p: Payload, next: int)
    requires AmountUsable(p) && WellNumbered(s, next)
    ensures WellNumbered(ReplaceById(s, id, p), next)
  {
    ReplaceByIdRows(s, id, p);
  }

  lemma RemoveIdNumbered(s: seq<Expense>, id: int, next: int)
    requires WellNumbered(s, next)
    ensures WellNumbered(RemoveId(s, id), next)
  {
    RemoveIdRows(s, id);
    var r := RemoveId(s, id);
    forall k | 0 <= k < |r|
      ensures 0 < r[k].id < next
    {
      assert r[k] in r;
      var j :| 0 <= j < |s| && s[j] == r[k];
    }
  }

  /** Summary breakdowns: the dictionary loop of `get_summary`, entry by entry. */
  method Tally(rows: seq<Expense>, key: Expense -> string) returns (groups: seq<(string, Group)>)
    ensures groups == Report.Groups(rows, key)
  {
    groups := [];
    var i := 0;
    while i < |rows|
      invariant 0 <= i <= |rows|
      invariant groups == Report.Groups(rows[..i], key)
    {
      var e := rows[i];
      groups := Report.Bump(groups, key(e), e.amount);
      i := i + 1;
      assert rows[..i][..i - 1] == rows[..i - 1];
    }
    assert rows[..|rows|] == rows;
  }

  class ExpenseStore {
    /** The `expenses` table, in insertion order. */
    var expenses: seq<Expense>
    /** The next AUTOINCREMENT id of `expenses`. */
    var nextId: int
    /** The `categories` table, in insertion order. */
    var categories: seq<Category>
    /** The next AUTOINCREMENT id of `categories`. */
    var nextCategoryId: int

    /** The constraints of the `expenses` table: AUTOINCREMENT keys. */
    ghost predicate ExpensesValid()
      reads this`expenses, this`nextId
    {
      0 < nextId && WellNumbered(expenses, nextId)
    }

    ghost predicate CategoriesValid()
      reads this`categories, this`nextCategoryId
    {
      CategoriesWellFormed(categories, nextCategoryId)
    }

    ghost predicate Valid()
      reads this
    {
      ExpensesValid() && CategoriesValid()
    }

    /** A new database after `init_db`. */
    constructor ()
      ensures Valid()
      ensures expenses == [] && nextId == 1
      ensures categories == InitialCategories()
    {
      expenses, nextId := [], 1;
      categories, nextCategoryId := [], 1;
      new;
      InitDb();
    }

    /** `INSERT OR IGNORE INTO categories`: the UNIQUE constraint on `name`
        turns the insert of a name already present into nothing. */
    method InsertOrIgnoreCategory(name: string, color: string)
      requires CategoriesValid()
      modifies this`categories, this`nextCategoryId
      ensures CategoriesValid()
      ensures (categories, nextCategoryId) == InsertOrIgnore(old(categories), old(nextCategoryId), name, color)
    {
      InsertOrIgnoreKeeps(categories, nextCategoryId, name, color);
      if name !in Names(categories) {
        categories := categories + [Category(nextCategoryId, name, color)];
        nextCategoryId := nextCategoryId + 1;
      }
    }

    /** `executemany` of the insert-or-ignore: each row in turn. */
    method InsertOrIgnoreMany(seeds: seq<(string, string)>)
      requires CategoriesValid()
      modifies this`categories, this`nextCategoryId
      ensures CategoriesValid()
      ensures (categories, nextCategoryId) == InsertOrIgnoreAll(old(categories), old(nextCategoryId), seeds)
    {
      var i := 0;
      while i < |seeds|
        invariant 0 <= i <= |seeds|
        invariant CategoriesValid()
        invariant (categories, nextCategoryId) == InsertOrIgnoreAll(old(categories), old(nextCategoryId), seeds[..i])
      {
        InsertOrIgnoreCategory(seeds[i].0, seeds[i].1);
        assert seeds[..i + 1][..i] == seeds[..i];
        i := i + 1;
      }
      assert seeds[..i] == seeds;
    }

    /** `init_db`: insert-or-ignore the seed categories; the expenses are
        untouched. */
    method InitDb()
      requires Valid()
      modifies this`categories, this`nextCategoryId
      ensures Valid()
      ensures old(categories) <= categories
      ensures Names(categories) == Names(old(categories)) + SeedNames(SeedCategories)
      ensures forall k :: |old(categories)| <= k < |categories| ==> (categories[k].name, categories[k].color) in SeedCategories
      ensures old(categories) == [] && old(nextCategoryId) == 1 ==> categories == InitialCategories()
    {
      InsertOrIgnoreAllKeeps(categories, nextCategoryId, SeedCategories);
      InsertOrIgnoreAllAdds(categories, nextCategoryId, SeedCategories);
      SeedCategoriesDistinct();
      InsertOrIgnoreAllFromEmpty(SeedCategories);
      InsertOrIgnoreMany(SeedCategories);
    }

    /** `validate_expense`: append each message as its check fails. */
    method ValidateExpense(p: Payload, isUpdate: bool) returns (errors: seq<string>)
      ensures errors == ValidationErrors(p, isUpdate, Names(categories))
    {
      errors := [];
      if !isUpdate || p.amount.Some? {
        match p.amount {
          case None =>
            errors := errors + [AmountRequired];
          case Some(NotANumber) =>
            errors := errors + [AmountNotNumber];
          case Some(Number(v)) =>
            if v <= 0.0 {
              errors := errors + [AmountNotPositive];
            }
        }
      }
      assert errors == AmountErrors(p, isUpdate);
      if !isUpdate || p.date.Some? {
        match p.date {
          case None =>
            errors := errors + [DateRequired];
          case Some(d) =>
            if !IsIsoDate(d) {
              errors := errors + [DateInvalid];
            }
        }
      }
      assert errors == AmountErrors(p, isUpdate) + DateErrors(p, isUpdate);
      if p.category.Some? && p.category.value != "" {
        var name := p.category.value;
        if name !in Names(categories) {
          errors := errors + [InvalidCategory(name)];
        }
      }
    }

    /** `SELECT * FROM expenses WHERE id = ?`: the position of that row. */
    method FindIndex(id: int) returns (i: Option<nat>)
      ensures i.Some? ==> i.value < |expenses| && expenses[i.value].id == id
      ensures i.None? <==> !HasId(expenses, id)
    {
      var k := 0;
      while k < |expenses|
        invariant 0 <= k <= |expenses|
        invariant forall j :: 0 <= j < k ==> expenses[j].id != id
      {
        if expenses[k].id == id {
          return Some(k);
        }
        k := k + 1;
      }
      return None;
    }

    /** `GET /api/expenses`: the matching rows, newest first, and their number. */
    method ListExpenses(q: Query) returns (rows: seq<Expense>, count: nat)
      requires Valid()
      ensures rows == Listing.Listed(expenses, q)
      ensures Sorted(rows, Listing.ListedBefore)
      ensures forall e :: e in rows <==> e in expenses && Listing.Matches(e, q)
      ensures count == |rows|
    {
      var matched := [];
      var i := 0;
      while i < |expenses|
        invariant 0 <= i <= |expenses|
        invariant matched == Listing.Matching(expenses[..i], q)
      {
        assert expenses[..i + 1][..i] == expenses[..i];
        if Listing.Matches(expenses[i], q) {
          matched := matched + [expenses[i]];
        }
        i := i + 1;
      }
      assert expenses[..|expenses|] == expenses;
      rows := Sort(matched, Listing.ListedBefore);
      count := |rows|;
      Listing.ListedCorrect(expenses, q);
    }

    /** `POST /api/expenses`: refuse a body with messages; otherwise insert one
        row under a fresh id and return it. */
    method AddExpense(p: Payload) returns (r: Reply<Expense>)
      requires Valid()
      modifies this`expenses, this`nextId
      ensures Valid()
      ensures var errs := ValidationErrors(p, false, Names(categories));
        if errs != [] then
          r == Errors(errs) && expenses == old(expenses) && nextId == old(nextId)
        else
          && p.amount.Some? && p.amount.value.Number? && p.date.Some?
          && r == Success(NewExpense(old(nextId), p))
          && expenses == old(expenses) + [r.data]
          && nextId == old(nextId) + 1
          && !HasId(old(expenses), r.data.id)
    {
      var errors := ValidateExpense(p, false);
      if errors != [] {
        return Errors(errors);
      }
      AcceptedAmountUsable(p, false, Names(categories));
      var e := NewExpense(nextId, p);
      AppendNumbered(expenses, nextId, e);
      expenses := expenses + [e];
      nextId := nextId + 1;
      r := Success(e);
    }

    /** `GET /api/expenses/<id>`. */
    method GetExpense(id: int) returns (r: Reply<Expense>)
      ensures r.Success? <==> HasId(expenses, id)
      ensures r.Success? ==> r.data in expenses && r.data.id == id
      ensures !r.Success? ==> r == Error(NotFound)
    {
      var i := FindIndex(id);
      if i.None? {
        return Error(NotFound);
      }
      r := Success(expenses[i.value]);
    }

    /** `PUT /api/expenses/<id>`: not found, then validation, then "no fields",
        then the partial update. */
    method UpdateExpense(id: int, p: Payload) returns (r: Reply<Expense>)
      requires Valid()
      modifies this`expenses
      ensures Valid()
      ensures var errs := ValidationErrors(p, true, Names(categories));
        if !HasId(old(expenses), id) then
          r == Error(NotFound) && expenses == old(expenses)
        else if errs != [] then
          r == Errors(errs) && expenses == old(expenses)
        else if !HasFields(p) then
          r == Error(NoFieldsToUpdate) && expenses == old(expenses)
        else
          && AmountUsable(p)
          && expenses == ReplaceById(old(expenses), id, p)
          && r.Success? && r.data in expenses && r.data.id == id
    {
      var i := FindIndex(id);
      if i.None? {
        return Error(NotFound);
      }
      var errors := ValidateExpense(p, true);
      if errors != [] {
        return Errors(errors);
      }
      if !HasFields(p) {
        return Error(NoFieldsToUpdate);
      }
      AcceptedAmountUsable(p, true, Names(categories));
      ReplaceByIdRows(expenses, id, p);
      ReplaceByIdNumbered(expenses, id, p, nextId);
      var updated := ReplaceById(expenses, id, p);
      assert updated[i.value] == Patch(expenses[i.value], p);
      expenses := updated;
      r := Success(expenses[i.value]);
    }

    /** `DELETE /api/expenses/<id>`. */
    method DeleteExpense(id: int) returns (r: Reply<()>)
      requires Valid()
      modifies this`expenses
      ensures Valid()
      ensures !HasId(old(expenses), id) ==> r == Error(NotFound) && expenses == old(expenses)
      ensures HasId(old(expenses), id) ==> r == Success(()) && expenses == RemoveId(old(expenses), id)
    {
      var i := FindIndex(id);
      if i.None? {
        return Error(NotFound);
      }
      RemoveIdNumbered(expenses, id, nextId);
      expenses := RemoveId(expenses, id);
      r := Success(());
    }

    /** `GET /api/categories`: every category once, by name. */
    method GetCategories() returns (r: Reply<seq<Category>>)
      requires Valid()
      ensures r.Success?
      ensures Sorted(r.data, NameBefore)
      ensures multiset(r.data) == multiset(categories)
    {
      assert Transitive(NameBefore) by {
        forall a: Category, b: Category, c: Category | NameBefore(a, b) && NameBefore(b, c)
          ensures NameBefore(a, c)
        {
          StrLtTransitive(a.name, b.name, c.name);
        }
      }
      forall i, j | 0 <= i < |categories| && 0 <= j < |categories| && i != j
        ensures NameBefore(categories[i], categories[j]) || NameBefore(categories[j], categories[i])
      {
        StrLtTotal(categories[i].name, categories[j].name);
      }
      SortSorted(categories, NameBefore);
      r := Success(Sort(categories, NameBefore));
    }

    /** `GET /api/reports/summary`: only `group_by` and the date bounds are read. */
    method GetSummary(groupBy: string, startDate: Option<string>, endDate: Option<string>) returns (s: Summary)
      ensures s == Report.Summarize(Report.DateRows(expenses, startDate, endDate), groupBy)
    {
      var rows := Report.DateRows(expenses, startDate, endDate);
      s := Summary(Report.Total(rows), |rows|, None, None);
      if groupBy == "category" {
        var groups := Tally(rows, Report.CategoryKey);
        s := s.(byCategory := Some(groups));
      } else if groupBy == "month" {
        var groups := Tally(rows, Report.MonthKey);
        s := s.(byMonth := Some(Sort(groups, Report.KeyBefore)));
      }
    }
  }
}
