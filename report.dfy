/** `get_summary`: the total, the count, and the `by_category` / `by_month`
    breakdowns over the rows inside the date bounds. The store's
    `GetSummary` method runs the folds as loops; the functions here say what
    each loop must build, and the lemmas what the result means. */
module Report {
  import opened Basics
  import opened Records
  import opened Sorting
  import Listing

  /** `sum(exp['amount'] for exp in expenses)`, adding from the left. */
  function Total(rows: seq<Expense>): real
    decreases |rows|
  {
    if rows == [] then 0.0 else Total(rows[..|rows| - 1]) + rows[|rows| - 1].amount
  }

  /** The summary reads only the date bounds: its rows are those of a listing
      query without a category. */
  function DateRows(s: seq<Expense>, startDate: Option<string>, endDate: Option<string>): seq<Expense> {
    Listing.Matching(s, Query(None, startDate, endDate))
  }

  /** A total of positive amounts is positive exactly when there is a row. */
  lemma {:induction false} TotalPositive(rows: seq<Expense>)
    ensures rows == [] ==> Total(rows) == 0.0
    ensures (forall k :: 0 <= k < |rows| ==> rows[k].amount > 0.0) ==> (Total(rows) > 0.0 <==> rows != [])
    decreases |rows|
  {
    if rows != [] {
      var init := rows[..|rows| - 1];
      TotalPositive(init);
      if forall k :: 0 <= k < |rows| ==> rows[k].amount > 0.0 {
        assert forall k :: 0 <= k < |init| ==> init[k].amount > 0.0 by {
          forall k | 0 <= k < |init|
            ensures init[k].amount > 0.0
          {
            assert init[k] == rows[k];
          }
        }
      }
    }
  }

  /** The grouping key of `by_category`. */
  function CategoryKey(e: Expense): string {
    e.category
  }

  /** The grouping key of `by_month`: `date[:7]`, the whole date when shorter. */
  function MonthKey(e: Expense): string {
    if |e.date| <= 7 then e.date else e.date[..7]
  }

  /** One more row for a group. */
  function Add(g: Group, amount: real): Group {
    Group(g.total + amount, g.count + 1)
  }

  const Empty := Group(0.0, 0)

  /** The dictionary step of the loop: create the entry `{total: 0, count: 0}`
      at the end when the key is new, then add the row to it. A dictionary
      keeps its keys in insertion order, so it is a list of pairs here. */
  function Bump(gs: seq<(string, Group)>, k: string, amount: real): seq<(string, Group)>
    decreases |gs|
  {
    if gs == [] then [(k, Add(Empty, amount))]
    else if gs[0].0 == k then [(k, Add(gs[0].1, amount))] + gs[1..]
    else [gs[0]] + Bump(gs[1..], k, amount)
  }

  /** The dictionary the grouping loop has built after the rows `rows`. */
  function Groups(rows: seq<Expense>, key: Expense -> string): seq<(string, Group)>
    decreases |rows|
  {
    if rows == [] then []
    else
      var e := rows[|rows| - 1];
      Bump(Groups(rows[..|rows| - 1], key), key(e), e.amount)
  }

  /** The `data` of the summary reply over `rows`. */
  function Summarize(rows: seq<Expense>, groupBy: string): Summary {
    Summary(
      Total(rows),
      |rows|,
      if groupBy == "category" then Some(Groups(rows, CategoryKey)) else None,
      if groupBy == "month" then Some(Sort(Groups(rows, MonthKey), KeyBefore)) else None)
  }

  /** `sorted(months.items())`: by key, ascending. */
  predicate KeyBefore(a: (string, Group), b: (string, Group)) {
    StrLt(a.0, b.0)
  }

  // ---------------------------------------------------------------------
  // Independent descriptions of a breakdown, and what they give.

  function Keys(gs: seq<(string, Group)>): set<string> {
    set p | p in gs :: p.0
  }

  ghost predicate DistinctKeys(gs: seq<(string, Group)>) {
    forall i, j :: 0 <= i < j < |gs| ==> gs[i].0 != gs[j].0
  }

  function SumTotals(gs: seq<(string, Group)>): real
    decreases |gs|
  {
    if gs == [] then 0.0 else gs[0].1.total + SumTotals(gs[1..])
  }

  function SumCounts(gs: seq<(string, Group)>): nat
    decreases |gs|
  {
    if gs == [] then 0 else gs[0].1.count + SumCounts(gs[1..])
  }

  /** The rows with key `k`, in table order. */
  function Select(rows: seq<Expense>, key: Expense -> string, k: string): seq<Expense>
    decreases |rows|
  {
    if rows == [] then []
    else
      var e := rows[|rows| - 1];
      Select(rows[..|rows| - 1], key, k) + (if key(e) == k then [e] else [])
  }

  /** The entry a breakdown should hold for key `k`: the total and number of
      the rows with that key. */
  function GroupOf(rows: seq<Expense>, key: Expense -> string, k: string): Group {
    var sel := Select(rows, key, k);
    Group(Total(sel), |sel|)
  }

  /** The keys of the rows. */
  function RowKeys(rows: seq<Expense>, key: Expense -> string): set<string> {
    set e | e in rows :: key(e)
  }

  /** The group stored under `k`, or the empty group. */
  function Find(gs: seq<(string, Group)>, k: string): Group
    decreases |gs|
  {
    if gs == [] then Empty else if gs[0].0 == k then gs[0].1 else Find(gs[1..], k)
  }

  // ---------------------------------------------------------------------
  // Lemmas.

  lemma {:induction false} TotalCons(x: Expense, rows: seq<Expense>)
    ensures Total([x] + rows) == x.amount + Total(rows)
    decreases |rows|
  {
    if rows != [] {
      var init := rows[..|rows| - 1];
      assert ([x] + rows)[..|rows|] == [x] + init;
      TotalCons(x, init);
    }
  }

  /** Adding up in another order gives the same total. */
  lemma {:induction false} TotalInsert(x: Expense, s: seq<Expense>, lt: (Expense, Expense) -> bool)
    ensures Total(Insert(x, s, lt)) == x.amount + Total(s)
    decreases |s|
  {
    if s == [] {
      assert Insert(x, s, lt) == [x] + [];
      TotalCons(x, []);
    } else if lt(x, s[0]) {
      TotalCons(x, s);
    } else {
      TotalInsert(x, s[1..], lt);
      TotalCons(s[0], Insert(x, s[1..], lt));
      TotalCons(s[0], s[1..]);
      assert s == [s[0]] + s[1..];
    }
  }

  lemma {:induction false} TotalSort(s: seq<Expense>, lt: (Expense, Expense) -> bool)
    ensures Total(Sort(s, lt)) == Total(s)
    decreases |s|
  {
    if s != [] {
      TotalSort(s[1..], lt);
      TotalInsert(s[0], Sort(s[1..], lt), lt);
      TotalCons(s[0], s[1..]);
      assert s == [s[0]] + s[1..];
    }
  }

  /** A step adds the amount to exactly one group and one to its count. */
  lemma {:induction false} BumpSums(gs: seq<(string, Group)>, k: string, amount: real)
    ensures SumTotals(Bump(gs, k, amount)) == SumTotals(gs) + amount
    ensures SumCounts(Bump(gs, k, amount)) == SumCounts(gs) + 1
    decreases |gs|
  {
    if gs != [] && gs[0].0 != k {
      BumpSums(gs[1..], k, amount);
    }
  }

  lemma {:induction false} BumpKeys(gs: seq<(string, Group)>, k: string, amount: real)
    ensures Keys(Bump(gs, k, amount)) == Keys(gs) + {k}
    decreases |gs|
  {
    if gs != [] {
      assert gs == [gs[0]] + gs[1..];
      if gs[0].0 != k {
        BumpKeys(gs[1..], k, amount);
        assert Keys(Bump(gs, k, amount)) == {gs[0].0} + Keys(Bump(gs[1..], k, amount));
      }
      assert Keys(gs) == {gs[0].0} + Keys(gs[1..]);
    }
  }

  lemma TailDistinct(gs: seq<(string, Group)>)
    requires gs != [] && DistinctKeys(gs)
    ensures DistinctKeys(gs[1..])
    ensures gs[0].0 !in Keys(gs[1..])
  {
    var tail := gs[1..];
    forall i, j | 0 <= i < j < |tail|
      ensures tail[i].0 != tail[j].0
    {
      assert tail[i] == gs[i + 1] && tail[j] == gs[j + 1];
    }
    forall p | p in tail
      ensures p.0 != gs[0].0
    {
      var j :| 0 <= j < |tail| && tail[j] == p;
      assert gs[j + 1] == p;
    }
  }

  /** A step never gives two entries the same key. */
  lemma {:induction false} BumpDistinct(gs: seq<(string, Group)>, k: string, amount: real)
    requires DistinctKeys(gs)
    ensures DistinctKeys(Bump(gs, k, amount))
    decreases |gs|
  {
    if gs != [] {
      TailDistinct(gs);
      var r := Bump(gs, k, amount);
      if gs[0].0 == k {
        assert r == [(k, Add(gs[0].1, amount))] + gs[1..];
        forall i, j | 0 <= i < j < |r|
          ensures r[i].0 != r[j].0
        {
          assert r[j] == gs[j];
          if i > 0 {
            assert r[i] == gs[i];
          }
        }
      } else {
        var rt := Bump(gs[1..], k, amount);
        BumpDistinct(gs[1..], k, amount);
        BumpKeys(gs[1..], k, amount);
        assert r == [gs[0]] + rt;
        forall i, j | 0 <= i < j < |r|
          ensures r[i].0 != r[j].0
        {
          assert r[j] == rt[j - 1] && rt[j - 1] in rt && rt[j - 1].0 in Keys(rt);
          if i > 0 {
            assert r[i] == rt[i - 1];
          }
        }
      }
    }
  }

  /** A step keeps the other entries, and the entry for `k` is the old one
      (or the empty group) with the row added. */
  lemma {:induction false} BumpMembers(gs: seq<(string, Group)>, k: string, amount: real)
    requires DistinctKeys(gs)
    ensures forall p :: p in Bump(gs, k, amount) <==> (p in gs && p.0 != k) || p == (k, Add(Find(gs, k), amount))
    decreases |gs|
  {
    if gs != [] {
      TailDistinct(gs);
      assert gs == [gs[0]] + gs[1..];
      if gs[0].0 != k {
        BumpMembers(gs[1..], k, amount);
        assert Bump(gs, k, amount) == [gs[0]] + Bump(gs[1..], k, amount);
      } else {
        assert Bump(gs, k, amount) == [(k, Add(gs[0].1, amount))] + gs[1..];
      }
    }
  }

  /** The breakdown adds up to the summary: group totals sum to the total and
      group counts to the count. */
  lemma {:induction false} GroupsPartition(rows: seq<Expense>, key: Expense -> string)
    ensures SumTotals(Groups(rows, key)) == Total(rows)
    ensures SumCounts(Groups(rows, key)) == |rows|
    decreases |rows|
  {
    if rows != [] {
      var e := rows[|rows| - 1];
      GroupsPartition(rows[..|rows| - 1], key);
      BumpSums(Groups(rows[..|rows| - 1], key), key(e), e.amount);
    }
  }

  /** Each key appears once in a breakdown, and the keys are exactly the rows' keys. */
  lemma {:induction false} GroupsKeys(rows: seq<Expense>, key: Expense -> string)
    ensures DistinctKeys(Groups(rows, key))
    ensures Keys(Groups(rows, key)) == RowKeys(rows, key)
    decreases |rows|
  {
    if rows != [] {
      var n := |rows| - 1;
      var init, e := rows[..n], rows[n];
      assert rows == init + [e];
      GroupsKeys(init, key);
      BumpDistinct(Groups(init, key), key(e), e.amount);
      BumpKeys(Groups(init, key), key(e), e.amount);
      assert RowKeys(rows, key) == RowKeys(init, key) + {key(e)};
    }
  }

  /** The group of a key after one more row. */
  lemma GroupOfStep(rows: seq<Expense>, key: Expense -> string, k: string)
    requires rows != []
    ensures var n := |rows| - 1;
      GroupOf(rows, key, k) == if key(rows[n]) == k then Add(GroupOf(rows[..n], key, k), rows[n].amount) else GroupOf(rows[..n], key, k)
  {
    var n := |rows| - 1;
    if key(rows[n]) == k {
      TotalAppend(Select(rows[..n], key, k), rows[n]);
    } else {
      assert Select(rows, key, k) == Select(rows[..n], key, k) + [];
      assert Select(rows, key, k) == Select(rows[..n], key, k);
    }
  }

  /** Each breakdown entry is exactly the total and count of the rows with its key. */
  lemma {:induction false} GroupsExact(rows: seq<Expense>, key: Expense -> string)
    ensures forall p :: p in Groups(rows, key) ==> p.1 == GroupOf(rows, key, p.0)
    decreases |rows|
  {
    if rows != [] {
      var n := |rows| - 1;
      var init, e := rows[..n], rows[n];
      GroupsExact(init, key);
      GroupsKeys(init, key);
      var gs := Groups(init, key);
      BumpMembers(gs, key(e), e.amount);
      FindExact(gs, init, key, key(e));
      forall p | p in Groups(rows, key)
        ensures p.1 == GroupOf(rows, key, p.0)
      {
        GroupOfStep(rows, key, p.0);
      }
    }
  }

  /** Looking a key up in an exact breakdown gives its rows' group. */
  lemma FindExact(gs: seq<(string, Group)>, rows: seq<Expense>, key: Expense -> string, k: string)
    requires DistinctKeys(gs)
    requires Keys(gs) == RowKeys(rows, key)
    requires forall p :: p in gs ==> p.1 == GroupOf(rows, key, p.0)
    ensures Find(gs, k) == GroupOf(rows, key, k)
  {
    if k in Keys(gs) {
      FindMember(gs, k);
    } else {
      FindAbsent(gs, k);
      SelectAbsent(rows, key, k);
    }
  }

  lemma {:induction false} FindMember(gs: seq<(string, Group)>, k: string)
    requires k in Keys(gs)
    ensures (k, Find(gs, k)) in gs
    decreases |gs|
  {
    if gs[0].0 != k {
      assert k in Keys(gs[1..]) by {
        var p :| p in gs && p.0 == k;
        var i :| 0 <= i < |gs| && gs[i] == p;
        assert gs[1..][i - 1] == p;
      }
      FindMember(gs[1..], k);
    }
  }

  lemma {:induction false} FindAbsent(gs: seq<(string, Group)>, k: string)
    requires k !in Keys(gs)
    ensures Find(gs, k) == Empty
    decreases |gs|
  {
    if gs != [] {
      assert gs[0] in gs;
      assert Keys(gs[1..]) <= Keys(gs);
      FindAbsent(gs[1..], k);
    }
  }

  lemma {:induction false} SelectAbsent(rows: seq<Expense>, key: Expense -> string, k: string)
    requires k !in RowKeys(rows, key)
    ensures Select(rows, key, k) == []
    decreases |rows|
  {
    if rows != [] {
      var init := rows[..|rows| - 1];
      assert rows[|rows| - 1] in rows;
      assert RowKeys(init, key) <= RowKeys(rows, key);
      SelectAbsent(init, key, k);
    }
  }

  lemma TotalAppend(s: seq<Expense>, e: Expense)
    ensures Total(s + [e]) == Total(s) + e.amount
  {
    assert (s + [e])[..|s|] == s;
  }

  /** Every entry of a breakdown stands for at least one row. */
  lemma GroupsNonEmpty(rows: seq<Expense>, key: Expense -> string)
    ensures forall p :: p in Groups(rows, key) ==> p.1.count >= 1
  {
    GroupsExact(rows, key);
    GroupsKeys(rows, key);
    forall p | p in Groups(rows, key)
      ensures p.1.count >= 1
    {
      assert p.0 in RowKeys(rows, key);
      var e :| e in rows && key(e) == p.0;
      SelectHas(rows, key, e);
    }
  }

  lemma {:induction false} SelectHas(rows: seq<Expense>, key: Expense -> string, e: Expense)
    requires e in rows
    ensures e in Select(rows, key, key(e))
    decreases |rows|
  {
    var n := |rows| - 1;
    if rows[n] != e {
      assert rows == rows[..n] + [rows[n]];
      SelectHas(rows[..n], key, e);
    }
  }

  lemma KeyBeforeIsStrictOrder()
    ensures Irreflexive(KeyBefore)
    ensures Transitive(KeyBefore)
  {
    forall a: (string, Group)
      ensures !KeyBefore(a, a)
    {
      StrLtIrreflexive(a.0);
    }
    forall a: (string, Group), b: (string, Group), c: (string, Group) | KeyBefore(a, b) && KeyBefore(b, c)
      ensures KeyBefore(a, c)
    {
      StrLtTransitive(a.0, b.0, c.0);
    }
  }

  lemma {:induction false} SumInsert(x: (string, Group), s: seq<(string, Group)>)
    ensures SumTotals(Insert(x, s, KeyBefore)) == x.1.total + SumTotals(s)
    ensures SumCounts(Insert(x, s, KeyBefore)) == x.1.count + SumCounts(s)
    decreases |s|
  {
    if s != [] && !KeyBefore(x, s[0]) {
      SumInsert(x, s[1..]);
    }
  }

  lemma {:induction false} SumSort(s: seq<(string, Group)>)
    ensures SumTotals(Sort(s, KeyBefore)) == SumTotals(s)
    ensures SumCounts(Sort(s, KeyBefore)) == SumCounts(s)
    decreases |s|
  {
    if s != [] {
      SumSort(s[1..]);
      SumInsert(s[0], Sort(s[1..], KeyBefore));
    }
  }

  /** `by_month` lists the month groups by ascending key, each month once,
      and still adds up to the total and the count. */
  lemma ByMonthSorted(rows: seq<Expense>)
    ensures var months := Sort(Groups(rows, MonthKey), KeyBefore);
      && Sorted(months, KeyBefore)
      && multiset(months) == multiset(Groups(rows, MonthKey))
      && SumTotals(months) == Total(rows)
      && SumCounts(months) == |rows|
  {
    var gs := Groups(rows, MonthKey);
    GroupsKeys(rows, MonthKey);
    GroupsPartition(rows, MonthKey);
    KeyBeforeIsStrictOrder();
    forall i, j | 0 <= i < |gs| && 0 <= j < |gs| && i != j
      ensures KeyBefore(gs[i], gs[j]) || KeyBefore(gs[j], gs[i])
    {
      if i < j {
        StrLtTotal(gs[i].0, gs[j].0);
      } else {
        StrLtTotal(gs[j].0, gs[i].0);
      }
    }
    SortSorted(gs, KeyBefore);
    SumSort(gs);
  }

  /** What a summary says about its rows: `total` is the sum of the amounts
      and `count` the number of rows; a `by_category` or `by_month` breakdown
      partitions the rows by key, every entry holding the total and count
      (at least one) of the rows with that key. */
  lemma SummarizeCorrect(rows: seq<Expense>, groupBy: string)
    ensures var s := Summarize(rows, groupBy);
      && s.total == Total(rows) && s.count == |rows|
      && (s.byCategory.Some? <==> groupBy == "category")
      && (s.byMonth.Some? <==> groupBy == "month")
      && (s.byCategory.Some? ==>
            && SumTotals(s.byCategory.value) == s.total
            && SumCounts(s.byCategory.value) == s.count
            && DistinctKeys(s.byCategory.value)
            && Keys(s.byCategory.value) == RowKeys(rows, CategoryKey)
            && (forall p :: p in s.byCategory.value ==> p.1 == GroupOf(rows, CategoryKey, p.0) && p.1.count >= 1))
      && (s.byMonth.Some? ==>
            && SumTotals(s.byMonth.value) == s.total
            && SumCounts(s.byMonth.value) == s.count
            && Sorted(s.byMonth.value, KeyBefore)
            && Keys(s.byMonth.value) == RowKeys(rows, MonthKey)
            && (forall p :: p in s.byMonth.value ==> p.1 == GroupOf(rows, MonthKey, p.0) && p.1.count >= 1))
  {
    var s := Summarize(rows, groupBy);
    if groupBy == "category" {
      GroupsPartition(rows, CategoryKey);
      GroupsExact(rows, CategoryKey);
      GroupsKeys(rows, CategoryKey);
      GroupsNonEmpty(rows, CategoryKey);
    } else if groupBy == "month" {
      var gs := Groups(rows, MonthKey);
      var months := s.byMonth.value;
      ByMonthSorted(rows);
      GroupsExact(rows, MonthKey);
      GroupsKeys(rows, MonthKey);
      GroupsNonEmpty(rows, MonthKey);
      forall p
        ensures p in months <==> p in gs
      {
        assert p in months <==> p in multiset(months);
      }
      assert Keys(months) == Keys(gs);
    }
  }

  /** A listing and a summary over the same date bounds, with no category
      constraint, agree on the total and the count. */
  lemma ListingAgreesWithSummary(s: seq<Expense>, q: Query, groupBy: string)
    requires IdsIncreasing(s)
    requires !Listing.Active(q.category)
    ensures Total(Listing.Listed(s, q)) == Summarize(DateRows(s, q.startDate, q.endDate), groupBy).total
    ensures |Listing.Listed(s, q)| == Summarize(DateRows(s, q.startDate, q.endDate), groupBy).count
  {
    Listing.MatchingSameQuery(s, q, Query(None, q.startDate, q.endDate));
    Listing.ListedCorrect(s, q);
    TotalSort(Listing.Matching(s, q), Listing.ListedBefore);
  }
}
