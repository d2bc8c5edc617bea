/** `get_expenses`: which rows a query selects and the order they come back in
    (`WHERE category = ? AND date >= ? AND date <= ? ORDER BY date DESC, id DESC`). */
module Listing {
  import opened Basics
  import opened Records
  import opened Sorting

  /** An argument constrains the query only when it is present and not empty
      (`if category:` in Python). */
  predicate Active(arg: Option<string>) {
    arg.Some? && arg.value != ""
  }

  /** The WHERE clause: category equality and inclusive date bounds, dates
      compared as TEXT. */
  predicate Matches(e: Expense, q: Query) {
    && (Active(q.category) ==> e.category == q.category.value)
    && (Active(q.startDate) ==> StrLe(q.startDate.value, e.date))
    && (Active(q.endDate) ==> StrLe(e.date, q.endDate.value))
  }

  /** The rows the WHERE clause selects, in table order. */
  function Matching(s: seq<Expense>, q: Query): (r: seq<Expense>)
    ensures forall e :: e in r <==> e in s && Matches(e, q)
    ensures |r| <= |s|
    decreases |s|
  {
    if s == [] then []
    else
      var last := s[|s| - 1];
      assert s == s[..|s| - 1] + [last];
      var init := Matching(s[..|s| - 1], q);
      if Matches(last, q) then init + [last] else init
  }

  /** Two queries that select the same rows produce the same listing. */
  lemma {:induction false} MatchingSameQuery(s: seq<Expense>, q1: Query, q2: Query)
    requires forall e :: Matches(e, q1) == Matches(e, q2)
    ensures Matching(s, q1) == Matching(s, q2)
    decreases |s|
  {
    if s != [] {
      MatchingSameQuery(s[..|s| - 1], q1, q2);
    }
  }

  /** An empty argument is the same as an absent one. */
  lemma EmptyArgumentIgnored(s: seq<Expense>, q: Query)
    ensures Matching(s, q.(category := Some(""))) == Matching(s, q.(category := None))
    ensures Matching(s, q.(startDate := Some(""))) == Matching(s, q.(startDate := None))
    ensures Matching(s, q.(endDate := Some(""))) == Matching(s, q.(endDate := None))
  {
    MatchingSameQuery(s, q.(category := Some("")), q.(category := None));
    MatchingSameQuery(s, q.(startDate := Some("")), q.(startDate := None));
    MatchingSameQuery(s, q.(endDate := Some("")), q.(endDate := None));
  }

  /** A query with no active argument selects the whole table, in order. */
  lemma {:induction false} MatchingUnconstrained(s: seq<Expense>, q: Query)
    requires !Active(q.category) && !Active(q.startDate) && !Active(q.endDate)
    ensures Matching(s, q) == s
    decreases |s|
  {
    if s != [] {
      MatchingUnconstrained(s[..|s| - 1], q);
      assert s == s[..|s| - 1] + [s[|s| - 1]];
    }
  }

  /** A query no row satisfies selects nothing. */
  lemma MatchingNone(s: seq<Expense>, q: Query)
    requires forall e :: e in s ==> !Matches(e, q)
    ensures Matching(s, q) == []
  {
    var r := Matching(s, q);
    assert forall i :: 0 <= i < |r| ==> r[i] in r;
  }

  /** Selecting rows keeps them in table order. */
  lemma {:induction false} MatchingIdsIncreasing(s: seq<Expense>, q: Query)
    requires IdsIncreasing(s)
    ensures IdsIncreasing(Matching(s, q))
    decreases |s|
  {
    if s != [] {
      var init := s[..|s| - 1];
      MatchingIdsIncreasing(init, q);
      var m := Matching(init, q);
      forall e | e in m
        ensures e.id < s[|s| - 1].id
      {
        var k :| 0 <= k < |init| && init[k] == e;
      }
    }
  }

  /** `ORDER BY date DESC, id DESC`: `a` is listed before `b`. */
  predicate ListedBefore(a: Expense, b: Expense) {
    StrLt(b.date, a.date) || (a.date == b.date && a.id > b.id)
  }

  lemma ListedBeforeIsStrictOrder()
    ensures Irreflexive(ListedBefore)
    ensures Transitive(ListedBefore)
  {
    forall a: Expense
      ensures !ListedBefore(a, a)
    {
      StrLtIrreflexive(a.date);
    }
    forall a: Expense, b: Expense, c: Expense | ListedBefore(a, b) && ListedBefore(b, c)
      ensures ListedBefore(a, c)
    {
      if StrLt(b.date, a.date) && StrLt(c.date, b.date) {
        StrLtTransitive(c.date, b.date, a.date);
      }
    }
  }

  /** The `data` of a listing. */
  function Listed(s: seq<Expense>, q: Query): seq<Expense> {
    Sort(Matching(s, q), ListedBefore)
  }

  /** A listing holds exactly the rows matching the query, each once, newest
      date first and, within a date, highest id first. */
  lemma ListedCorrect(s: seq<Expense>, q: Query)
    requires IdsIncreasing(s)
    ensures Sorted(Listed(s, q), ListedBefore)
    ensures forall e :: e in Listed(s, q) <==> e in s && Matches(e, q)
    ensures multiset(Listed(s, q)) == multiset(Matching(s, q))
    ensures |Listed(s, q)| == |Matching(s, q)|
  {
    var m := Matching(s, q);
    MatchingIdsIncreasing(s, q);
    ListedBeforeIsStrictOrder();
    forall i, j | 0 <= i < |m| && 0 <= j < |m| && i != j
      ensures ListedBefore(m[i], m[j]) || ListedBefore(m[j], m[i])
    {
      if m[i].date != m[j].date {
        StrLtTotal(m[i].date, m[j].date);
      }
    }
    SortSorted(m, ListedBefore);
    assert |multiset(Listed(s, q))| == |multiset(m)|;
    forall e
      ensures e in Listed(s, q) <==> e in m
    {
      assert e in Listed(s, q) <==> e in multiset(Listed(s, q));
    }
  }
}
