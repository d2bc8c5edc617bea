/** `validate_expense`: the list of messages a create or update body earns.
    The store's `ValidateExpense` method builds this list step by step; the
    functions here say what it must be, and the lemmas what that means. */
module Validation {
  import opened Basics
  import opened Records

  const AmountRequired := "Amount is required"
  const AmountNotNumber := "Amount must be a valid number"
  const AmountNotPositive := "Amount must be greater than 0"
  const DateRequired := "Date is required"
  const DateInvalid := "Invalid date format. Use ISO format (YYYY-MM-DD)"
  const CategoryPrefix := "Invalid category: "

  function InvalidCategory(name: string): string {
    CategoryPrefix + name
  }

  predicate IsDigit(c: char) {
    '0' <= c <= '9'
  }

  function DigitValue(c: char): int {
    c as int - '0' as int
  }

  predicate IsLeapYear(y: int) {
    (y % 4 == 0 && y % 100 != 0) || y % 400 == 0
  }

  function DaysInMonth(y: int, m: int): int {
    if m == 2 then (if IsLeapYear(y) then 29 else 28)
    else if m == 4 || m == 6 || m == 9 || m == 11 then 30
    else 31
  }

  /** A calendar date written `YYYY-MM-DD`, year 1 or later: the plain-date
      form that `datetime.fromisoformat` accepts. */
  predicate IsIsoDate(s: string) {
    && |s| == 10
    && s[4] == '-' && s[7] == '-'
    && IsDigit(s[0]) && IsDigit(s[1]) && IsDigit(s[2]) && IsDigit(s[3])
    && IsDigit(s[5]) && IsDigit(s[6]) && IsDigit(s[8]) && IsDigit(s[9])
    && var y := 1000 * DigitValue(s[0]) + 100 * DigitValue(s[1]) + 10 * DigitValue(s[2]) + DigitValue(s[3]);
       var m := 10 * DigitValue(s[5]) + DigitValue(s[6]);
       var d := 10 * DigitValue(s[8]) + DigitValue(s[9]);
       1 <= y && 1 <= m <= 12 && 1 <= d <= DaysInMonth(y, m)
  }

  /** The amount check: on create always, on update only when the key is present. */
  function AmountErrors(p: Payload, isUpdate: bool): seq<string> {
    if isUpdate && p.amount.None? then []
    else match p.amount
      case None => [AmountRequired]
      case Some(NotANumber) => [AmountNotNumber]
      case Some(Number(v)) => if v <= 0.0 then [AmountNotPositive] else []
  }

  /** The date check: on create always, on update only when the key is present. */
  function DateErrors(p: Payload, isUpdate: bool): seq<string> {
    if isUpdate && p.date.None? then []
    else match p.date
      case None => [DateRequired]
      case Some(d) => if IsIsoDate(d) then [] else [DateInvalid]
  }

  /** A non-empty category must name a row of the categories table. */
  function CategoryErrors(p: Payload, names: set<string>): seq<string> {
    if p.category.Some? && p.category.value != "" && p.category.value !in names
    then [InvalidCategory(p.category.value)]
    else []
  }

  /** The messages in the order `validate_expense` appends them. */
  function ValidationErrors(p: Payload, isUpdate: bool, names: set<string>): seq<string> {
    AmountErrors(p, isUpdate) + DateErrors(p, isUpdate) + CategoryErrors(p, names)
  }

  predicate IsAmountMessage(m: string) {
    m == AmountRequired || m == AmountNotNumber || m == AmountNotPositive
  }

  /** An amount that passed validation, or an absent one on update, is one the
      store can write. */
  predicate AmountUsable(p: Payload) {
    p.amount.None? || p.amount.value.Number?
  }

  lemma CategoryMessageNotAmount(name: string)
    ensures !IsAmountMessage(InvalidCategory(name))
    ensures InvalidCategory(name) != DateRequired && InvalidCategory(name) != DateInvalid
  {
    var m := InvalidCategory(name);
    assert m[0] == 'I' && m[8] == 'c';
  }

  /** A body earns at most one amount message, and it is the first message;
      which one it is depends only on the `amount` key and the mode. */
  lemma AmountMessages(p: Payload, isUpdate: bool, names: set<string>)
    ensures var errs := ValidationErrors(p, isUpdate, names);
      && (forall i :: 0 < i < |errs| ==> !IsAmountMessage(errs[i]))
      && (AmountRequired in errs <==> !isUpdate && p.amount.None?)
      && (AmountNotNumber in errs <==> p.amount == Some(NotANumber))
      && (AmountNotPositive in errs <==> p.amount.Some? && p.amount.value.Number? && p.amount.value.value <= 0.0)
  {
    var errs := ValidationErrors(p, isUpdate, names);
    var a, d, c := AmountErrors(p, isUpdate), DateErrors(p, isUpdate), CategoryErrors(p, names);
    assert errs == a + d + c;
    if p.category.Some? {
      CategoryMessageNotAmount(p.category.value);
    }
    forall i | 0 <= i < |errs| && i >= |a|
      ensures !IsAmountMessage(errs[i])
    {
      assert errs[i] in d + c;
    }
  }

  /** A create body is accepted exactly when it has a positive number as
      amount, a valid date, and a category that is absent, empty or known. */
  lemma CreateAccepted(p: Payload, names: set<string>)
    ensures ValidationErrors(p, false, names) == [] <==>
      && p.amount.Some? && p.amount.value.Number? && p.amount.value.value > 0.0
      && p.date.Some? && IsIsoDate(p.date.value)
      && (p.category.None? || p.category.value == "" || p.category.value in names)
  {
  }

  /** An update body is accepted exactly when each of amount and date is
      either absent or acceptable, and the category is absent, empty or known. */
  lemma UpdateAccepted(p: Payload, names: set<string>)
    ensures ValidationErrors(p, true, names) == [] <==>
      && (p.amount.None? || (p.amount.value.Number? && p.amount.value.value > 0.0))
      && (p.date.None? || IsIsoDate(p.date.value))
      && (p.category.None? || p.category.value == "" || p.category.value in names)
  {
  }

  /** An update body without `amount` and `date` earns no amount or date
      message: only the category can be refused. */
  lemma UpdateWithoutAmountOrDate(p: Payload, names: set<string>)
    requires p.amount.None? && p.date.None?
    ensures ValidationErrors(p, true, names) == CategoryErrors(p, names)
    ensures forall m :: m in ValidationErrors(p, true, names) ==> !IsAmountMessage(m) && m != DateRequired && m != DateInvalid
  {
    if p.category.Some? {
      CategoryMessageNotAmount(p.category.value);
    }
  }

  /** An unknown non-empty category adds exactly one message, the last one;
      an empty or absent category is never looked up. */
  lemma CategoryMessage(p: Payload, isUpdate: bool, names: set<string>)
    ensures var errs := ValidationErrors(p, isUpdate, names);
      if p.category.Some? && p.category.value != "" && p.category.value !in names
      then |errs| > 0 && errs[|errs| - 1] == InvalidCategory(p.category.value)
           && |errs| == |AmountErrors(p, isUpdate)| + |DateErrors(p, isUpdate)| + 1
      else errs == AmountErrors(p, isUpdate) + DateErrors(p, isUpdate)
  {
  }

  /** Passing validation leaves an amount the store can convert. */
  lemma AcceptedAmountUsable(p: Payload, isUpdate: bool, names: set<string>)
    requires ValidationErrors(p, isUpdate, names) == []
    ensures AmountUsable(p)
    ensures !isUpdate ==> p.amount.Some? && p.date.Some?
  {
    assert AmountErrors(p, isUpdate) == [];
    assert DateErrors(p, isUpdate) == [];
  }
}
