/** The finance template filters. */
module FinanceTags {
  import opened Wrappers
  import opened Sums

  /** `is_overdue`: the due date lies strictly before today (day numbers). */
  function IsOverdue(dueDate: int, today: int): (r: bool)
    ensures r <==> dueDate < today
  {
    dueDate < today
  }

  /** An invoice due today is not overdue; one due yesterday is. */
  lemma DueTodayIsNotOverdue(today: int)
    ensures !IsOverdue(today, today) && IsOverdue(today - 1, today)
  {
  }

  /** `sum_amount`: the sum of the items' amounts. An item without an amount
      (None) raises AttributeError inside `sum`, and the filter then returns 0. */
  function SumAmount(items: seq<Option<int>>): (r: int)
    ensures (exists k :: 0 <= k < |items| && items[k].None?) ==> r == 0
    ensures (forall k :: 0 <= k < |items| ==> items[k].Some?) ==> r == SumInt(Amounts(items))
    ensures items == [] ==> r == 0
  {
    if forall k :: 0 <= k < |items| ==> items[k].Some? then SumInt(Amounts(items)) else 0
  }

  function Amounts(items: seq<Option<int>>): seq<int>
    requires forall k :: 0 <= k < |items| ==> items[k].Some?
  {
    seq(|items|, k requires 0 <= k < |items| => items[k].value)
  }

  /** Adding a payment with an amount adds that amount to the filter's result. */
  lemma SumAmountAppend(items: seq<Option<int>>, amount: int)
    requires forall k :: 0 <= k < |items| ==> items[k].Some?
    ensures SumAmount(items + [Some(amount)]) == SumAmount(items) + amount
  {
    var all := items + [Some(amount)];
    assert Amounts(all)[..|items|] == Amounts(items);
  }

  /** `subtract`: `float(value) - float(arg)`, or 0 when either does not
      convert (None). */
  function Subtract(value: Option<real>, arg: Option<real>): (r: real)
    ensures value.Some? && arg.Some? ==> r + arg.value == value.value
    ensures value.None? || arg.None? ==> r == 0.0
  {
    if value.Some? && arg.Some? then value.value - arg.value else 0.0
  }
}
