/** Sharing an amount among periods, the first in the list being paid in full before the next gets anything. */
module Waterfall {

  /** What each period still owes, in cents. */
  type Due = nat -> int

  datatype Expense = Expense(period: nat, amount: int)

  /** What a period that owes `due` gets of `amount`. */
  function Take(amount: int, due: int): nat {
    if amount <= 0 || due <= 0 then 0 else if amount > due then due else amount
  }

  /** What the period `id` gets. */
  function Share(due: Due, list: seq<nat>, id: nat, amount: int): nat {
    if list == [] then 0
    else if list[0] == id then Take(amount, due(id))
    else Share(due, list[1..], id, amount - Take(amount, due(list[0])))
  }

  /** The expenses recorded, one for each period that gets something. */
  function Expenses(due: Due, list: seq<nat>, amount: int): seq<Expense> {
    if list == [] then []
    else
      var share := Take(amount, due(list[0]));
      (if share > 0 then [Expense(list[0], share)] else []) + Expenses(due, list[1..], amount - share)
  }

  /** The balance of the periods that have one. */
  function Owed(due: Due, list: seq<nat>): nat {
    if list == [] then 0 else (if due(list[0]) > 0 then due(list[0]) else 0) + Owed(due, list[1..])
  }

  function Payable(due: Due, list: seq<nat>): seq<nat> {
    if list == [] then []
    else (if due(list[0]) > 0 then [list[0]] else []) + Payable(due, list[1..])
  }

  predicate Distinct(list: seq<nat>) {
    forall i, j :: 0 <= i < j < |list| ==> list[i] != list[j]
  }

  function Spent(expenses: seq<Expense>): int {
    if expenses == [] then 0 else expenses[0].amount + Spent(expenses[1..])
  }

  function SpentOn(expenses: seq<Expense>, id: nat): int {
    if expenses == [] then 0
    else (if expenses[0].period == id then expenses[0].amount else 0) + SpentOn(expenses[1..], id)
  }

  /** The lesser of the two, and nothing unless both are positive. */
  lemma TakeIs(amount: int, due: int)
    ensures Take(amount, due) <= (if amount > 0 then amount else 0) && Take(amount, due) <= (if due > 0 then due else 0)
    ensures amount > 0 && due > 0 ==> Take(amount, due) == amount || Take(amount, due) == due
  {
  }

  /** Owed is the sum of the positive balances, wherever the list is cut. */
  lemma {:induction false} OwedConcat(due: Due, a: seq<nat>, b: seq<nat>)
    ensures Owed(due, a + b) == Owed(due, a) + Owed(due, b)
    ensures a == [] ==> Owed(due, a) == 0
    ensures |a| == 1 ==> Owed(due, a) == if due(a[0]) > 0 then due(a[0]) else 0
  {
    if a == [] {
      assert a + b == b;
    } else {
      OwedConcat(due, a[1..], b);
      assert (a + b)[1..] == a[1..] + b;
    }
  }

  lemma {:induction false} OwedNothingIff(due: Due, list: seq<nat>)
    ensures Owed(due, list) == 0 <==> forall id :: id in list ==> due(id) <= 0
  {
    if list != [] {
      OwedNothingIff(due, list[1..]);
      assert list == [list[0]] + list[1..];
    }
  }

  // ------------------------------------------------------------------------
  // Leaving out the periods that owe nothing
  // ------------------------------------------------------------------------

  lemma {:induction false} PayableMembers(due: Due, list: seq<nat>)
    ensures forall id :: id in Payable(due, list) <==> id in list && due(id) > 0
    ensures Distinct(list) ==> Distinct(Payable(due, list))
  {
    if list != [] {
      var rest := Payable(due, list[1..]);
      PayableMembers(due, list[1..]);
      assert list == [list[0]] + list[1..];
      assert Payable(due, list) == if due(list[0]) > 0 then [list[0]] + rest else rest;
      if Distinct(list) { assert list[0] !in list[1..]; }
    }
  }

  lemma {:induction false} PayableOwed(due: Due, list: seq<nat>)
    ensures Owed(due, Payable(due, list)) == Owed(due, list)
  {
    if list != [] {
      var rest := Payable(due, list[1..]);
      PayableOwed(due, list[1..]);
      assert Payable(due, list) == if due(list[0]) > 0 then [list[0]] + rest else rest;
      assert due(list[0]) > 0 ==> Payable(due, list)[1..] == rest;
    }
  }

  lemma {:induction false} PayableShares(due: Due, list: seq<nat>, id: nat, amount: int)
    requires Distinct(list)
    ensures Share(due, Payable(due, list), id, amount) == Share(due, list, id, amount)
    ensures Expenses(due, Payable(due, list), amount) == Expenses(due, list, amount)
  {
    if list != [] {
      var rest, left := Payable(due, list[1..]), amount - Take(amount, due(list[0]));
      PayableShares(due, list[1..], id, left);
      assert Payable(due, list) == if due(list[0]) > 0 then [list[0]] + rest else rest;
      if due(list[0]) > 0 {
        assert Payable(due, list)[1..] == rest;
      } else {
        assert Expenses(due, list, amount) == Expenses(due, list[1..], left);
        if list[0] == id {
          PayableMembers(due, list[1..]);
          NoShare(due, rest, id, amount);
        }
      }
    }
  }

  lemma {:induction false} NoShare(due: Due, list: seq<nat>, id: nat, amount: int)
    requires id !in list || amount <= 0
    ensures Share(due, list, id, amount) == 0
  {
    if list != [] { NoShare(due, list[1..], id, amount - Take(amount, due(list[0]))); }
  }

  lemma FirstExpense(due: Due, list: seq<nat>, amount: int)
    requires list != [] && due(list[0]) > 0 && amount > 0
    ensures var share := Take(amount, due(list[0]));
            Expenses(due, list, amount) == [Expense(list[0], share)] + Expenses(due, list[1..], amount - share)
  {
  }

  lemma {:induction false} NoExpenses(due: Due, list: seq<nat>)
    ensures Expenses(due, list, 0) == []
  {
    if list != [] { NoExpenses(due, list[1..]); }
  }

  lemma {:induction false} ShareBounded(due: Due, list: seq<nat>, id: nat, amount: int)
    ensures due(id) >= 0 ==> Share(due, list, id, amount) <= due(id)
  {
    if list != [] { ShareBounded(due, list[1..], id, amount - Take(amount, due(list[0]))); }
  }

  /** One expense, of a positive amount, for each period that gets something, in the order of the list. */
  ghost predicate OneExpenseEach(list: seq<nat>, expenses: seq<Expense>) {
    && (forall i :: 0 <= i < |expenses| ==> expenses[i].amount > 0 && expenses[i].period in list)
    && forall i, j :: 0 <= i < j < |expenses| ==> expenses[i].period != expenses[j].period
  }

  lemma {:induction false} ExpensesAreOneEach(due: Due, list: seq<nat>, amount: int)
    requires Distinct(list)
    ensures OneExpenseEach(list, Expenses(due, list, amount))
  {
    if list != [] {
      var share := Take(amount, due(list[0]));
      var rest := Expenses(due, list[1..], amount - share);
      ExpensesAreOneEach(due, list[1..], amount - share);
      assert list[0] !in list[1..];
      OneMoreExpense(list, share, rest);
    }
  }

  lemma OneMoreExpense(list: seq<nat>, share: nat, rest: seq<Expense>)
    requires list != [] && list[0] !in list[1..] && OneExpenseEach(list[1..], rest)
    ensures OneExpenseEach(list, (if share > 0 then [Expense(list[0], share)] else []) + rest)
  {
    var all := (if share > 0 then [Expense(list[0], share)] else []) + rest;
    forall i | 0 <= i < |all|
      ensures all[i].amount > 0 && all[i].period in list
    {
      assert list == [list[0]] + list[1..];
    }
  }

  // ------------------------------------------------------------------------
  // Oldest first
  // ------------------------------------------------------------------------

  /** In closed form: a period gets what is left once everything owed before it is covered, up to what it owes. */
  lemma {:induction false} ShareInClosedForm(due: Due, list: seq<nat>, k: nat, amount: int)
    requires Distinct(list) && k < |list|
    ensures Share(due, list, list[k], amount) == Take(amount - Owed(due, list[..k]), due(list[k]))
  {
    if k > 0 {
      ShareInClosedForm(due, list[1..], k - 1, amount - Take(amount, due(list[0])));
      assert list[..k][1..] == list[1..][..k - 1];
    }
  }

  lemma {:induction false} OwedGrows(due: Due, list: seq<nat>, i: nat, j: nat)
    requires i < j <= |list| && due(list[i]) > 0
    ensures Owed(due, list[..i]) + due(list[i]) <= Owed(due, list[..j])
  {
    if i > 0 {
      OwedGrows(due, list[1..], i - 1, j - 1);
      assert list[..i][1..] == list[1..][..i - 1];
    }
    assert list[..j][1..] == list[1..][..j - 1];
  }

  /** No period gets anything before the earlier ones are paid in full. */
  lemma OldestFirst(due: Due, list: seq<nat>, i: nat, j: nat, amount: int)
    requires Distinct(list) && i < j < |list| && due(list[i]) > 0
    requires Share(due, list, list[j], amount) > 0
    ensures Share(due, list, list[i], amount) == due(list[i])
  {
    ShareInClosedForm(due, list, i, amount);
    ShareInClosedForm(due, list, j, amount);
    OwedGrows(due, list, i, j);
  }

  // ------------------------------------------------------------------------
  // Conservation
  // ------------------------------------------------------------------------

  /** All of the amount is spent, as far as anything is owed. */
  lemma {:induction false} AmountIsSpent(due: Due, list: seq<nat>, amount: nat)
    ensures Spent(Expenses(due, list, amount)) == if amount < Owed(due, list) then amount else Owed(due, list)
  {
    if list != [] {
      var share := Take(amount, due(list[0]));
      AmountIsSpent(due, list[1..], amount - share);
      SpentConcat(if share > 0 then [Expense(list[0], share)] else [], Expenses(due, list[1..], amount - share), 0);
    }
  }

  /** What is spent on a period is its share. */
  lemma {:induction false} SpentIsShare(due: Due, list: seq<nat>, id: nat, amount: int)
    requires Distinct(list)
    ensures SpentOn(Expenses(due, list, amount), id) == Share(due, list, id, amount)
  {
    if list != [] {
      var share := Take(amount, due(list[0]));
      SpentIsShare(due, list[1..], id, amount - share);
      SpentConcat(if share > 0 then [Expense(list[0], share)] else [], Expenses(due, list[1..], amount - share), id);
      if list[0] == id { NoShare(due, list[1..], id, amount - share); }
    }
  }

  lemma {:induction false} SpentConcat(a: seq<Expense>, b: seq<Expense>, id: nat)
    ensures SpentOn(a + b, id) == SpentOn(a, id) + SpentOn(b, id)
    ensures Spent(a + b) == Spent(a) + Spent(b)
    ensures a == [] ==> Spent(a) == 0 && SpentOn(a, id) == 0
    ensures |a| == 1 ==> Spent(a) == a[0].amount && SpentOn(a, id) == if a[0].period == id then a[0].amount else 0
  {
    if a == [] {
      assert a + b == b;
    } else {
      SpentConcat(a[1..], b, id);
      assert (a + b)[1..] == a[1..] + b;
    }
  }

  // ------------------------------------------------------------------------
  // Paying twice
  // ------------------------------------------------------------------------

  function DueAfter(due: Due, list: seq<nat>, amount: int): Due {
    (id: nat) => due(id) - Share(due, list, id, amount)
  }

  lemma {:induction false} SameDue(due: Due, due': Due, list: seq<nat>, id: nat, amount: int)
    requires forall x :: x in list ==> due(x) == due'(x)
    ensures Share(due, list, id, amount) == Share(due', list, id, amount)
    ensures Expenses(due, list, amount) == Expenses(due', list, amount)
    ensures Owed(due, list) == Owed(due', list)
  {
    if list != [] { SameDue(due, due', list[1..], id, amount - Take(amount, due(list[0]))); }
  }

  lemma SplitTake(due: int, a: nat, b: nat)
    ensures Take(a, due) + Take(b, due - Take(a, due)) == Take(a + b, due)
  {
  }

  /** Once the first period has its share, the rest owe what they would had it not been there. */
  lemma RestAfter(due: Due, list: seq<nat>, amount: int, id: nat, more: int)
    requires Distinct(list) && list != []
    ensures var after, rest := DueAfter(due, list, amount), DueAfter(due, list[1..], amount - Take(amount, due(list[0])));
            Share(after, list[1..], id, more) == Share(rest, list[1..], id, more) && Owed(after, list[1..]) == Owed(rest, list[1..])
  {
    SameDue(DueAfter(due, list, amount), DueAfter(due, list[1..], amount - Take(amount, due(list[0]))), list[1..], id, more);
  }

  /** Two amounts one after the other are shared as their sum is. */
  lemma {:induction false} ShareTwice(due: Due, list: seq<nat>, id: nat, a: nat, b: nat)
    requires Distinct(list)
    ensures Share(due, list, id, a) + Share(DueAfter(due, list, a), list, id, b) == Share(due, list, id, a + b)
  {
    if list != [] {
      var head := due(list[0]);
      SplitTake(head, a, b);
      var restA, restB := a - Take(a, head), b - Take(b, head - Take(a, head));
      ShareTwice(due, list[1..], id, restA, restB);
      RestAfter(due, list, a, id, restB);
    }
  }

  lemma {:induction false} OwedAfter(due: Due, list: seq<nat>, amount: nat)
    requires Distinct(list) && amount <= Owed(due, list)
    ensures Owed(DueAfter(due, list, amount), list) == Owed(due, list) - amount
  {
    if list != [] {
      var share := Take(amount, due(list[0]));
      OwedAfter(due, list[1..], amount - share);
      RestAfter(due, list, amount, list[0], 0);
    }
  }
}
