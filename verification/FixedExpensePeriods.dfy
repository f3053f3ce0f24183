/**
 The payment state of the periods of fixed expenses: the migration that introduces it, its
 reversal, and the payments made since.  Money is in cents.
 */
module FixedExpensePeriods {
  import opened Wrappers
  import opened Decimals
  import opened Waterfall

  datatype Status = PENDING | PARTIALLY_PAID | PAID

  /** The two columns that the migration adds. */
  datatype Payment = Payment(paidAmount: int, balance: int)

  /** A period; without the columns, `payment` is None. */
  datatype Period = Period(company: nat, expense: nat, number: nat, amount: int, status: Status, payment: Option<Payment>)

  type Periods = map<nat, Period>

  function PaidOf(r: Period): int {
    if r.payment.Some? then r.payment.value.paidAmount else 0
  }

  function BalanceOf(r: Period): int {
    if r.payment.Some? then r.payment.value.balance else 0
  }

  // ------------------------------------------------------------------------
  // The CHECKs
  // ------------------------------------------------------------------------

  predicate OldChecks(r: Period) {
    r.payment.None? && r.amount >= 0 && r.status != PARTIALLY_PAID
  }

  predicate StatusConsistent(r: Period) {
    || (r.status == PENDING && PaidOf(r) == 0)
    || (r.status == PARTIALLY_PAID && PaidOf(r) > 0 && BalanceOf(r) > 0)
    || (r.status == PAID && BalanceOf(r) == 0)
  }

  predicate NewChecks(r: Period) {
    && r.payment.Some? && r.amount >= 0
    && PaidOf(r) >= 0 && BalanceOf(r) >= 0 && PaidOf(r) + BalanceOf(r) == r.amount
    && StatusConsistent(r)
  }

  ghost predicate AllOld(rows: Periods) {
    forall id | id in rows :: OldChecks(rows[id])
  }

  predicate AllNew(rows: Periods) {
    forall id | id in rows :: NewChecks(rows[id])
  }

  /** The equivalences the migration documents. */
  predicate StatusIff(r: Period) {
    && (r.status == PENDING <==> PaidOf(r) == 0)
    && (r.status == PARTIALLY_PAID <==> PaidOf(r) > 0 && BalanceOf(r) > 0)
    && (r.status == PAID <==> BalanceOf(r) == 0)
  }

  /** The CHECKs give the documented equivalences on every period but those that cost nothing. */
  lemma DocumentedIff(r: Period)
    requires NewChecks(r)
    ensures StatusIff(r) <==> r.amount > 0
  {
  }

  // ------------------------------------------------------------------------
  // The migration
  // ------------------------------------------------------------------------

  function UpRow(r: Period): Period {
    r.(payment := Some(if r.status == PAID then Payment(r.amount, 0) else Payment(0, r.amount)))
  }

  function DownRow(r: Period): Period {
    r.(status := if r.status == PARTIALLY_PAID then PENDING else r.status, payment := None)
  }

  function UpBut(rows: Periods, todo: set<nat>): Periods {
    map id | id in rows :: if id in todo then rows[id].(payment := Some(Payment(0, 0))) else UpRow(rows[id])
  }

  function DownBut(rows: Periods, todo: set<nat>): Periods {
    map id | id in rows :: if id in todo then rows[id] else rows[id].(status := DownRow(rows[id]).status)
  }

  function UpRows(rows: Periods): Periods {
    map id | id in rows :: UpRow(rows[id])
  }

  function DownRows(rows: Periods): Periods {
    map id | id in rows :: DownRow(rows[id])
  }

  /** The backfill meets every CHECK added after it exactly when the row met the old ones. */
  lemma BackfillIff(r: Period)
    requires r.payment.None?
    ensures NewChecks(UpRow(r)) <==> OldChecks(r)
  {
  }

  /** Down after up is the identity. */
  lemma UpThenDown(r: Period)
    requires OldChecks(r)
    ensures DownRow(UpRow(r)) == r
  {
  }

  /**
   Up after down is the identity on exactly the periods that are not partially paid; those
   come back as never paid, what had been paid of them included in the balance.
   */
  lemma DownThenUpIff(r: Period)
    requires NewChecks(r)
    ensures OldChecks(DownRow(r))
    ensures UpRow(DownRow(r)) == r <==> r.status != PARTIALLY_PAID
    ensures r.status == PARTIALLY_PAID ==> UpRow(DownRow(r)) == r.(status := PENDING, payment := Some(Payment(0, r.amount)))
  {
  }

  // ------------------------------------------------------------------------
  // Payments
  // ------------------------------------------------------------------------

  /**
   The period after a payment of `alloc / fine` cents: what is paid is rounded to cents and
   the balance is the rest of the amount.
   */
  function Settle(r: Period, alloc: int, fine: int): Period
    requires fine > 0
  {
    var newPaid := RoundHalfUp(PaidOf(r) * fine + alloc, fine);
    var newBalance := r.amount - newPaid;
    r.(status := if newBalance <= 0 then PAID else PARTIALLY_PAID, payment := Some(Payment(newPaid, newBalance)))
  }

  /** The alternative: both rounded to cents, each by itself. */
  function SettleApart(r: Period, alloc: int, fine: int): Payment
    requires fine > 0
  {
    Payment(RoundHalfUp(PaidOf(r) * fine + alloc, fine), RoundHalfUp(BalanceOf(r) * fine - alloc, fine))
  }

  /**
   Deriving the balance from what is paid matters exactly for the payments that end in half
   a cent: only there would rounding both break the sum, and it would by one cent.
   */
  lemma RoundingApartBreaksIff(r: Period, alloc: int, fine: int)
    requires NewChecks(r) && fine > 0 && 0 < alloc <= BalanceOf(r) * fine
    ensures var apart, settled := SettleApart(r, alloc, fine), Settle(r, alloc, fine);
            && apart.paidAmount == PaidOf(settled)
            && apart.paidAmount + apart.balance == r.amount + (if 2 * (alloc % fine) == fine then 1 else 0)
            && apart.balance == BalanceOf(settled) + (if 2 * (alloc % fine) == fine then 1 else 0)
  {
    var whole, rest := alloc / fine, alloc % fine;
    assert alloc == whole * fine + rest;
    RoundWhole(PaidOf(r), whole, rest, fine);
    RoundRest(BalanceOf(r), whole, rest, fine);
  }

  lemma RoundWhole(base: nat, whole: nat, rest: nat, fine: int)
    requires 0 <= rest < fine
    ensures RoundHalfUp(base * fine + (whole * fine + rest), fine) == base + whole + (if 2 * rest >= fine then 1 else 0)
  {
    assert base * fine + (whole * fine + rest) == rest + (base + whole) * fine;
    RoundShift(rest, base + whole, fine);
    RoundIff(rest, fine, if 2 * rest >= fine then 1 else 0);
  }

  lemma RoundRest(base: nat, whole: nat, rest: nat, fine: int)
    requires 0 <= rest < fine && whole * fine + rest <= base * fine
    ensures RoundHalfUp(base * fine - (whole * fine + rest), fine) == base - whole - (if 2 * rest > fine then 1 else 0)
  {
    if whole > base { MulGap(base, whole, fine); }
    if rest == 0 {
      assert base * fine - (whole * fine + rest) == (base - whole) * fine;
      RoundExact(base - whole, fine);
    } else {
      assert whole != base;
      assert base * fine - (whole * fine + rest) == (fine - rest) + (base - whole - 1) * fine;
      RoundShift(fine - rest, base - whole - 1, fine);
      RoundIff(fine - rest, fine, if 2 * rest > fine then 0 else 1);
    }
  }

  /**
   The CHECKs hold after a payment except exactly when it is the first and below half a cent:
   the period is then called partially paid with nothing paid.
   */
  lemma SettleKeepsChecksIff(r: Period, alloc: int, fine: int)
    requires NewChecks(r) && fine > 0 && 0 < alloc <= BalanceOf(r) * fine
    ensures NewChecks(Settle(r, alloc, fine)) <==> PaidOf(r) > 0 || 2 * alloc >= fine
  {
    RoundShift(alloc, PaidOf(r), fine);
    RoundMonotone(alloc, BalanceOf(r) * fine, fine);
    RoundExact(BalanceOf(r), fine);
    RoundNonNegative(alloc, fine);
    RoundIff(alloc, fine, 0);
  }

  /** In whole cents. */
  function Applied(r: Period, share: nat): Period {
    if share == 0 then r else Settle(r, share, 1)
  }

  lemma AppliedIs(r: Period, share: nat)
    requires NewChecks(r) && share <= BalanceOf(r)
    ensures NewChecks(Applied(r, share))
    ensures PaidOf(Applied(r, share)) == PaidOf(r) + share && BalanceOf(Applied(r, share)) == BalanceOf(r) - share
    ensures share > 0 ==> Applied(r, share).status == if share == BalanceOf(r) then PAID else PARTIALLY_PAID
  {
    RoundExact(PaidOf(r) + share, 1);
  }

  function DueOf(rows: Periods): Due {
    (id: nat) => if id in rows then BalanceOf(rows[id]) else 0
  }

  /** The periods after sharing `amount` among those of the list. */
  function Settled(rows: Periods, list: seq<nat>, amount: int): Periods {
    map id | id in rows :: Applied(rows[id], Share(DueOf(rows), list, id, amount))
  }

  datatype Request = Request(company: nat, expense: nat, ids: seq<nat>, amount: int, accountGiven: bool)

  predicate Selected(rows: Periods, q: Request, id: nat) {
    id in q.ids && id in rows && rows[id].expense == q.expense && rows[id].company == q.company
  }

  /** What the query for the selected periods may answer: each once, in the order of their numbers. */
  ghost predicate IsAnswer(rows: Periods, q: Request, found: seq<nat>) {
    && Distinct(found)
    && (forall id :: id in found <==> Selected(rows, q, id))
    && forall i, j :: 0 <= i < j < |found| ==>
          found[i] in rows && found[j] in rows && rows[found[i]].number <= rows[found[j]].number
  }

  datatype PayError = NotPositive | NothingSelected | NoAccountGiven | ExpenseNotFound | PeriodNotFound
                    | NothingDue | ExceedsBalance | AccountNotFound | AccountTooLow

  /** What is wrong with a request, if anything, before the account is looked at. */
  function Invalid(rows: Periods, companyOf: map<nat, nat>, q: Request, found: seq<nat>): Option<PayError> {
    if q.amount <= 0 then Some(NotPositive)
    else if q.ids == [] then Some(NothingSelected)
    else if !q.accountGiven then Some(NoAccountGiven)
    else if q.expense !in companyOf || companyOf[q.expense] != q.company then Some(ExpenseNotFound)
    else if |found| != |q.ids| then Some(PeriodNotFound)
    else if Owed(DueOf(rows), found) == 0 then Some(NothingDue)
    else if q.amount > Owed(DueOf(rows), found) then Some(ExceedsBalance)
    else None
  }

  /** What is wrong with the account, if anything. */
  function Shortage(account: Option<int>, amount: int): Option<PayError> {
    if account.None? then Some(AccountNotFound) else if amount > account.value then Some(AccountTooLow) else None
  }

  /** Why a payment is refused, if it is. */
  function Refusal(rows: Periods, companyOf: map<nat, nat>, account: Option<int>, q: Request, found: seq<nat>): Option<PayError> {
    var invalid := Invalid(rows, companyOf, q, found);
    if invalid.Some? then invalid else Shortage(account, q.amount)
  }

  /** The request names an amount, periods and an account. */
  predicate Complete(q: Request) {
    q.amount > 0 && |q.ids| > 0 && q.accountGiven
  }

  /** It names the expense of the company, and each of its periods once. */
  ghost predicate NamesPeriods(rows: Periods, companyOf: map<nat, nat>, q: Request) {
    && q.expense in companyOf && companyOf[q.expense] == q.company
    && (forall i, j :: 0 <= i < j < |q.ids| ==> q.ids[i] != q.ids[j])
    && forall id :: id in q.ids ==> id in rows && rows[id].expense == q.expense && rows[id].company == q.company
  }

  /** A complete request for periods of the expense, within what they owe and what the account has. */
  ghost predicate Acceptable(rows: Periods, companyOf: map<nat, nat>, account: Option<int>, q: Request, found: seq<nat>) {
    && Complete(q) && NamesPeriods(rows, companyOf, q)
    && q.amount <= Owed(DueOf(rows), found)
    && account.Some? && q.amount <= account.value
  }

  /** What each refusal says; a request with several faults is refused for the first. */
  ghost predicate Says(e: PayError, rows: Periods, companyOf: map<nat, nat>, account: Option<int>, q: Request, found: seq<nat>) {
    match e
    case NotPositive => q.amount <= 0
    case NothingSelected => q.amount > 0 && q.ids == []
    case NoAccountGiven => q.amount > 0 && q.ids != [] && !q.accountGiven
    case ExpenseNotFound => Complete(q) && !(q.expense in companyOf && companyOf[q.expense] == q.company)
    case PeriodNotFound => Complete(q) && q.expense in companyOf && companyOf[q.expense] == q.company && !NamesPeriods(rows, companyOf, q)
    case NothingDue => Complete(q) && NamesPeriods(rows, companyOf, q) && forall id :: id in q.ids ==> BalanceOf(rows[id]) <= 0
    case ExceedsBalance =>
      && Complete(q) && NamesPeriods(rows, companyOf, q)
      && (exists id :: id in q.ids && BalanceOf(rows[id]) > 0) && q.amount > Owed(DueOf(rows), found)
    case AccountNotFound => Complete(q) && NamesPeriods(rows, companyOf, q) && q.amount <= Owed(DueOf(rows), found) && account.None?
    case AccountTooLow =>
      && Complete(q) && NamesPeriods(rows, companyOf, q) && q.amount <= Owed(DueOf(rows), found)
      && account.Some? && q.amount > account.value
  }

  lemma NamesPeriodsIff(rows: Periods, companyOf: map<nat, nat>, q: Request, found: seq<nat>)
    requires IsAnswer(rows, q, found)
    ensures NamesPeriods(rows, companyOf, q) <==> q.expense in companyOf && companyOf[q.expense] == q.company && |found| == |q.ids|
    ensures NamesPeriods(rows, companyOf, q) ==> forall id :: id in found <==> id in q.ids
  {
    PeriodsFoundIff(rows, q, found);
    if NamesPeriods(rows, companyOf, q) {
      forall id ensures id in found <==> id in q.ids {
        assert id in found <==> Selected(rows, q, id);
      }
    }
  }

  lemma NothingOwedIff(rows: Periods, companyOf: map<nat, nat>, q: Request, found: seq<nat>)
    requires IsAnswer(rows, q, found) && NamesPeriods(rows, companyOf, q)
    ensures Owed(DueOf(rows), found) == 0 <==> forall id :: id in q.ids ==> BalanceOf(rows[id]) <= 0
  {
    NamesPeriodsIff(rows, companyOf, q, found);
    OwedNothingIff(DueOf(rows), found);
    forall id | id in q.ids
      ensures id in found && DueOf(rows)(id) == BalanceOf(rows[id])
    {
    }
  }

  lemma RefusalSays(rows: Periods, companyOf: map<nat, nat>, account: Option<int>, q: Request, found: seq<nat>, e: PayError)
    requires IsAnswer(rows, q, found)
    ensures Refusal(rows, companyOf, account, q, found) == Some(e) <==> Says(e, rows, companyOf, account, q, found)
  {
    NamesPeriodsIff(rows, companyOf, q, found);
    if NamesPeriods(rows, companyOf, q) { NothingOwedIff(rows, companyOf, q, found); }
  }

  lemma NotRefusedIff(rows: Periods, companyOf: map<nat, nat>, account: Option<int>, q: Request, found: seq<nat>)
    requires IsAnswer(rows, q, found)
    ensures Refusal(rows, companyOf, account, q, found).None? <==> Acceptable(rows, companyOf, account, q, found)
  {
    NamesPeriodsIff(rows, companyOf, q, found);
  }

  /** What has happened to a period on which `spent` cents were spent. */
  ghost predicate PaidBy(before: Period, after: Period, spent: int) {
    && after.company == before.company && after.expense == before.expense && after.number == before.number && after.amount == before.amount
    && PaidOf(after) == PaidOf(before) + spent && BalanceOf(after) == BalanceOf(before) - spent
    && (spent == 0 ==> after == before)
    && (spent > 0 ==> after.status == if BalanceOf(after) == 0 then PAID else PARTIALLY_PAID)
  }

  /** Every period of the answer has had spent on it what the new expenses say, the earlier ones first; the others are as they were. */
  ghost predicate Shared(before: Periods, after: Periods, found: seq<nat>, made: seq<Expense>) {
    && after.Keys == before.Keys
    && (forall id :: id in before ==> PaidBy(before[id], after[id], SpentOn(made, id)))
    && (forall id :: id in before && id !in found ==> after[id] == before[id])
    && OneExpenseEach(found, made)
    && forall i, j :: 0 <= i < j < |found| && SpentOn(made, found[j]) > 0 ==> found[i] in after && BalanceOf(after[found[i]]) == 0
  }

  lemma SettledPaid(rows: Periods, found: seq<nat>, amount: int, id: nat)
    requires AllNew(rows) && Distinct(found) && id in rows
    ensures PaidBy(rows[id], Settled(rows, found, amount)[id], SpentOn(Expenses(DueOf(rows), found, amount), id))
  {
    assert NewChecks(rows[id]);
    SpentIsShare(DueOf(rows), found, id, amount);
    ShareBounded(DueOf(rows), found, id, amount);
    AppliedIs(rows[id], Share(DueOf(rows), found, id, amount));
  }

  lemma SettledOldestFirst(rows: Periods, found: seq<nat>, amount: int, i: nat, j: nat)
    requires AllNew(rows) && Distinct(found) && i < j < |found| && found[i] in rows
    requires SpentOn(Expenses(DueOf(rows), found, amount), found[j]) > 0
    ensures BalanceOf(Settled(rows, found, amount)[found[i]]) == 0
  {
    var due := DueOf(rows);
    assert NewChecks(rows[found[i]]);
    SpentIsShare(due, found, found[j], amount);
    SettledRow(rows, found, amount, found[i]);
    if due(found[i]) > 0 { OldestFirst(due, found, i, j, amount); }
  }

  lemma SettledIsShared(rows: Periods, q: Request, found: seq<nat>)
    requires AllNew(rows) && IsAnswer(rows, q, found) && 0 <= q.amount <= Owed(DueOf(rows), found)
    ensures var made := Expenses(DueOf(rows), found, q.amount);
            Shared(rows, Settled(rows, found, q.amount), found, made) && Spent(made) == q.amount
  {
    var due := DueOf(rows);
    var made, after := Expenses(due, found, q.amount), Settled(rows, found, q.amount);
    AmountIsSpent(due, found, q.amount);
    ExpensesAreOneEach(due, found, q.amount);
    forall id | id in rows
      ensures PaidBy(rows[id], after[id], SpentOn(made, id)) && (id !in found ==> after[id] == rows[id])
    {
      SettledPaid(rows, found, q.amount, id);
      SettledRow(rows, found, q.amount, id);
    }
    forall i, j | 0 <= i < j < |found| && SpentOn(made, found[j]) > 0
      ensures found[i] in after && BalanceOf(after[found[i]]) == 0
    {
      SettledOldestFirst(rows, found, q.amount, i, j);
    }
  }

  lemma SettledNothing(rows: Periods, list: seq<nat>, amount: int)
    requires list == [] || amount <= 0
    ensures Settled(rows, list, amount) == rows
  {
    forall id | id in rows
      ensures Settled(rows, list, amount)[id] == rows[id]
    {
      NoShare(DueOf(rows), list, id, amount);
    }
  }

  lemma PayableSettles(rows: Periods, found: seq<nat>, amount: int)
    requires Distinct(found)
    ensures Settled(rows, Payable(DueOf(rows), found), amount) == Settled(rows, found, amount)
    ensures Expenses(DueOf(rows), Payable(DueOf(rows), found), amount) == Expenses(DueOf(rows), found, amount)
  {
    var payable := Payable(DueOf(rows), found);
    forall id | id in rows
      ensures Settled(rows, payable, amount)[id] == Settled(rows, found, amount)[id]
    {
      PayableShares(DueOf(rows), found, id, amount);
    }
    PayableShares(DueOf(rows), found, 0, amount);
  }

  /** Where a payment stands: what is left to do from here gives what was to be done from the start. */
  datatype Standing = Standing(rows: Periods, list: seq<nat>, remaining: int, account: Option<int>, expenses: seq<Expense>)

  ghost predicate Sound(t: Standing) {
    && AllNew(t.rows) && Distinct(t.list) && 0 <= t.remaining <= Owed(DueOf(t.rows), t.list)
    && forall id :: id in t.list ==> DueOf(t.rows)(id) > 0
  }

  /** One turn of the loop. */
  function Next(t: Standing): Standing
    requires t.list != [] && t.list[0] in t.rows && t.account.Some?
  {
    var id := t.list[0];
    var alloc := Take(t.remaining, BalanceOf(t.rows[id]));
    Standing(t.rows[id := Applied(t.rows[id], alloc)], t.list[1..], t.remaining - alloc,
             Some(t.account.value - alloc), t.expenses + [Expense(id, alloc)])
  }

  lemma NextDue(t: Standing, x: nat)
    requires t.list != [] && t.list[0] in t.rows && t.account.Some? && x != t.list[0]
    ensures DueOf(Next(t).rows)(x) == DueOf(t.rows)(x)
  {
  }

  lemma NextIsSound(t: Standing)
    requires Sound(t) && t.list != [] && t.list[0] in t.rows && t.account.Some? && t.remaining > 0
    ensures Sound(Next(t))
  {
    var id := t.list[0];
    var next := Next(t);
    AppliedIs(t.rows[id], Take(t.remaining, BalanceOf(t.rows[id])));
    assert id !in next.list;
    forall x | x in next.list
      ensures DueOf(next.rows)(x) == DueOf(t.rows)(x)
    {
      NextDue(t, x);
    }
    SameDue(DueOf(t.rows), DueOf(next.rows), next.list, id, next.remaining);
  }

  lemma NextSameDue(t: Standing, x: nat)
    requires Sound(t) && t.list != [] && t.list[0] in t.rows && t.account.Some?
    ensures var next := Next(t);
            && t.list[0] !in next.list
            && Share(DueOf(next.rows), next.list, x, next.remaining) == Share(DueOf(t.rows), next.list, x, next.remaining)
            && Expenses(DueOf(next.rows), next.list, next.remaining) == Expenses(DueOf(t.rows), next.list, next.remaining)
  {
    var next := Next(t);
    forall y | y in next.list
      ensures DueOf(next.rows)(y) == DueOf(t.rows)(y)
    {
      NextDue(t, y);
    }
    SameDue(DueOf(t.rows), DueOf(next.rows), next.list, x, next.remaining);
  }

  lemma NextSettlesRow(t: Standing, x: nat)
    requires Sound(t) && t.list != [] && t.list[0] in t.rows && t.account.Some? && x in t.rows
    ensures var next := Next(t);
            Applied(next.rows[x], Share(DueOf(next.rows), next.list, x, next.remaining)) == Applied(t.rows[x], Share(DueOf(t.rows), t.list, x, t.remaining))
  {
    NextSameDue(t, x);
    if x == t.list[0] { NoShare(DueOf(t.rows), Next(t).list, x, Next(t).remaining); }
  }

  lemma NextSettles(t: Standing)
    requires Sound(t) && t.list != [] && t.list[0] in t.rows && t.account.Some?
    ensures var next := Next(t); Settled(next.rows, next.list, next.remaining) == Settled(t.rows, t.list, t.remaining)
  {
    forall x | x in t.rows
      ensures var next := Next(t);
              Applied(next.rows[x], Share(DueOf(next.rows), next.list, x, next.remaining)) == Applied(t.rows[x], Share(DueOf(t.rows), t.list, x, t.remaining))
    {
      NextSettlesRow(t, x);
    }
    assert Next(t).rows.Keys == t.rows.Keys;
  }

  lemma SpendOne(t: Standing)
    requires t.list != [] && t.list[0] in t.rows && t.account.Some? && t.remaining > 0 && DueOf(t.rows)(t.list[0]) > 0
    ensures var next := Next(t);
            next.expenses + Expenses(DueOf(t.rows), next.list, next.remaining) == t.expenses + Expenses(DueOf(t.rows), t.list, t.remaining)
  {
    FirstExpense(DueOf(t.rows), t.list, t.remaining);
    var rest := Expenses(DueOf(t.rows), Next(t).list, Next(t).remaining);
    var spent := [Expense(t.list[0], Take(t.remaining, DueOf(t.rows)(t.list[0])))];
    assert t.expenses + spent + rest == t.expenses + (spent + rest);
  }

  lemma NextSpends(t: Standing)
    requires Sound(t) && t.list != [] && t.list[0] in t.rows && t.account.Some? && t.remaining > 0
    ensures var next := Next(t);
            next.expenses + Expenses(DueOf(next.rows), next.list, next.remaining) == t.expenses + Expenses(DueOf(t.rows), t.list, t.remaining)
  {
    NextSameDue(t, 0);
    assert DueOf(t.rows)(t.list[0]) > 0;
    SpendOne(t);
  }

  ghost predicate Listed(t: Standing) {
    forall id :: id in t.list ==> id in t.rows
  }

  /** The loop, to its end or to the first share the account cannot pay. */
  ghost function Run(t: Standing): Result<Standing, PayError>
    requires Listed(t)
    decreases |t.list|
  {
    if t.list == [] || t.remaining <= 0 || BalanceOf(t.rows[t.list[0]]) <= 0 then Success(t)
    else
      var shortage := Shortage(t.account, Take(t.remaining, BalanceOf(t.rows[t.list[0]])));
      if shortage.Some? then Failure(shortage.value) else Run(Next(t))
  }

  ghost predicate AsPromised(t: Standing, r: Result<Standing, PayError>) {
    match r
    case Failure(e) => t.remaining > 0 && Shortage(t.account, t.remaining) == Some(e)
    case Success(u) =>
      && AllNew(u.rows) && u.rows == Settled(t.rows, t.list, t.remaining)
      && u.expenses == t.expenses + Expenses(DueOf(t.rows), t.list, t.remaining)
      && if t.remaining == 0 then u.account == t.account
         else Shortage(t.account, t.remaining).None? && u.account == Some(t.account.value - t.remaining)
  }

  /** What one turn leaves to promise is what was promised before it. */
  lemma NextPromises(t: Standing, r: Result<Standing, PayError>)
    requires Sound(t) && t.list != [] && t.list[0] in t.rows && t.account.Some? && t.remaining > 0
    requires Take(t.remaining, BalanceOf(t.rows[t.list[0]])) <= t.account.value
    requires AsPromised(Next(t), r)
    ensures AsPromised(t, r)
  {
    NextSettles(t);
    NextSpends(t);
  }

  /** The loop gives each its closed-form share, or finds the account too low for the whole amount. */
  lemma {:induction false} RunIsAsPromised(t: Standing)
    requires Sound(t) && Listed(t)
    ensures AsPromised(t, Run(t))
    decreases |t.list|
  {
    if t.list == [] || t.remaining <= 0 {
      SettledNothing(t.rows, t.list, t.remaining);
      NoExpenses(DueOf(t.rows), t.list);
    } else {
      assert DueOf(t.rows)(t.list[0]) > 0;
      if t.account.Some? && Take(t.remaining, BalanceOf(t.rows[t.list[0]])) <= t.account.value {
        NextIsSound(t);
        RunIsAsPromised(Next(t));
        NextPromises(t, Run(Next(t)));
      }
    }
  }

  lemma PayableIsSound(rows: Periods, found: seq<nat>, amount: int, account: Option<int>, expenses: seq<Expense>)
    requires AllNew(rows) && Distinct(found) && amount >= 0
    ensures var payable := Payable(DueOf(rows), found);
            && Owed(DueOf(rows), payable) == Owed(DueOf(rows), found)
            && (amount <= Owed(DueOf(rows), payable) ==> Sound(Standing(rows, payable, amount, account, expenses)))
  {
    PayableMembers(DueOf(rows), found);
    PayableOwed(DueOf(rows), found);
  }

  class PeriodTable {
    var rows: Periods
    const companyOf: map<nat, nat>
    var account: Option<int>
    var expenses: seq<Expense>

    constructor (rows: Periods, companyOf: map<nat, nat>, account: Option<int>)
      ensures this.rows == rows && this.companyOf == companyOf && this.account == account && expenses == []
    {
      this.rows, this.companyOf, this.account, expenses := rows, companyOf, account, [];
    }

    /** The columns are added with zeros, filled in row by row, and then the CHECKs are added: one that fails undoes it all. */
    method Up() returns (ok: bool)
      requires forall id | id in rows :: rows[id].payment.None?
      modifies this`rows
      ensures ok <==> AllOld(old(rows))
      ensures rows == if ok then UpRows(old(rows)) else old(rows)
    {
      var before := rows;
      rows := UpBut(before, before.Keys);
      var todo := before.Keys;
      while todo != {}
        invariant todo <= before.Keys && rows == UpBut(before, todo)
        decreases |todo|
      {
        var id :| id in todo;
        var r := rows[id];
        rows := rows[id := r.(payment := Some(if r.status == PAID then Payment(r.amount, 0) else Payment(0, r.amount)))];
        todo := todo - {id};
      }
      assert rows == UpRows(before);
      forall id | id in before
        ensures NewChecks(rows[id]) <==> OldChecks(before[id])
      {
        BackfillIff(before[id]);
      }
      ok := AllNew(rows);
      if !ok {
        rows := before;
      }
    }

    /** Statuses are rewritten row by row and the columns dropped. */
    method Down()
      requires AllNew(rows)
      modifies this`rows
      ensures rows == DownRows(old(rows)) && AllOld(rows)
    {
      var before := rows;
      var partial := set id | id in before && before[id].status == PARTIALLY_PAID;
      var todo := partial;
      assert DownBut(before, todo) == rows;
      while todo != {}
        invariant todo <= partial && rows == DownBut(before, todo)
        decreases |todo|
      {
        var id :| id in todo;
        rows := rows[id := rows[id].(status := PENDING)];
        todo := todo - {id};
      }
      rows := map id | id in rows :: rows[id].(payment := None);
    }

    /**
     One transaction.  It succeeds on exactly the acceptable requests, and the error names
     the first fault.  On any refusal nothing has changed, the account included.  On success
     the amount has left the account, every cent of it is on a period and in an expense, the
     oldest first, and the periods have their closed-form shares.
     */
    method Pay(q: Request, found: seq<nat>) returns (r: Result<int, PayError>)
      requires AllNew(rows) && IsAnswer(rows, q, found)
      modifies this`rows, this`account, this`expenses
      ensures AllNew(rows)
      ensures var refusal := Refusal(old(rows), companyOf, old(account), q, found);
              r == if refusal.Some? then Failure(refusal.value) else Success(q.amount)
      ensures r.Success? <==> Acceptable(old(rows), companyOf, old(account), q, found)
      ensures forall e :: r == Failure(e) <==> Says(e, old(rows), companyOf, old(account), q, found)
      ensures r.Failure? ==> rows == old(rows) && account == old(account) && expenses == old(expenses)
      ensures r.Success? ==> |expenses| >= |old(expenses)| && expenses[..|old(expenses)|] == old(expenses)
      ensures r.Success? ==> Shared(old(rows), rows, found, expenses[|old(expenses)|..])
      ensures r.Success? ==> Spent(expenses[|old(expenses)|..]) == q.amount
      ensures r.Success? ==> rows == Settled(old(rows), found, q.amount)
      ensures r.Success? ==> account == Some(old(account).value - q.amount)
      ensures r.Success? ==> expenses == old(expenses) + Expenses(DueOf(old(rows)), found, q.amount)
    {
      forall e
        ensures Refusal(rows, companyOf, account, q, found) == Some(e) <==> Says(e, rows, companyOf, account, q, found)
      {
        RefusalSays(rows, companyOf, account, q, found, e);
      }
      NotRefusedIff(rows, companyOf, account, q, found);
      var payable, error := Validate(q, found);
      if error.Some? { return Failure(error.value); }
      SettledIsShared(rows, q, found);
      PayableIsSound(rows, found, q.amount, account, expenses);
      PayableSettles(rows, found, q.amount);
      error := Distribute(payable, q.amount);
      return if error.Some? then Failure(error.value) else Success(q.amount);
    }

    method Validate(q: Request, found: seq<nat>) returns (payable: seq<nat>, error: Option<PayError>)
      ensures error == Invalid(rows, companyOf, q, found)
      ensures error.None? ==> payable == Payable(DueOf(rows), found)
    {
      payable := [];
      if q.amount <= 0 { return payable, Some(NotPositive); }
      if q.ids == [] { return payable, Some(NothingSelected); }
      if !q.accountGiven { return payable, Some(NoAccountGiven); }
      if q.expense !in companyOf || companyOf[q.expense] != q.company { return payable, Some(ExpenseNotFound); }
      if |found| != |q.ids| { return payable, Some(PeriodNotFound); }
      payable := Payable(DueOf(rows), found);
      var total := Owed(DueOf(rows), payable);
      PayableOwed(DueOf(rows), found);
      if total <= 0 { return payable, Some(NothingDue); }
      if q.amount > total { return payable, Some(ExceedsBalance); }
      return payable, None;
    }

    /** The loop over the payable periods, from the oldest, and the rollback. */
    method Distribute(payable: seq<nat>, amount: int) returns (error: Option<PayError>)
      requires Sound(Standing(rows, payable, amount, account, expenses)) && amount > 0
      modifies this`rows, this`account, this`expenses
      ensures AllNew(rows)
      ensures error == Shortage(old(account), amount)
      ensures error.Some? ==> rows == old(rows) && account == old(account) && expenses == old(expenses)
      ensures error.None? ==> rows == Settled(old(rows), payable, amount)
      ensures error.None? ==> account == Some(old(account).value - amount)
      ensures error.None? ==> expenses == old(expenses) + Expenses(DueOf(old(rows)), payable, amount)
    {
      var before := Standing(rows, payable, amount, account, expenses);
      RunIsAsPromised(before);
      error := ShareOut(payable, amount);
      if error.Some? {
        rows, account, expenses := before.rows, before.account, before.expenses;
      }
    }

    method ShareOut(payable: seq<nat>, amount: int) returns (error: Option<PayError>)
      requires Listed(Standing(rows, payable, amount, account, expenses))
      modifies this`rows, this`account, this`expenses
      ensures match Run(old(Standing(rows, payable, amount, account, expenses)))
              case Failure(e) => error == Some(e)
              case Success(t) => error.None? && rows == t.rows && account == t.account && expenses == t.expenses
    {
      var list, remaining := payable, amount;
      ghost var before, now := Standing(rows, payable, amount, account, expenses), Standing(rows, payable, amount, account, expenses);
      while list != [] && remaining > 0
        invariant now == Standing(rows, list, remaining, account, expenses) && Listed(now)
        invariant Run(now) == Run(before)
        decreases |list|
      {
        var id := list[0];
        var balance := BalanceOf(rows[id]);
        var alloc := if remaining > balance then balance else remaining;
        if alloc <= 0 { break; }
        error := PayPeriod(id, alloc);
        if error.Some? { return; }
        now := Next(now);
        list, remaining := list[1..], remaining - alloc;
      }
      error := None;
    }

    /** Debits the account, records the expense and updates the period. */
    method PayPeriod(id: nat, alloc: nat) returns (error: Option<PayError>)
      requires id in rows
      modifies this`rows, this`account, this`expenses
      ensures error == Shortage(old(account), alloc)
      ensures error.Some? ==> rows == old(rows) && account == old(account) && expenses == old(expenses)
      ensures error.None? ==> account == Some(old(account).value - alloc) && expenses == old(expenses) + [Expense(id, alloc)]
      ensures error.None? ==> rows == old(rows)[id := Applied(old(rows)[id], alloc)]
    {
      if account.None? { return Some(AccountNotFound); }
      if alloc > account.value { return Some(AccountTooLow); }
      account := Some(account.value - alloc);
      expenses := expenses + [Expense(id, alloc)];
      rows := rows[id := Applied(rows[id], alloc)];
      error := None;
    }
  }

  // ------------------------------------------------------------------------
  // Which periods are selected
  // ------------------------------------------------------------------------

  function Elements(list: seq<nat>): set<nat> {
    set id | id in list
  }

  lemma {:induction false} ElementsSize(list: seq<nat>)
    ensures |Elements(list)| <= |list|
    ensures |Elements(list)| == |list| <==> Distinct(list)
  {
    if list != [] {
      ElementsSize(list[1..]);
      assert list == [list[0]] + list[1..];
      assert Elements(list) == {list[0]} + Elements(list[1..]);
      if Distinct(list) {
        assert list[0] !in list[1..];
      } else if list[0] !in list[1..] {
        assert !Distinct(list[1..]) by {
          var i, j :| 0 <= i < j < |list| && list[i] == list[j];
          assert list[1..][j - 1] == list[j];
          assert i > 0 ==> list[1..][i - 1] == list[i];
        }
      }
    }
  }

  /** Comparing the lengths finds every repeated id and every id of another expense or company. */
  lemma PeriodsFoundIff(rows: Periods, q: Request, found: seq<nat>)
    requires IsAnswer(rows, q, found)
    ensures |found| == |q.ids| <==> Distinct(q.ids) && forall id :: id in q.ids ==> Selected(rows, q, id)
  {
    ElementsSize(found);
    ElementsSize(q.ids);
    assert Elements(found) <= Elements(q.ids);
    SubsetSize(Elements(found), Elements(q.ids));
    if |found| == |q.ids| {
      FullSubset(Elements(found), Elements(q.ids));
      forall id | id in q.ids
        ensures Selected(rows, q, id)
      {
        assert id in Elements(q.ids) && id in Elements(found);
      }
    }
    if Distinct(q.ids) && forall id :: id in q.ids ==> Selected(rows, q, id) {
      assert Elements(found) == Elements(q.ids);
    }
  }

  // ------------------------------------------------------------------------
  // Over several payments
  // ------------------------------------------------------------------------

  lemma SettledRow(rows: Periods, found: seq<nat>, amount: int, id: nat)
    requires AllNew(rows) && id in rows
    ensures var r, share := Settled(rows, found, amount)[id], Share(DueOf(rows), found, id, amount);
            && NewChecks(r) && PaidOf(r) == PaidOf(rows[id]) + share && BalanceOf(r) == BalanceOf(rows[id]) - share
            && (id !in found ==> r == rows[id])
  {
    assert NewChecks(rows[id]);
    ShareBounded(DueOf(rows), found, id, amount);
    AppliedIs(rows[id], Share(DueOf(rows), found, id, amount));
    if id !in found { NoShare(DueOf(rows), found, id, amount); }
  }

  /** What a period had paid at the start and the expenses recorded for it since make what it has paid. */
  ghost predicate Reconciled(start: Periods, rows: Periods, expenses: seq<Expense>) {
    rows.Keys == start.Keys && forall id | id in rows :: PaidOf(rows[id]) == PaidOf(start[id]) + SpentOn(expenses, id)
  }

  lemma PaymentReconciles(start: Periods, rows: Periods, expenses: seq<Expense>, found: seq<nat>, amount: int)
    requires AllNew(rows) && Distinct(found) && Reconciled(start, rows, expenses)
    ensures Reconciled(start, Settled(rows, found, amount), expenses + Expenses(DueOf(rows), found, amount))
  {
    forall id | id in rows
      ensures PaidOf(Settled(rows, found, amount)[id]) == PaidOf(start[id]) + SpentOn(expenses + Expenses(DueOf(rows), found, amount), id)
    {
      SettledRow(rows, found, amount, id);
      SpentIsShare(DueOf(rows), found, id, amount);
      SpentConcat(expenses, Expenses(DueOf(rows), found, amount), id);
    }
  }

  lemma DueOfSettled(rows: Periods, found: seq<nat>, amount: int, id: nat)
    requires AllNew(rows)
    ensures DueOf(Settled(rows, found, amount))(id) == DueAfter(DueOf(rows), found, amount)(id)
  {
    if id in rows { SettledRow(rows, found, amount, id); } else { ShareBounded(DueOf(rows), found, id, amount); }
  }

  lemma AppliedTwice(r: Period, a: nat, b: nat)
    requires NewChecks(r) && a + b <= BalanceOf(r)
    ensures Applied(Applied(r, a), b) == Applied(r, a + b)
  {
    AppliedIs(r, a);
    AppliedIs(Applied(r, a), b);
    AppliedIs(r, a + b);
  }

  lemma ShareAfter(rows: Periods, found: seq<nat>, a: nat, b: nat, id: nat)
    requires AllNew(rows) && Distinct(found)
    ensures Share(DueOf(rows), found, id, a) + Share(DueOf(Settled(rows, found, a)), found, id, b) == Share(DueOf(rows), found, id, a + b)
  {
    ShareTwice(DueOf(rows), found, id, a, b);
    forall x | x in found
      ensures DueOf(Settled(rows, found, a))(x) == DueAfter(DueOf(rows), found, a)(x)
    {
      DueOfSettled(rows, found, a, x);
    }
    SameDue(DueOf(Settled(rows, found, a)), DueAfter(DueOf(rows), found, a), found, id, b);
  }

  lemma SettledTwiceRow(rows: Periods, found: seq<nat>, a: nat, b: nat, id: nat)
    requires AllNew(rows) && Distinct(found) && id in rows
    ensures Applied(Applied(rows[id], Share(DueOf(rows), found, id, a)), Share(DueOf(Settled(rows, found, a)), found, id, b))
         == Applied(rows[id], Share(DueOf(rows), found, id, a + b))
  {
    var first, second := Share(DueOf(rows), found, id, a), Share(DueOf(Settled(rows, found, a)), found, id, b);
    ShareAfter(rows, found, a, b, id);
    ShareBounded(DueOf(rows), found, id, a + b);
    assert NewChecks(rows[id]) && first + second <= BalanceOf(rows[id]);
    AppliedTwice(rows[id], first, second);
  }

  /** Paying `a` and then `b` leaves the periods as paying `a + b` at once does. */
  lemma InstalmentsDoNotMatter(rows: Periods, found: seq<nat>, a: nat, b: nat)
    requires AllNew(rows) && Distinct(found)
    ensures Settled(Settled(rows, found, a), found, b) == Settled(rows, found, a + b)
  {
    var once := Settled(rows, found, a);
    forall id | id in rows
      ensures Settled(once, found, b)[id] == Settled(rows, found, a + b)[id]
    {
      SettledTwiceRow(rows, found, a, b, id);
      assert once[id] == Applied(rows[id], Share(DueOf(rows), found, id, a));
    }
  }

  lemma OwedAfterPayment(rows: Periods, found: seq<nat>, amount: nat)
    requires AllNew(rows) && Distinct(found) && amount <= Owed(DueOf(rows), found)
    ensures Owed(DueOf(Settled(rows, found, amount)), found) == Owed(DueOf(rows), found) - amount
  {
    OwedAfter(DueOf(rows), found, amount);
    forall x | x in found
      ensures DueOf(Settled(rows, found, amount))(x) == DueAfter(DueOf(rows), found, amount)(x)
    {
      DueOfSettled(rows, found, amount, x);
    }
    SameDue(DueOf(Settled(rows, found, amount)), DueAfter(DueOf(rows), found, amount), found, 0, 0);
  }

  /** Two payments in a row are accepted exactly when one of their sum would be. */
  lemma InstalmentsAcceptedIff(rows: Periods, companyOf: map<nat, nat>, account: Option<int>, q: Request, found: seq<nat>, a: int, b: int)
    requires AllNew(rows) && Distinct(found) && a > 0 && b > 0
    ensures Refusal(rows, companyOf, account, q.(amount := a + b), found).None?
       <==> Refusal(rows, companyOf, account, q.(amount := a), found).None? &&
            Refusal(Settled(rows, found, a), companyOf, Some(account.value - a), q.(amount := b), found).None?
  {
    if a <= Owed(DueOf(rows), found) { OwedAfterPayment(rows, found, a); }
  }
}
