/**
 The status history of sales and its backfill: the events of the sales already on record,
 inserted kind after kind into an empty table.  A table is read in an arbitrary order, the
 order of its sequence.
 */
module SaleStatusHistory {
  import opened Wrappers
  import opened Bags

  datatype Invoice = Invoice(id: nat, company: nat, createdBy: Option<string>, createdAt: int, updatedAt: int, isDeleted: bool)

  datatype Payment = Payment(company: nat, invoice: nat, amount: real, createdBy: Option<string>, createdAt: int, isVoided: bool)

  datatype Credit = Credit(company: nat, invoice: nat, totalAmount: real, isPaid: bool, createdAt: int, updatedAt: int)

  datatype Operation = FULL_VOID | PARTIAL_VOID | ADDITION

  datatype Note = Note(company: nat, invoice: nat, operation: Operation, createdBy: Option<string>, createdAt: int, isDeleted: bool)

  datatype Sales = Sales(invoices: seq<Invoice>, payments: seq<Payment>, credits: seq<Credit>, notes: seq<Note>)

  datatype Kind = CREATED | COLLECTED | CREDIT_OPENED | INSTALLMENT | PAID | VOIDED

  /** What an INSERT gives; the table adds the id. */
  datatype Entry = Entry(company: nat, invoice: nat, kind: Kind, amount: Option<real>, createdBy: Option<string>, createdAt: int)

  datatype Event = Event(id: nat, entry: Entry)

  function Coalesce<T>(a: Option<T>, b: Option<T>): Option<T> {
    if a.Some? then a else b
  }

  // ------------------------------------------------------------------------
  // The five queries
  // ------------------------------------------------------------------------

  function CreatedEntry(): Invoice -> Entry {
    (i: Invoice) => Entry(i.company, i.id, CREATED, None, i.createdBy, i.createdAt)
  }

  function Created(s: Sales): seq<Entry> {
    FlatMap(s.invoices, Single(CreatedEntry()))
  }

  function Single<T, U>(f: T -> U): T -> seq<U> {
    x => [f(x)]
  }

  function IsLive(): Payment -> bool {
    (p: Payment) => !p.isVoided
  }

  function CreditOf(p: Payment): Credit -> bool {
    (c: Credit) => c.invoice == p.invoice && c.company == p.company
  }

  function PaymentEntry(p: Payment, kind: Kind): Entry {
    Entry(p.company, p.invoice, kind, Some(p.amount), p.createdBy, p.createdAt)
  }

  /** The LEFT JOIN: one row for every matching credit, or one without. */
  function PaymentRows(s: Sales): Payment -> seq<Entry> {
    p =>
      var credits := Filter(s.credits, CreditOf(p));
      if credits == [] then [PaymentEntry(p, COLLECTED)] else seq(|credits|, _ => PaymentEntry(p, INSTALLMENT))
  }

  function Payments(s: Sales): seq<Entry> {
    FlatMap(Filter(s.payments, IsLive()), PaymentRows(s))
  }

  function SaleOf(c: Credit): Invoice -> bool {
    (i: Invoice) => i.id == c.invoice && i.company == c.company
  }

  function OpenedEntry(c: Credit): Invoice -> Entry {
    (i: Invoice) => Entry(c.company, c.invoice, CREDIT_OPENED, Some(c.totalAmount), i.createdBy, c.createdAt)
  }

  function OpenedRows(s: Sales): Credit -> seq<Entry> {
    c => FlatMap(Filter(s.invoices, SaleOf(c)), Single(OpenedEntry(c)))
  }

  function Opened(s: Sales): seq<Entry> {
    FlatMap(s.credits, OpenedRows(s))
  }

  function IsPaid(): Credit -> bool {
    (c: Credit) => c.isPaid
  }

  function PaidEntry(): Credit -> Entry {
    (c: Credit) => Entry(c.company, c.invoice, PAID, None, None, c.updatedAt)
  }

  function Paid(s: Sales): seq<Entry> {
    FlatMap(Filter(s.credits, IsPaid()), Single(PaidEntry()))
  }

  function VoidsOf(i: Invoice): Note -> bool {
    (n: Note) => n.invoice == i.id && n.company == i.company && n.operation == FULL_VOID && !n.isDeleted
  }

  /** ORDER BY created_at DESC LIMIT 1. */
  function Newest(notes: seq<Note>): Option<Note> {
    if notes == [] then None
    else
      var rest := Newest(notes[1..]);
      if rest.Some? && rest.value.createdAt > notes[0].createdAt then rest else Some(notes[0])
  }

  function IsDeleted(): Invoice -> bool {
    (i: Invoice) => i.isDeleted
  }

  function VoidedEntry(s: Sales): Invoice -> Entry {
    (i: Invoice) =>
      var note := Newest(Filter(s.notes, VoidsOf(i)));
      Entry(i.company, i.id, VOIDED, None,
            Coalesce(if note.Some? then note.value.createdBy else None, i.createdBy),
            if note.Some? then note.value.createdAt else i.updatedAt)
  }

  function Voided(s: Sales): seq<Entry> {
    FlatMap(Filter(s.invoices, IsDeleted()), Single(VoidedEntry(s)))
  }

  // ------------------------------------------------------------------------
  // The table
  // ------------------------------------------------------------------------

  function Numbered(first: nat, rows: seq<Entry>): seq<Event> {
    seq(|rows|, i requires 0 <= i < |rows| => Event(first + i, rows[i]))
  }

  lemma NumberedConcat(first: nat, a: seq<Entry>, b: seq<Entry>)
    ensures Numbered(first, a) + Numbered(first + |a|, b) == Numbered(first, a + b)
  {
  }

  /** The rows that an INSERT adds follow what was there, in their order, with consecutive ids. */
  lemma NumberedFollow(events: seq<Event>, first: nat, rows: seq<Entry>)
    ensures var after := events + Numbered(first, rows);
            && |after| == |events| + |rows|
            && forall k :: 0 <= k < |rows| ==> after[|events| + k] == Event(first + k, rows[k])
  {
  }

  /** The rows of the n-th INSERT. */
  function Part(s: Sales, n: nat): seq<Entry> {
    match n
    case 0 => Created(s)
    case 1 => Payments(s)
    case 2 => Opened(s)
    case 3 => Paid(s)
    case 4 => Voided(s)
    case _ => []
  }

  /** The rows of the first `n` INSERTs. */
  function FirstParts(s: Sales, n: nat): seq<Entry> {
    if n == 0 then [] else FirstParts(s, n - 1) + Part(s, n - 1)
  }

  function Timeline(s: Sales): seq<Entry> {
    FirstParts(s, 5)
  }

  /** The table and its id counter after a backfill: nothing happens to a table with rows. */
  function Backfilled(events: seq<Event>, nextId: nat, s: Sales): (seq<Event>, nat) {
    if events == [] then (Numbered(nextId, Timeline(s)), nextId + |Timeline(s)|) else (events, nextId)
  }

  class StatusHistory {
    var events: seq<Event>
    var nextId: nat

    constructor ()
      ensures events == [] && nextId == 1
    {
      events, nextId := [], 1;
    }

    method Insert(rows: seq<Entry>)
      modifies this
      ensures events == old(events) + Numbered(old(nextId), rows)
      ensures nextId == old(nextId) + |rows|
    {
      var k := 0;
      while k < |rows|
        invariant k <= |rows| && nextId == old(nextId) + k
        invariant events == old(events) + Numbered(old(nextId), rows[..k])
      {
        NumberedConcat(old(nextId), rows[..k], [rows[k]]);
        assert rows[..k + 1] == rows[..k] + [rows[k]];
        events := events + [Event(nextId, rows[k])];
        nextId := nextId + 1;
        k := k + 1;
      }
      assert rows[..k] == rows;
    }

    /** The first `n` INSERTs have run. */
    ghost predicate HasParts(s: Sales, n: nat, first: nat)
      reads this
    {
      events == Numbered(first, FirstParts(s, n)) && nextId == first + |FirstParts(s, n)|
    }

    /** The n-th INSERT, after those before it. */
    method InsertPart(s: Sales, n: nat, ghost first: nat)
      requires HasParts(s, n, first)
      modifies this
      ensures HasParts(s, n + 1, first)
    {
      NumberedConcat(first, FirstParts(s, n), Part(s, n));
      Insert(Part(s, n));
    }

    method Backfill(s: Sales)
      modifies this
      ensures (events, nextId) == Backfilled(old(events), old(nextId), s)
    {
      if events == [] {
        ghost var first := nextId;
        InsertPart(s, 0, first);
        InsertPart(s, 1, first);
        InsertPart(s, 2, first);
        InsertPart(s, 3, first);
        InsertPart(s, 4, first);
      }
    }
  }

  /** A second run changes nothing, from any table and also when the first had nothing to insert. */
  lemma BackfillTwice(events: seq<Event>, nextId: nat, s: Sales)
    ensures var (once, next) := Backfilled(events, nextId, s); Backfilled(once, next, s) == (once, next)
  {
    if events == [] && Timeline(s) == [] { assert Numbered(nextId, Timeline(s)) == []; }
  }

  // ------------------------------------------------------------------------
  // The order of the ids
  // ------------------------------------------------------------------------

  function Stage(k: Kind): nat {
    match k
    case CREATED => 0
    case COLLECTED => 1
    case INSTALLMENT => 1
    case CREDIT_OPENED => 2
    case PAID => 3
    case VOIDED => 4
  }

  lemma StageOfPart(s: Sales, n: nat)
    ensures forall e :: e in Part(s, n) ==> Stage(e.kind) == n
  {
    match n
    case 0 => FlatMapMembers(s.invoices, Single(CreatedEntry()));
    case 1 =>
      FlatMapMembers(Filter(s.payments, IsLive()), PaymentRows(s));
      forall p
        ensures forall e :: e in PaymentRows(s)(p) ==> Stage(e.kind) == 1
      {
        RowsOfPayment(s, p);
      }
    case 2 =>
      FlatMapMembers(s.credits, OpenedRows(s));
      forall c
        ensures forall e :: e in OpenedRows(s)(c) ==> Stage(e.kind) == 2
      {
        FlatMapMembers(Filter(s.invoices, SaleOf(c)), Single(OpenedEntry(c)));
      }
    case 3 => FlatMapMembers(Filter(s.credits, IsPaid()), Single(PaidEntry()));
    case 4 => FlatMapMembers(Filter(s.invoices, IsDeleted()), Single(VoidedEntry(s)));
    case _ =>
  }

  lemma {:induction false} PartsStaged(s: Sales, n: nat)
    ensures forall e :: e in FirstParts(s, n) ==> Stage(e.kind) < n
    ensures forall i, j :: 0 <= i < j < |FirstParts(s, n)| ==> Stage(FirstParts(s, n)[i].kind) <= Stage(FirstParts(s, n)[j].kind)
  {
    if n > 0 {
      PartsStaged(s, n - 1);
      StageOfPart(s, n - 1);
      var a, b := FirstParts(s, n - 1), Part(s, n - 1);
      var c: seq<Entry> := a + b;
      forall i, j | 0 <= i < j < |c|
        ensures Stage(c[i].kind) <= Stage(c[j].kind)
      {
        assert if i < |a| then c[i] in a else c[i] in b;
        assert if j < |a| then c[j] in a else c[j] in b;
      }
    }
  }

  /** Ids respect CREATED < COLLECTED, INSTALLMENT < CREDIT_OPENED < PAID < VOIDED, across all sales. */
  lemma IdsFollowStages(nextId: nat, s: Sales, a: Event, b: Event)
    requires a in Backfilled([], nextId, s).0 && b in Backfilled([], nextId, s).0
    requires Stage(a.entry.kind) < Stage(b.entry.kind)
    ensures a.id < b.id
  {
    PartsStaged(s, 5);
  }

  // ------------------------------------------------------------------------
  // Which events there are
  // ------------------------------------------------------------------------

  function AtStage(n: nat): Entry -> bool {
    (e: Entry) => Stage(e.kind) == n
  }

  lemma {:induction false} FilterAll<T>(s: seq<T>, p: T -> bool)
    requires forall x :: x in s ==> p(x)
    ensures Filter(s, p) == s
  {
    if s != [] { FilterAll(s[1..], p); }
  }

  lemma {:induction false} PartsFiltered(s: Sales, m: nat, n: nat)
    ensures Filter(FirstParts(s, m), AtStage(n)) == if n < m then Part(s, n) else []
  {
    if m > 0 {
      PartsFiltered(s, m - 1, n);
      FilterConcat(FirstParts(s, m - 1), Part(s, m - 1), AtStage(n));
      StageOfPart(s, m - 1);
      if n == m - 1 { FilterAll(Part(s, n), AtStage(n)); } else { FilterNone(Part(s, m - 1), AtStage(n)); }
    }
  }

  /** The events of a stage are the rows of its query and no others. */
  lemma EventsAtStage(s: Sales, n: nat)
    ensures Filter(Timeline(s), AtStage(n)) == Part(s, n)
  {
    PartsFiltered(s, 5, n);
  }

  /** `events` is one entry for each row of the table, in its order. */
  ghost predicate OneEach<T(!new)>(events: seq<Entry>, rows: seq<T>, entry: T -> Entry) {
    |events| == |rows| && forall i :: 0 <= i < |rows| ==> events[i] == entry(rows[i])
  }

  /** Exactly one CREATED for every invoice. */
  lemma OneCreatedEach(s: Sales)
    ensures OneEach(Filter(Timeline(s), AtStage(0)), s.invoices, CreatedEntry())
  {
    EventsAtStage(s, 0);
    FlatMapSingles(s.invoices, Single(CreatedEntry()), CreatedEntry());
  }

  /** Exactly one VOIDED for every deleted invoice... */
  lemma OneVoidedEach(s: Sales)
    ensures OneEach(Filter(Timeline(s), AtStage(4)), Filter(s.invoices, IsDeleted()), VoidedEntry(s))
  {
    EventsAtStage(s, 4);
    FlatMapSingles(Filter(s.invoices, IsDeleted()), Single(VoidedEntry(s)), VoidedEntry(s));
  }

  lemma {:induction false} NewestIsLatest(notes: seq<Note>)
    ensures Newest(notes).None? <==> notes == []
    ensures Newest(notes).Some? ==> Newest(notes).value in notes
    ensures Newest(notes).Some? ==> forall n :: n in notes ==> n.createdAt <= Newest(notes).value.createdAt
  {
    if notes != [] {
      NewestIsLatest(notes[1..]);
      assert notes == [notes[0]] + notes[1..];
    }
  }

  /** ...dated by the latest live FULL_VOID note of the sale, or by its last update when there is none. */
  lemma VoidedWhen(s: Sales, i: Invoice)
    ensures SignedByLastVoid(s, i, VoidedEntry(s)(i))
  {
    assert forall n :: VoidsOf(i)(n) <==> IsVoidOf(n, i);
    FilterMembers(s.notes, VoidsOf(i));
    NewestIsLatest(Filter(s.notes, VoidsOf(i)));
  }

  // ------------------------------------------------------------------------
  // What each event says
  // ------------------------------------------------------------------------

  /** A live full void of the sale. */
  predicate IsVoidOf(n: Note, i: Invoice) {
    n.company == i.company && n.invoice == i.id && n.operation == FULL_VOID && !n.isDeleted
  }

  /** The event tells of a sale that was made. */
  ghost predicate TellsOfSale(s: Sales, e: Entry) {
    exists i :: i in s.invoices && e == Entry(i.company, i.id, CREATED, None, i.createdBy, i.createdAt)
  }

  /** Of a payment that was not voided. */
  ghost predicate TellsOfPayment(s: Sales, e: Entry) {
    exists p :: p in s.payments && !p.isVoided && e == Entry(p.company, p.invoice, e.kind, Some(p.amount), p.createdBy, p.createdAt)
  }

  /** Of a credit of a sale of its company. */
  ghost predicate TellsOfCredit(s: Sales, e: Entry) {
    exists c, i :: c in s.credits && i in s.invoices && c.invoice == i.id && c.company == i.company &&
                   e == Entry(c.company, c.invoice, CREDIT_OPENED, Some(c.totalAmount), i.createdBy, c.createdAt)
  }

  /** Of a credit that is paid. */
  ghost predicate TellsOfPaidCredit(s: Sales, e: Entry) {
    exists c :: c in s.credits && c.isPaid && e == Entry(c.company, c.invoice, PAID, None, None, c.updatedAt)
  }

  /** Of a sale that was voided, when and by whom the last full void says, or else the sale. */
  ghost predicate TellsOfVoid(s: Sales, e: Entry) {
    exists i :: i in s.invoices && i.isDeleted && e.company == i.company && e.invoice == i.id && e.amount.None? && SignedByLastVoid(s, i, e)
  }

  ghost predicate SignedByLastVoid(s: Sales, i: Invoice, e: Entry) {
    if exists n :: n in s.notes && IsVoidOf(n, i)
    then exists n :: n in s.notes && IsVoidOf(n, i) && e.createdAt == n.createdAt && LatestVoid(s, i, n.createdAt) &&
                     e.createdBy == if n.createdBy.Some? then n.createdBy else i.createdBy
    else e.createdAt == i.updatedAt && e.createdBy == i.createdBy
  }

  ghost predicate LatestVoid(s: Sales, i: Invoice, at: int) {
    forall n :: n in s.notes && IsVoidOf(n, i) ==> n.createdAt <= at
  }

  /** What an event of each kind says. */
  ghost predicate Tells(s: Sales, e: Entry) {
    match e.kind
    case CREATED => TellsOfSale(s, e)
    case COLLECTED => TellsOfPayment(s, e) && !HasCredit(s, e.company, e.invoice)
    case INSTALLMENT => TellsOfPayment(s, e) && HasCredit(s, e.company, e.invoice)
    case CREDIT_OPENED => TellsOfCredit(s, e)
    case PAID => TellsOfPaidCredit(s, e)
    case VOIDED => TellsOfVoid(s, e)
  }

  lemma InTimeline(s: Sales, e: Entry)
    ensures e in Timeline(s) <==> e in Part(s, Stage(e.kind))
  {
    EventsAtStage(s, Stage(e.kind));
    FilterMembers(Timeline(s), AtStage(Stage(e.kind)));
    assert AtStage(Stage(e.kind))(e);
  }

  lemma CreatedTells(s: Sales, e: Entry)
    ensures e in Created(s) <==> TellsOfSale(s, e)
  {
    FlatMapMembers(s.invoices, Single(CreatedEntry()));
    if i :| i in s.invoices && e == CreatedEntry()(i) { assert e in Single(CreatedEntry())(i); }
  }

  lemma PaymentTells(s: Sales, e: Entry)
    ensures e in Payments(s) <==>
            TellsOfPayment(s, e) && e.kind == if HasCredit(s, e.company, e.invoice) then INSTALLMENT else COLLECTED
  {
    FilterMembers(s.payments, IsLive());
    FlatMapMembers(Filter(s.payments, IsLive()), PaymentRows(s));
    forall p | p in s.payments
      ensures e in PaymentRows(s)(p) <==> e == KindOfPayment(s)(p)
    {
      RowsOfPayment(s, p);
      assert PaymentRows(s)(p)[0] in PaymentRows(s)(p);
    }
  }

  lemma OpenedTells(s: Sales, e: Entry)
    ensures e in Opened(s) <==> TellsOfCredit(s, e)
  {
    FlatMapMembers(s.credits, OpenedRows(s));
    forall c
      ensures e in OpenedRows(s)(c) <==> exists i :: i in s.invoices && SaleOf(c)(i) && e == OpenedEntry(c)(i)
    {
      FilterMembers(s.invoices, SaleOf(c));
      FlatMapMembers(Filter(s.invoices, SaleOf(c)), Single(OpenedEntry(c)));
      if i :| i in s.invoices && SaleOf(c)(i) && e == OpenedEntry(c)(i) { assert e in Single(OpenedEntry(c))(i); }
    }
  }

  lemma PaidTells(s: Sales, e: Entry)
    ensures e in Paid(s) <==> TellsOfPaidCredit(s, e)
  {
    FilterMembers(s.credits, IsPaid());
    FlatMapMembers(Filter(s.credits, IsPaid()), Single(PaidEntry()));
    if c :| c in s.credits && c.isPaid && e == PaidEntry()(c) { assert e in Single(PaidEntry())(c); }
  }

  lemma VoidedTells(s: Sales, e: Entry)
    requires e in Voided(s)
    ensures e.kind == VOIDED && TellsOfVoid(s, e)
  {
    FilterMembers(s.invoices, IsDeleted());
    FlatMapMembers(Filter(s.invoices, IsDeleted()), Single(VoidedEntry(s)));
    var i :| i in Filter(s.invoices, IsDeleted()) && e in Single(VoidedEntry(s))(i);
    VoidedWhen(s, i);
  }

  /** Every event tells of something on record, with its amount, its author and its date. */
  lemma EventsTell(s: Sales, e: Entry)
    requires e in Timeline(s)
    ensures Tells(s, e)
  {
    InTimeline(s, e);
    match e.kind
    case CREATED => CreatedTells(s, e);
    case COLLECTED => PaymentTells(s, e);
    case INSTALLMENT => PaymentTells(s, e);
    case CREDIT_OPENED => OpenedTells(s, e);
    case PAID => PaidTells(s, e);
    case VOIDED => VoidedTells(s, e);
  }

  /** Everything on record is told; of a voided sale one event, whichever of two voids of one moment signs it. */
  lemma AllIsTold(s: Sales, e: Entry)
    requires Tells(s, e)
    ensures e.kind != VOIDED ==> e in Timeline(s)
    ensures e.kind == VOIDED ==> exists v :: v in Timeline(s) && v.kind == VOIDED && (v.company, v.invoice, v.createdAt) == (e.company, e.invoice, e.createdAt)
  {
    InTimeline(s, e);
    match e.kind
    case CREATED => CreatedTells(s, e);
    case COLLECTED => PaymentTells(s, e);
    case INSTALLMENT => PaymentTells(s, e);
    case CREDIT_OPENED => OpenedTells(s, e);
    case PAID => PaidTells(s, e);
    case VOIDED => VoidIsTold(s, e);
  }

  lemma VoidIsTold(s: Sales, e: Entry)
    requires TellsOfVoid(s, e)
    ensures exists v :: v in Timeline(s) && v.kind == VOIDED && (v.company, v.invoice, v.createdAt) == (e.company, e.invoice, e.createdAt)
  {
    var i :| i in s.invoices && i.isDeleted && e.company == i.company && e.invoice == i.id && SignedByLastVoid(s, i, e);
    VoidedWhen(s, i);
    VoidIsThere(s, i);
  }

  lemma VoidIsThere(s: Sales, i: Invoice)
    requires i in s.invoices && i.isDeleted
    ensures VoidedEntry(s)(i) in Timeline(s)
  {
    var v := VoidedEntry(s)(i);
    FilterMembers(s.invoices, IsDeleted());
    FlatMapMembers(Filter(s.invoices, IsDeleted()), Single(VoidedEntry(s)));
    assert v in Single(VoidedEntry(s))(i);
    InTimeline(s, v);
  }

  /** Exactly one PAID for every credit that is paid. */
  lemma OnePaidEach(s: Sales)
    ensures OneEach(Filter(Timeline(s), AtStage(3)), Filter(s.credits, IsPaid()), PaidEntry())
  {
    EventsAtStage(s, 3);
    FlatMapSingles(Filter(s.credits, IsPaid()), Single(PaidEntry()), PaidEntry());
  }

  // ------------------------------------------------------------------------
  // Payments
  // ------------------------------------------------------------------------

  predicate HasCredit(s: Sales, company: nat, invoice: nat) {
    exists c | c in s.credits :: c.company == company && c.invoice == invoice
  }

  function KindOfPayment(s: Sales): Payment -> Entry {
    (p: Payment) => PaymentEntry(p, if HasCredit(s, p.company, p.invoice) then INSTALLMENT else COLLECTED)
  }

  /** The unique index of `sale_credits`. */
  ghost predicate OneCreditPerSale(s: Sales) {
    forall i, j :: 0 <= i < j < |s.credits| ==> (s.credits[i].company, s.credits[i].invoice) != (s.credits[j].company, s.credits[j].invoice)
  }

  ghost predicate NoFanOut(s: Sales) {
    forall p :: p in Filter(s.payments, IsLive()) ==> |Filter(s.credits, CreditOf(p))| <= 1
  }

  lemma {:induction false} AtMostOne(credits: seq<Credit>, p: Payment)
    requires forall i, j :: 0 <= i < j < |credits| ==> (credits[i].company, credits[i].invoice) != (credits[j].company, credits[j].invoice)
    ensures |Filter(credits, CreditOf(p))| <= 1
  {
    if credits != [] {
      if CreditOf(p)(credits[0]) {
        forall c | c in credits[1..]
          ensures !CreditOf(p)(c)
        {
          var j :| 0 <= j < |credits| - 1 && credits[1..][j] == c;
          assert credits[j + 1] == c;
        }
        FilterNone(credits[1..], CreditOf(p));
      } else {
        AtMostOne(credits[1..], p);
      }
    }
  }

  lemma IndexPreventsFanOut(s: Sales)
    requires OneCreditPerSale(s)
    ensures NoFanOut(s)
  {
    forall p | p in Filter(s.payments, IsLive())
      ensures |Filter(s.credits, CreditOf(p))| <= 1
    {
      AtMostOne(s.credits, p);
    }
  }

  lemma RowsOfPayment(s: Sales, p: Payment)
    ensures var credits := |Filter(s.credits, CreditOf(p))|;
            |PaymentRows(s)(p)| == (if credits == 0 then 1 else credits) &&
            (credits > 0 <==> HasCredit(s, p.company, p.invoice)) &&
            forall e :: e in PaymentRows(s)(p) ==> e == KindOfPayment(s)(p)
  {
    FilterMembers(s.credits, CreditOf(p));
    if Filter(s.credits, CreditOf(p)) != [] { assert Filter(s.credits, CreditOf(p))[0] in s.credits; }
  }

  /** Exactly one COLLECTED or INSTALLMENT for every live payment, by whether its sale has a credit. */
  lemma OneEventPerPayment(s: Sales)
    requires NoFanOut(s)
    ensures OneEach(Filter(Timeline(s), AtStage(1)), Filter(s.payments, IsLive()), KindOfPayment(s))
  {
    EventsAtStage(s, 1);
    var live := Filter(s.payments, IsLive());
    forall p | p in live
      ensures PaymentRows(s)(p) == [KindOfPayment(s)(p)]
    {
      RowsOfPayment(s, p);
      assert PaymentRows(s)(p)[0] in PaymentRows(s)(p);
    }
    FlatMapSingles(live, PaymentRows(s), KindOfPayment(s));
  }

  lemma PaymentEvents(s: Sales, e: Entry)
    requires e in Timeline(s) && Stage(e.kind) == 1
    ensures e.kind == if HasCredit(s, e.company, e.invoice) then INSTALLMENT else COLLECTED
  {
    EventsAtStage(s, 1);
    FilterMembers(Timeline(s), AtStage(1));
    FlatMapMembers(Filter(s.payments, IsLive()), PaymentRows(s));
    var p :| p in Filter(s.payments, IsLive()) && e in PaymentRows(s)(p);
    RowsOfPayment(s, p);
  }

  /** No sale has both a COLLECTED and an INSTALLMENT, with or without the unique index. */
  lemma NeverBothKinds(s: Sales, a: Entry, b: Entry)
    requires a in Timeline(s) && b in Timeline(s) && a.kind == COLLECTED && b.kind == INSTALLMENT
    ensures (a.company, a.invoice) != (b.company, b.invoice)
  {
    PaymentEvents(s, a);
    PaymentEvents(s, b);
  }

  // ------------------------------------------------------------------------
  // Amounts
  // ------------------------------------------------------------------------

  function EventAmount(): Entry -> real {
    (e: Entry) => if e.amount.Some? then e.amount.value else 0.0
  }

  function PaymentAmount(): Payment -> real {
    (p: Payment) => p.amount
  }

  function EventOfSale(company: nat, invoice: nat): Entry -> bool {
    (e: Entry) => Stage(e.kind) == 1 && e.company == company && e.invoice == invoice
  }

  function PaymentOfSale(company: nat, invoice: nat): Payment -> bool {
    (p: Payment) => p.company == company && p.invoice == invoice
  }

  lemma {:induction false} SumOfRepeated(rows: seq<Entry>, e: Entry, f: Entry -> real)
    requires forall i :: 0 <= i < |rows| ==> rows[i] == e
    ensures Sum(rows, f) == |rows| as real * f(e)
  {
    if rows != [] { SumOfRepeated(rows[1..], e, f); }
  }

  lemma {:induction false} SumStrict<T>(s: seq<T>, f: T -> real, g: T -> real)
    requires forall x :: x in s ==> f(x) <= g(x)
    requires exists x :: x in s && f(x) < g(x)
    ensures Sum(s, f) < Sum(s, g)
  {
    if f(s[0]) < g(s[0]) {
      SumOrder(s[1..], f, g);
    } else {
      SumStrict(s[1..], f, g);
    }
  }

  /** What the rows of one payment add up to: its amount, once per row. */
  lemma RowsTotal(s: Sales, p: Payment)
    requires p.amount > 0.0
    ensures SumOver(PaymentRows(s), EventAmount())(p) >= p.amount
    ensures SumOver(PaymentRows(s), EventAmount())(p) == p.amount <==> |Filter(s.credits, CreditOf(p))| <= 1
  {
    RowsOfPayment(s, p);
    SumOfRepeated(PaymentRows(s)(p), KindOfPayment(s)(p), EventAmount());
    var n := |PaymentRows(s)(p)|;
    assert n > 1 ==> n as real * p.amount >= 2.0 * p.amount;
  }

  /** With positive payments, the amounts add up to what was paid exactly when no payment meets two credits. */
  lemma AmountsAddUpIff(s: Sales)
    requires forall p :: p in s.payments ==> p.amount > 0.0
    ensures Sum(Filter(Timeline(s), AtStage(1)), EventAmount()) == Sum(Filter(s.payments, IsLive()), PaymentAmount())
       <==> NoFanOut(s)
  {
    EventsAtStage(s, 1);
    var live := Filter(s.payments, IsLive());
    var rows := SumOver(PaymentRows(s), EventAmount());
    FilterMembers(s.payments, IsLive());
    SumFlatMap(live, PaymentRows(s), EventAmount());
    forall p | p in live
      ensures rows(p) >= p.amount && (rows(p) == p.amount <==> |Filter(s.credits, CreditOf(p))| <= 1)
    {
      RowsTotal(s, p);
    }
    if NoFanOut(s) {
      SumCongruent(live, rows, PaymentAmount());
    } else {
      SumStrict(live, PaymentAmount(), rows);
    }
  }

  lemma {:induction false} SumOneEach(events: seq<Entry>, live: seq<Payment>, s: Sales, f: Entry -> real, g: Payment -> real)
    requires OneEach(events, live, KindOfPayment(s))
    requires forall p :: f(KindOfPayment(s)(p)) == g(p)
    ensures Sum(events, f) == Sum(live, g)
  {
    if live != [] {
      assert events[0] == KindOfPayment(s)(live[0]);
      SumOneEach(events[1..], live[1..], s, f, g);
    }
  }

  lemma {:induction false} FilterTwice<T>(s: seq<T>, p: T -> bool, q: T -> bool)
    requires forall x :: q(x) ==> p(x)
    ensures Filter(Filter(s, p), q) == Filter(s, q)
  {
    if s != [] {
      FilterTwice(s[1..], p, q);
      FilterConcat(if p(s[0]) then [s[0]] else [], Filter(s[1..], p), q);
    }
  }

  /** What the events of each sale say was paid is what was paid. */
  lemma SaleAmountsConserved(s: Sales, company: nat, invoice: nat)
    requires NoFanOut(s)
    ensures Sum(Filter(Timeline(s), EventOfSale(company, invoice)), EventAmount())
         == Sum(Filter(Filter(s.payments, IsLive()), PaymentOfSale(company, invoice)), PaymentAmount())
  {
    OneEventPerPayment(s);
    FilterTwice(Timeline(s), AtStage(1), EventOfSale(company, invoice));
    var events, live := Filter(Timeline(s), AtStage(1)), Filter(s.payments, IsLive());
    var ofSale, paid := EventOfSale(company, invoice), PaymentOfSale(company, invoice);
    SumFilter(events, ofSale, EventAmount());
    SumFilter(live, paid, PaymentAmount());
    SumOneEach(events, live, s, When(ofSale, EventAmount()), When(paid, PaymentAmount()));
  }

  // ------------------------------------------------------------------------
  // Credits
  // ------------------------------------------------------------------------

  /** The primary key of `sale_invoices`. */
  ghost predicate InvoiceIdsUnique(s: Sales) {
    forall i, j :: 0 <= i < j < |s.invoices| ==> s.invoices[i].id != s.invoices[j].id
  }

  predicate SaleInCompany(s: Sales, c: Credit) {
    exists i | i in s.invoices :: SaleOf(c)(i)
  }

  lemma {:induction false} AtMostOneSale(invoices: seq<Invoice>, c: Credit)
    requires forall i, j :: 0 <= i < j < |invoices| ==> invoices[i].id != invoices[j].id
    ensures |Filter(invoices, SaleOf(c))| <= 1
  {
    if invoices != [] {
      if SaleOf(c)(invoices[0]) {
        forall i | i in invoices[1..]
          ensures !SaleOf(c)(i)
        {
          var j :| 0 <= j < |invoices| - 1 && invoices[1..][j] == i;
          assert invoices[j + 1] == i;
        }
        FilterNone(invoices[1..], SaleOf(c));
      } else {
        AtMostOneSale(invoices[1..], c);
      }
    }
  }

  /** One CREDIT_OPENED for a credit whose sale is of its company, none for any other. */
  lemma OpenedOnce(s: Sales, c: Credit)
    requires InvoiceIdsUnique(s)
    ensures |OpenedRows(s)(c)| == if SaleInCompany(s, c) then 1 else 0
    ensures forall e :: e in OpenedRows(s)(c) ==> (e.company, e.invoice, e.kind, e.amount) == (c.company, c.invoice, CREDIT_OPENED, Some(c.totalAmount))
  {
    var sales := Filter(s.invoices, SaleOf(c));
    AtMostOneSale(s.invoices, c);
    FilterMembers(s.invoices, SaleOf(c));
    assert sales != [] ==> sales[0] in sales;
    if SaleInCompany(s, c) {
      var i :| i in s.invoices && SaleOf(c)(i);
      assert i in sales;
    }
    FlatMapSingles(sales, Single(OpenedEntry(c)), OpenedEntry(c));
  }

  /** Some CREDIT_OPENED event is about the sale of the event `e`. */
  predicate WasOpened(s: Sales, e: Entry) {
    exists o | o in Timeline(s) :: o.kind == CREDIT_OPENED && (o.company, o.invoice) == (e.company, e.invoice)
  }

  lemma OpenedMeans(s: Sales, e: Entry)
    requires e in Timeline(s) && e.kind == CREDIT_OPENED
    ensures exists i :: i in s.invoices && i.id == e.invoice && i.company == e.company
  {
    InTimeline(s, e);
    FlatMapMembers(s.credits, OpenedRows(s));
    var d :| d in s.credits && e in OpenedRows(s)(d);
    FlatMapMembers(Filter(s.invoices, SaleOf(d)), Single(OpenedEntry(d)));
    var i :| i in Filter(s.invoices, SaleOf(d)) && e in Single(OpenedEntry(d))(i);
    FilterMembers(s.invoices, SaleOf(d));
  }

  lemma IsOpened(s: Sales, c: Credit, i: Invoice)
    requires c in s.credits && i in s.invoices && SaleOf(c)(i)
    ensures OpenedEntry(c)(i) in Timeline(s)
  {
    FilterMembers(s.invoices, SaleOf(c));
    FlatMapMembers(Filter(s.invoices, SaleOf(c)), Single(OpenedEntry(c)));
    assert OpenedEntry(c)(i) in Single(OpenedEntry(c))(i);
    FlatMapMembers(s.credits, OpenedRows(s));
    InTimeline(s, OpenedEntry(c)(i));
  }

  lemma OpenedIff(s: Sales, c: Credit)
    requires c in s.credits
    ensures WasOpened(s, PaidEntry()(c)) <==> SaleInCompany(s, c)
  {
    if SaleInCompany(s, c) {
      var i :| i in s.invoices && SaleOf(c)(i);
      IsOpened(s, c, i);
    } else if WasOpened(s, PaidEntry()(c)) {
      var o :| o in Timeline(s) && o.kind == CREDIT_OPENED && (o.company, o.invoice) == (c.company, c.invoice);
      OpenedMeans(s, o);
      assert false;
    }
  }

  /**
   The PAID query, unlike the CREDIT_OPENED one, does not ask for the sale: every PAID event has
   its CREDIT_OPENED exactly when the sale of every paid credit is of the credit's company.
   */
  lemma PaidAreOpenedIff(s: Sales)
    ensures (forall e :: e in Timeline(s) && e.kind == PAID ==> WasOpened(s, e))
       <==> (forall c :: c in s.credits && c.isPaid ==> SaleInCompany(s, c))
  {
    forall c | c in s.credits && c.isPaid
      ensures PaidEntry()(c) in Timeline(s) && PaidEntry()(c).kind == PAID
      ensures WasOpened(s, PaidEntry()(c)) <==> SaleInCompany(s, c)
    {
      OpenedIff(s, c);
      AllIsTold(s, PaidEntry()(c));
    }
    forall e | e in Timeline(s) && e.kind == PAID
      ensures exists c :: c in s.credits && c.isPaid && e == PaidEntry()(c)
    {
      EventsTell(s, e);
    }
  }
}
