/**
 The consolidated-sales views: a sale with its credit and debit notes applied, by invoice
 and by line, and what was paid of it by each method.  A table is a sequence of rows; a
 view is the sequence its query returns.
 */
module SalesViews {
  import opened Wrappers
  import opened Bags

  datatype NoteType = CREDIT | DEBIT

  datatype Operation = FULL_VOID | PARTIAL_VOID | ADDITION

  datatype Invoice = Invoice(id: nat, company: nat, ticketType: nat, isDeleted: bool, createdAt: int, soldAt: Option<int>,
                             total: real, cost: real)

  datatype Note = Note(id: nat, company: nat, invoice: nat, noteType: NoteType, operation: Operation, total: real,
                       createdAt: int, isDeleted: bool)

  datatype NoteLine = NoteLine(note: nat, company: nat, product: nat, quantity: real, unitCost: real, total: real)

  datatype SaleLine = SaleLine(invoice: nat, company: nat, product: nat, quantity: real, unitCost: real, total: real)

  datatype Payment = Payment(invoice: nat, company: nat, via: nat, amount: real, isVoided: bool)

  datatype Database = Database(invoices: seq<Invoice>, notes: seq<Note>, noteLines: seq<NoteLine>,
                               saleLines: seq<SaleLine>, payments: seq<Payment>)

  /** The primary key of `sale_invoices`. */
  ghost predicate InvoiceIdsUnique(db: Database) {
    forall i, j :: 0 <= i < j < |db.invoices| ==> db.invoices[i].id != db.invoices[j].id
  }

  // ------------------------------------------------------------------------
  // View 1: the notes of each invoice, added up
  // ------------------------------------------------------------------------

  /** What a GROUP BY company_id, sale_invoice_id groups by. */
  datatype SaleKey = SaleKey(company: nat, invoice: nat)

  function KeyOfNote(n: Note): SaleKey {
    SaleKey(n.company, n.invoice)
  }

  function KeyOfInvoice(i: Invoice): SaleKey {
    SaleKey(i.company, i.id)
  }

  /** A credit note subtracts, a debit note adds. */
  function Signed(n: Note, x: real): real {
    if n.noteType == DEBIT then x else -x
  }

  predicate LineOfNote(l: NoteLine, n: Note) {
    l.note == n.id && l.company == n.company
  }

  function LineCost(l: NoteLine): real {
    l.unitCost * l.quantity
  }

  function OfNote(n: Note): NoteLine -> bool {
    l => LineOfNote(l, n)
  }

  /** The lateral subquery: the cost of a note's own lines. */
  function NoteCost(lines: seq<NoteLine>, n: Note): real {
    Sum(Filter(lines, OfNote(n)), LineCost)
  }

  function IsLive(): Note -> bool {
    (n: Note) => !n.isDeleted
  }

  function InGroup(k: SaleKey): Note -> bool {
    (n: Note) => KeyOfNote(n) == k
  }

  function SignedTotal(): Note -> real {
    (n: Note) => Signed(n, n.total)
  }

  function SignedCost(lines: seq<NoteLine>): Note -> real {
    n => Signed(n, NoteCost(lines, n))
  }

  function One(): Note -> real {
    n => 1.0
  }

  function OfType(t: NoteType): Note -> bool {
    (n: Note) => n.noteType == t
  }

  datatype Adjustment = Adjustment(key: SaleKey, total: real, cost: real, notes: real, credits: real, debits: real, hasFullVoid: bool)

  function NoteKey(): Note -> SaleKey {
    n => KeyOfNote(n)
  }

  /** The row of one group. */
  function Aggregate(db: Database, live: seq<Note>, k: SaleKey): Adjustment {
    var group := Filter(live, InGroup(k));
    Adjustment(k, Sum(group, SignedTotal()), Sum(group, SignedCost(db.noteLines)), Sum(group, One()),
               Sum(Filter(group, OfType(CREDIT)), One()), Sum(Filter(group, OfType(DEBIT)), One()),
               exists n | n in group :: n.operation == FULL_VOID)
  }

  function AggregateOf(db: Database, live: seq<Note>): SaleKey -> seq<Adjustment> {
    k => [Aggregate(db, live, k)]
  }

  function NoteAdjustments(db: Database): seq<Adjustment> {
    var live := Filter(db.notes, IsLive());
    FlatMap(Keys(live, NoteKey()), AggregateOf(db, live))
  }

  // ------------------------------------------------------------------------
  // View 2: the consolidated sale
  // ------------------------------------------------------------------------

  datatype Sale = Sale(id: nat, company: nat, ticketType: nat, isDeleted: bool, soldAt: int,
                       originalTotal: real, originalCost: real, noteAdjustment: real, noteCostAdjustment: real,
                       total: real, cost: real, profit: real,
                       notes: real, credits: real, debits: real, hasFullVoid: bool)

  function SoldAt(i: Invoice): int {
    if i.soldAt.Some? then i.soldAt.value else i.createdAt
  }

  /** One joined row; a missing adjustment coalesces to zero. */
  function Consolidate(i: Invoice, adj: Option<Adjustment>): Sale {
    var a := if adj.Some? then adj.value else Adjustment(KeyOfInvoice(i), 0.0, 0.0, 0.0, 0.0, 0.0, false);
    Sale(i.id, i.company, i.ticketType, i.isDeleted, SoldAt(i), i.total, i.cost, a.total, a.cost,
         i.total + a.total, i.cost + a.cost, (i.total + a.total) - (i.cost + a.cost),
         a.notes, a.credits, a.debits, a.hasFullVoid)
  }

  function ForInvoice(i: Invoice): Adjustment -> bool {
    (a: Adjustment) => a.key == KeyOfInvoice(i)
  }

  function ConsolidateWith(i: Invoice): Adjustment -> seq<Sale> {
    a => [Consolidate(i, Some(a))]
  }

  function LeftJoin(adjustments: seq<Adjustment>, i: Invoice): seq<Sale> {
    var matches := Filter(adjustments, ForInvoice(i));
    if matches == [] then [Consolidate(i, None)] else FlatMap(matches, ConsolidateWith(i))
  }

  function LeftJoinWith(adjustments: seq<Adjustment>): Invoice -> seq<Sale> {
    i => LeftJoin(adjustments, i)
  }

  function SalesConsolidated(db: Database): seq<Sale> {
    FlatMap(db.invoices, LeftJoinWith(NoteAdjustments(db)))
  }

  // ------------------------------------------------------------------------
  // One row per invoice
  // ------------------------------------------------------------------------

  function Adjusts(k: SaleKey): Note -> bool {
    (n: Note) => !n.isDeleted && KeyOfNote(n) == k
  }

  /** What the view should say of an invoice, read straight off the tables. */
  function Expected(db: Database, i: Invoice): Sale {
    var notes := Filter(db.notes, Adjusts(KeyOfInvoice(i)));
    Consolidate(i, Some(Adjustment(KeyOfInvoice(i), Sum(notes, SignedTotal()), Sum(notes, SignedCost(db.noteLines)),
                                   Sum(notes, One()), Sum(Filter(notes, OfType(CREDIT)), One()),
                                   Sum(Filter(notes, OfType(DEBIT)), One()), exists n | n in notes :: n.operation == FULL_VOID)))
  }

  function ExpectedOf(db: Database): Invoice -> Sale {
    i => Expected(db, i)
  }

  lemma {:induction false} FilterTwice(notes: seq<Note>, k: SaleKey)
    ensures Filter(Filter(notes, IsLive()), InGroup(k)) == Filter(notes, Adjusts(k))
  {
    if notes != [] {
      FilterTwice(notes[1..], k);
      var head, tail := if IsLive()(notes[0]) then [notes[0]] else [], Filter(notes[1..], IsLive());
      assert Filter(notes, IsLive()) == head + tail;
      FilterConcat(head, tail, InGroup(k));
      FilterOne(notes[0], InGroup(k));
    }
  }

  /** Groups have distinct keys, so an invoice joins at most one of them. */
  lemma {:induction false} JoinsOne(db: Database, live: seq<Note>, keys: seq<SaleKey>, i: Invoice)
    requires forall a, b :: 0 <= a < b < |keys| ==> keys[a] != keys[b]
    ensures Filter(FlatMap(keys, AggregateOf(db, live)), ForInvoice(i)) ==
            if KeyOfInvoice(i) in keys then [Aggregate(db, live, KeyOfInvoice(i))] else []
  {
    if keys != [] {
      JoinsOne(db, live, keys[1..], i);
      assert keys == [keys[0]] + keys[1..];
      assert forall b :: 0 <= b < |keys[1..]| ==> keys[1..][b] == keys[b + 1];
      FilterConcat([Aggregate(db, live, keys[0])], FlatMap(keys[1..], AggregateOf(db, live)), ForInvoice(i));
    }
  }

  lemma ExpectedIsAggregate(db: Database, i: Invoice)
    ensures Expected(db, i) == Consolidate(i, Some(Aggregate(db, Filter(db.notes, IsLive()), KeyOfInvoice(i))))
  {
    FilterTwice(db.notes, KeyOfInvoice(i));
  }

  lemma NoGroupMeansZero(db: Database, i: Invoice)
    requires KeyOfInvoice(i) !in Keys(Filter(db.notes, IsLive()), NoteKey())
    ensures Expected(db, i) == Consolidate(i, None)
  {
    var live := Filter(db.notes, IsLive());
    KeysAreDistinct(live, NoteKey());
    FilterTwice(db.notes, KeyOfInvoice(i));
    FilterNone(live, InGroup(KeyOfInvoice(i)));
  }

  lemma LeftJoinIsExpected(db: Database, i: Invoice)
    ensures LeftJoin(NoteAdjustments(db), i) == [Expected(db, i)]
  {
    var live := Filter(db.notes, IsLive());
    KeysAreDistinct(live, NoteKey());
    JoinsOne(db, live, Keys(live, NoteKey()), i);
    if KeyOfInvoice(i) in Keys(live, NoteKey()) {
      ExpectedIsAggregate(db, i);
      FlatMapOne(Aggregate(db, live, KeyOfInvoice(i)), ConsolidateWith(i));
    } else {
      NoGroupMeansZero(db, i);
    }
  }

  /** In every database the view has exactly one row per invoice, in the invoices' order, with the expected figures. */
  lemma OneRowPerInvoice(db: Database)
    ensures |SalesConsolidated(db)| == |db.invoices|
    ensures forall i :: 0 <= i < |db.invoices| ==> SalesConsolidated(db)[i] == Expected(db, db.invoices[i])
  {
    forall i | i in db.invoices ensures LeftJoinWith(NoteAdjustments(db))(i) == [ExpectedOf(db)(i)] {
      LeftJoinIsExpected(db, i);
    }
    FlatMapSingles(db.invoices, LeftJoinWith(NoteAdjustments(db)), ExpectedOf(db));
  }

  // ------------------------------------------------------------------------
  // View 3: the consolidated lines
  // ------------------------------------------------------------------------

  datatype Source = SALE | NOTE

  datatype LineRow = LineRow(company: nat, invoice: nat, product: nat, ticketType: nat, isDeleted: bool, soldAt: int,
                             quantity: real, total: real, cost: real, source: Source)

  function InvoiceOfLine(l: SaleLine): Invoice -> bool {
    (i: Invoice) => i.id == l.invoice && i.company == l.company
  }

  function SaleRow(l: SaleLine): Invoice -> seq<LineRow> {
    (i: Invoice) => [LineRow(l.company, l.invoice, l.product, i.ticketType, i.isDeleted, SoldAt(i),
                             l.quantity, l.total, l.unitCost * l.quantity, SALE)]
  }

  function SaleRows(db: Database): SaleLine -> seq<LineRow> {
    l => FlatMap(Filter(db.invoices, InvoiceOfLine(l)), SaleRow(l))
  }

  function LiveNoteOf(l: NoteLine): Note -> bool {
    n => LineOfNote(l, n) && !n.isDeleted
  }

  function InvoiceOfNote(n: Note): Invoice -> bool {
    (i: Invoice) => i.id == n.invoice && i.company == n.company
  }

  function NoteRow(l: NoteLine, n: Note): Invoice -> seq<LineRow> {
    (i: Invoice) => [LineRow(l.company, n.invoice, l.product, i.ticketType, i.isDeleted, SoldAt(i),
                             Signed(n, l.quantity), Signed(n, l.total), Signed(n, LineCost(l)), NOTE)]
  }

  function NoteRowsWith(db: Database, l: NoteLine): Note -> seq<LineRow> {
    n => FlatMap(Filter(db.invoices, InvoiceOfNote(n)), NoteRow(l, n))
  }

  function NoteRows(db: Database): NoteLine -> seq<LineRow> {
    l => FlatMap(Filter(db.notes, LiveNoteOf(l)), NoteRowsWith(db, l))
  }

  function LinesConsolidated(db: Database): seq<LineRow> {
    FlatMap(db.saleLines, SaleRows(db)) + FlatMap(db.noteLines, NoteRows(db))
  }

  // ------------------------------------------------------------------------
  // Lines and headers agree
  // ------------------------------------------------------------------------

  datatype LineColumn = QuantityColumn | TotalColumn | CostColumn

  /** Which column of the line view is being added up, and of which product if not of all. */
  datatype Measure = Measure(column: LineColumn, only: Option<nat>)

  const Cost := Measure(CostColumn, None)

  const Total := Measure(TotalColumn, None)

  predicate Counts(m: Measure, product: nat) {
    m.only.None? || m.only.value == product
  }

  function Amount(m: Measure, r: LineRow): real {
    if !Counts(m, r.product) then 0.0
    else
      match m.column
      case QuantityColumn => r.quantity
      case TotalColumn => r.total
      case CostColumn => r.cost
  }

  /** The part of the column that belongs to one invoice and one source. */
  function Share(m: Measure, k: SaleKey, source: Source): LineRow -> real {
    (r: LineRow) => if r.source == source && r.company == k.company && r.invoice == k.invoice then Amount(m, r) else 0.0
  }

  function Weight(m: Measure): NoteLine -> real {
    (l: NoteLine) =>
      if !Counts(m, l.product) then 0.0
      else
        match m.column
        case QuantityColumn => l.quantity
        case TotalColumn => l.total
        case CostColumn => LineCost(l)
  }

  function SaleWeight(m: Measure): SaleLine -> real {
    (l: SaleLine) =>
      if !Counts(m, l.product) then 0.0
      else
        match m.column
        case QuantityColumn => l.quantity
        case TotalColumn => l.total
        case CostColumn => l.unitCost * l.quantity
  }

  /** What one note line adds to the invoice `k` through one note. */
  function Cell(m: Measure, k: SaleKey): (NoteLine, Note) -> real {
    (l: NoteLine, n: Note) => if LiveNoteOf(l)(n) && KeyOfNote(n) == k then Signed(n, Weight(m)(l)) else 0.0
  }

  function LinesOf(lines: seq<NoteLine>, m: Measure): Note -> real {
    n => Signed(n, Sum(Filter(lines, OfNote(n)), Weight(m)))
  }

  lemma NoteRowsOfOneNote(db: Database, at: nat, m: Measure, l: NoteLine, n: Note)
    requires at < |db.invoices| && InvoiceIdsUnique(db) && LiveNoteOf(l)(n)
    ensures var k := KeyOfInvoice(db.invoices[at]);
            Sum(NoteRowsWith(db, l)(n), Share(m, k, NOTE)) == Cell(m, k)(l, n)
  {
    var k := KeyOfInvoice(db.invoices[at]);
    var share := Share(m, k, NOTE);
    SumFlatMap(Filter(db.invoices, InvoiceOfNote(n)), NoteRow(l, n), share);
    SumFilter(db.invoices, InvoiceOfNote(n), SumOver(NoteRow(l, n), share));
    var cell := When(InvoiceOfNote(n), SumOver(NoteRow(l, n), share));
    forall i: Invoice ensures cell(i) == if InvoiceOfNote(n)(i) then share(NoteRow(l, n)(i)[0]) else 0.0 {
      SumOne(NoteRow(l, n)(i)[0], share);
    }
    SumOnly(db.invoices, at, cell);
  }

  lemma NoteRowsOfOneLine(db: Database, at: nat, m: Measure, l: NoteLine)
    requires at < |db.invoices| && InvoiceIdsUnique(db)
    ensures var k := KeyOfInvoice(db.invoices[at]);
            Sum(NoteRows(db)(l), Share(m, k, NOTE)) == RowSum(db.notes, Cell(m, k))(l)
  {
    var k := KeyOfInvoice(db.invoices[at]);
    var share := Share(m, k, NOTE);
    SumFlatMap(Filter(db.notes, LiveNoteOf(l)), NoteRowsWith(db, l), share);
    SumFilter(db.notes, LiveNoteOf(l), SumOver(NoteRowsWith(db, l), share));
    var left := When(LiveNoteOf(l), SumOver(NoteRowsWith(db, l), share));
    forall n | n in db.notes ensures left(n) == Row(Cell(m, k), l)(n) {
      if LiveNoteOf(l)(n) { NoteRowsOfOneNote(db, at, m, l, n); }
    }
    SumCongruent(db.notes, left, Row(Cell(m, k), l));
  }

  lemma ColumnOfOneNote(lines: seq<NoteLine>, m: Measure, k: SaleKey, n: Note)
    ensures RowSum(lines, Flip(Cell(m, k)))(n) == When(Adjusts(k), LinesOf(lines, m))(n)
  {
    var column := Row(Flip(Cell(m, k)), n);
    forall l ensures column(l) == if Adjusts(k)(n) then Signed(n, When(OfNote(n), Weight(m))(l)) else 0.0 {
      assert column(l) == Cell(m, k)(l, n);
      assert LiveNoteOf(l)(n) <==> OfNote(n)(l) && !n.isDeleted;
      assert When(OfNote(n), Weight(m))(l) == if OfNote(n)(l) then Weight(m)(l) else 0.0;
    }
    if Adjusts(k)(n) {
      SumFilter(lines, OfNote(n), Weight(m));
      SumScale(lines, if n.noteType == DEBIT then 1.0 else -1.0, When(OfNote(n), Weight(m)), column);
    } else {
      SumZero(lines, column);
    }
  }

  /** The NOTE rows of an invoice add up to its live notes' lines, each with the sign of its note. */
  lemma NoteRowsAddUp(db: Database, at: nat, m: Measure)
    requires at < |db.invoices| && InvoiceIdsUnique(db)
    ensures var k := KeyOfInvoice(db.invoices[at]);
            Sum(FlatMap(db.noteLines, NoteRows(db)), Share(m, k, NOTE)) ==
            Sum(Filter(db.notes, Adjusts(k)), LinesOf(db.noteLines, m))
  {
    var k := KeyOfInvoice(db.invoices[at]);
    var share := Share(m, k, NOTE);
    SumFlatMap(db.noteLines, NoteRows(db), share);
    forall l | l in db.noteLines ensures SumOver(NoteRows(db), share)(l) == RowSum(db.notes, Cell(m, k))(l) {
      NoteRowsOfOneLine(db, at, m, l);
    }
    SumCongruent(db.noteLines, SumOver(NoteRows(db), share), RowSum(db.notes, Cell(m, k)));
    SumSwap(db.noteLines, db.notes, Cell(m, k));
    forall n | n in db.notes
      ensures RowSum(db.noteLines, Flip(Cell(m, k)))(n) == When(Adjusts(k), LinesOf(db.noteLines, m))(n)
    {
      ColumnOfOneNote(db.noteLines, m, k, n);
    }
    SumCongruent(db.notes, RowSum(db.noteLines, Flip(Cell(m, k))), When(Adjusts(k), LinesOf(db.noteLines, m)));
    SumFilter(db.notes, Adjusts(k), LinesOf(db.noteLines, m));
  }

  lemma SaleRowsOfOneLine(db: Database, at: nat, m: Measure, source: Source, l: SaleLine)
    requires at < |db.invoices| && InvoiceIdsUnique(db)
    ensures var i := db.invoices[at];
            Sum(SaleRows(db)(l), Share(m, KeyOfInvoice(i), source)) ==
            if source == SALE && InvoiceOfLine(l)(i) then SaleWeight(m)(l) else 0.0
  {
    var share := Share(m, KeyOfInvoice(db.invoices[at]), source);
    SumFlatMap(Filter(db.invoices, InvoiceOfLine(l)), SaleRow(l), share);
    SumFilter(db.invoices, InvoiceOfLine(l), SumOver(SaleRow(l), share));
    var cell := When(InvoiceOfLine(l), SumOver(SaleRow(l), share));
    forall i: Invoice ensures cell(i) == if InvoiceOfLine(l)(i) then share(SaleRow(l)(i)[0]) else 0.0 {
      SumOne(SaleRow(l)(i)[0], share);
    }
    SumOnly(db.invoices, at, cell);
  }

  function LineOfInvoice(i: Invoice): SaleLine -> bool {
    l => InvoiceOfLine(l)(i)
  }

  /** The SALE rows of an invoice are its own lines. */
  lemma SaleRowsAddUp(db: Database, at: nat, m: Measure, source: Source)
    requires at < |db.invoices| && InvoiceIdsUnique(db)
    ensures var i := db.invoices[at];
            Sum(FlatMap(db.saleLines, SaleRows(db)), Share(m, KeyOfInvoice(i), source)) ==
            if source == SALE then Sum(Filter(db.saleLines, LineOfInvoice(i)), SaleWeight(m)) else 0.0
  {
    var i := db.invoices[at];
    var share := Share(m, KeyOfInvoice(i), source);
    SumFlatMap(db.saleLines, SaleRows(db), share);
    forall l ensures SumOver(SaleRows(db), share)(l) ==
                     if source == SALE && LineOfInvoice(i)(l) then SaleWeight(m)(l) else 0.0 {
      SaleRowsOfOneLine(db, at, m, source, l);
    }
    if source == SALE {
      SumCongruent(db.saleLines, SumOver(SaleRows(db), share), When(LineOfInvoice(i), SaleWeight(m)));
      SumFilter(db.saleLines, LineOfInvoice(i), SaleWeight(m));
    } else {
      SumZero(db.saleLines, SumOver(SaleRows(db), share));
    }
  }

  lemma NoteRowsAreNotes(db: Database, at: nat, m: Measure)
    requires at < |db.invoices| && InvoiceIdsUnique(db)
    ensures Sum(FlatMap(db.noteLines, NoteRows(db)), Share(m, KeyOfInvoice(db.invoices[at]), SALE)) == 0.0
  {
    var share := Share(m, KeyOfInvoice(db.invoices[at]), SALE);
    SumFlatMap(db.noteLines, NoteRows(db), share);
    forall l | l in db.noteLines ensures SumOver(NoteRows(db), share)(l) == 0.0 {
      var notes := Filter(db.notes, LiveNoteOf(l));
      SumFlatMap(notes, NoteRowsWith(db, l), share);
      forall n | n in notes ensures SumOver(NoteRowsWith(db, l), share)(n) == 0.0 {
        var invoices := Filter(db.invoices, InvoiceOfNote(n));
        SumFlatMap(invoices, NoteRow(l, n), share);
        forall i | i in invoices ensures SumOver(NoteRow(l, n), share)(i) == 0.0 {
          SumOne(NoteRow(l, n)(i)[0], share);
        }
        SumZero(invoices, SumOver(NoteRow(l, n), share));
      }
      SumZero(notes, SumOver(NoteRowsWith(db, l), share));
    }
    SumZero(db.noteLines, SumOver(NoteRows(db), share));
  }

  /** What a sale line with its invoice should look like in the view. */
  ghost predicate IsSaleRow(db: Database, r: LineRow, l: SaleLine, i: Invoice) {
    && l in db.saleLines && i in db.invoices && i.id == l.invoice && i.company == l.company
    && r.company == l.company && r.invoice == l.invoice && r.product == l.product && r.source == SALE
    && r.ticketType == i.ticketType && r.isDeleted == i.isDeleted
    && r.soldAt == (if i.soldAt.Some? then i.soldAt.value else i.createdAt)
    && r.quantity == l.quantity && r.total == l.total && r.cost == l.unitCost * l.quantity
  }

  /** And a line of a live note with the invoice of the note: a debit note adds, a credit note subtracts. */
  ghost predicate IsNoteRow(db: Database, r: LineRow, l: NoteLine, n: Note, i: Invoice) {
    && l in db.noteLines && n in db.notes && i in db.invoices
    && l.note == n.id && l.company == n.company && !n.isDeleted && i.id == n.invoice && i.company == n.company
    && r.company == l.company && r.invoice == n.invoice && r.product == l.product && r.source == NOTE
    && r.ticketType == i.ticketType && r.isDeleted == i.isDeleted
    && r.soldAt == (if i.soldAt.Some? then i.soldAt.value else i.createdAt)
    && r.quantity == (if n.noteType == DEBIT then l.quantity else -l.quantity)
    && r.total == (if n.noteType == DEBIT then l.total else -l.total)
    && r.cost == (if n.noteType == DEBIT then l.unitCost * l.quantity else -(l.unitCost * l.quantity))
  }

  lemma SaleRowIff(db: Database, r: LineRow)
    ensures r in FlatMap(db.saleLines, SaleRows(db)) <==> exists l, i :: IsSaleRow(db, r, l, i)
  {
    FlatMapMembers(db.saleLines, SaleRows(db));
    if r in FlatMap(db.saleLines, SaleRows(db)) {
      var l :| l in db.saleLines && r in SaleRows(db)(l);
      FlatMapMembers(Filter(db.invoices, InvoiceOfLine(l)), SaleRow(l));
      FilterMembers(db.invoices, InvoiceOfLine(l));
      var i :| i in Filter(db.invoices, InvoiceOfLine(l)) && r in SaleRow(l)(i);
      assert IsSaleRow(db, r, l, i);
    }
    if l, i :| IsSaleRow(db, r, l, i) {
      FlatMapMembers(Filter(db.invoices, InvoiceOfLine(l)), SaleRow(l));
      FilterMembers(db.invoices, InvoiceOfLine(l));
      assert i in Filter(db.invoices, InvoiceOfLine(l)) && SaleRow(l)(i)[0] == r;
    }
  }

  lemma NoteRowFrom(db: Database, r: LineRow)
    requires r in FlatMap(db.noteLines, NoteRows(db))
    ensures exists l, n, i :: IsNoteRow(db, r, l, n, i)
  {
    FlatMapMembers(db.noteLines, NoteRows(db));
    var l :| l in db.noteLines && r in NoteRows(db)(l);
    FlatMapMembers(Filter(db.notes, LiveNoteOf(l)), NoteRowsWith(db, l));
    FilterMembers(db.notes, LiveNoteOf(l));
    var n :| n in Filter(db.notes, LiveNoteOf(l)) && r in NoteRowsWith(db, l)(n);
    NoteRowOfInvoice(db, r, l, n);
  }

  lemma NoteRowOfInvoice(db: Database, r: LineRow, l: NoteLine, n: Note)
    requires l in db.noteLines && n in db.notes && LiveNoteOf(l)(n) && r in NoteRowsWith(db, l)(n)
    ensures exists i :: IsNoteRow(db, r, l, n, i)
  {
    FlatMapMembers(Filter(db.invoices, InvoiceOfNote(n)), NoteRow(l, n));
    FilterMembers(db.invoices, InvoiceOfNote(n));
    var i :| i in Filter(db.invoices, InvoiceOfNote(n)) && r in NoteRow(l, n)(i);
    assert IsNoteRow(db, r, l, n, i);
  }

  lemma NoteRowIn(db: Database, r: LineRow, l: NoteLine, n: Note, i: Invoice)
    requires IsNoteRow(db, r, l, n, i)
    ensures r in FlatMap(db.noteLines, NoteRows(db))
  {
    FilterMembers(db.invoices, InvoiceOfNote(n));
    FlatMapMembers(Filter(db.invoices, InvoiceOfNote(n)), NoteRow(l, n));
    assert i in Filter(db.invoices, InvoiceOfNote(n)) && NoteRow(l, n)(i)[0] == r;
    assert r in NoteRowsWith(db, l)(n);
    FilterMembers(db.notes, LiveNoteOf(l));
    FlatMapMembers(Filter(db.notes, LiveNoteOf(l)), NoteRowsWith(db, l));
    FlatMapMembers(db.noteLines, NoteRows(db));
  }

  /** The rows of the line view, column by column: those and no others. */
  lemma LineInViewIff(db: Database, r: LineRow)
    ensures r in LinesConsolidated(db) <==>
            (exists l, i :: IsSaleRow(db, r, l, i)) || (exists l, n, i :: IsNoteRow(db, r, l, n, i))
  {
    SaleRowIff(db, r);
    if r in FlatMap(db.noteLines, NoteRows(db)) { NoteRowFrom(db, r); }
    if l, n, i :| IsNoteRow(db, r, l, n, i) { NoteRowIn(db, r, l, n, i); }
  }

  /** What the line view says of one invoice, by source, read straight off the tables, of all products or of one. */
  lemma LineShares(db: Database, at: nat, m: Measure)
    requires at < |db.invoices| && InvoiceIdsUnique(db)
    ensures var k := KeyOfInvoice(db.invoices[at]);
            && Sum(LinesConsolidated(db), Share(m, k, NOTE)) == Sum(Filter(db.notes, Adjusts(k)), LinesOf(db.noteLines, m))
            && Sum(LinesConsolidated(db), Share(m, k, SALE)) ==
               Sum(Filter(db.saleLines, LineOfInvoice(db.invoices[at])), SaleWeight(m))
  {
    var k := KeyOfInvoice(db.invoices[at]);
    SumConcat(FlatMap(db.saleLines, SaleRows(db)), FlatMap(db.noteLines, NoteRows(db)), Share(m, k, NOTE));
    SumConcat(FlatMap(db.saleLines, SaleRows(db)), FlatMap(db.noteLines, NoteRows(db)), Share(m, k, SALE));
    SaleRowsAddUp(db, at, m, NOTE);
    SaleRowsAddUp(db, at, m, SALE);
    NoteRowsAddUp(db, at, m);
    NoteRowsAreNotes(db, at, m);
  }

  /** For every invoice, the NOTE rows of the line view cost exactly what the header view adjusts the cost by. */
  lemma NoteCostsAgree(db: Database, at: nat)
    requires at < |db.invoices| && InvoiceIdsUnique(db)
    ensures at < |SalesConsolidated(db)|
    ensures Sum(LinesConsolidated(db), Share(Cost, KeyOfInvoice(db.invoices[at]), NOTE)) ==
            SalesConsolidated(db)[at].noteCostAdjustment
  {
    var notes := Filter(db.notes, Adjusts(KeyOfInvoice(db.invoices[at])));
    OneRowPerInvoice(db);
    LineShares(db, at, Cost);
    forall n | n in notes ensures LinesOf(db.noteLines, Cost)(n) == SignedCost(db.noteLines)(n) {
      SumCongruent(Filter(db.noteLines, OfNote(n)), Weight(Cost), LineCost);
    }
    SumCongruent(notes, LinesOf(db.noteLines, Cost), SignedCost(db.noteLines));
  }

  /** By how much a note's own total departs from the sum of its lines, with its sign. */
  function Drift(lines: seq<NoteLine>): Note -> real {
    (n: Note) => Signed(n, n.total - Sum(Filter(lines, OfNote(n)), Weight(Total)))
  }

  /** The totals of both views agree exactly when the drifts of the invoice's live notes cancel out. */
  lemma NoteTotalsAgreeIff(db: Database, at: nat)
    requires at < |db.invoices| && InvoiceIdsUnique(db)
    ensures at < |SalesConsolidated(db)|
    ensures Sum(LinesConsolidated(db), Share(Total, KeyOfInvoice(db.invoices[at]), NOTE)) ==
            SalesConsolidated(db)[at].noteAdjustment
            <==> Sum(Filter(db.notes, Adjusts(KeyOfInvoice(db.invoices[at]))), Drift(db.noteLines)) == 0.0
  {
    var notes := Filter(db.notes, Adjusts(KeyOfInvoice(db.invoices[at])));
    OneRowPerInvoice(db);
    LineShares(db, at, Total);
    DriftsSplit(notes, db.noteLines);
  }

  lemma DriftsSplit(notes: seq<Note>, lines: seq<NoteLine>)
    ensures Sum(notes, SignedTotal()) == Sum(notes, LinesOf(lines, Total)) + Sum(notes, Drift(lines))
  {
    SumAdd(notes, LinesOf(lines, Total), Drift(lines), SignedTotal());
  }

  /** The note's total is the sum of its lines. */
  ghost predicate AddsUp(lines: seq<NoteLine>, n: Note) {
    n.total == Sum(Filter(lines, OfNote(n)), Weight(Total))
  }

  lemma NoDrift(notes: seq<Note>, lines: seq<NoteLine>)
    requires forall n :: n in notes ==> AddsUp(lines, n)
    ensures Sum(notes, Drift(lines)) == 0.0
  {
    SumZero(notes, Drift(lines));
  }

  /** In particular when each live note of the invoice is the sum of its lines. */
  lemma NoteTotalsAgree(db: Database, at: nat)
    requires at < |db.invoices| && InvoiceIdsUnique(db)
    requires forall n :: n in Filter(db.notes, Adjusts(KeyOfInvoice(db.invoices[at]))) ==> AddsUp(db.noteLines, n)
    ensures at < |SalesConsolidated(db)|
    ensures Sum(LinesConsolidated(db), Share(Total, KeyOfInvoice(db.invoices[at]), NOTE)) ==
            SalesConsolidated(db)[at].noteAdjustment
  {
    NoteTotalsAgreeIff(db, at);
    NoDrift(Filter(db.notes, Adjusts(KeyOfInvoice(db.invoices[at]))), db.noteLines);
  }

  /** All lines of an invoice together cost what the header view says exactly when its own cost is that of its own lines. */
  lemma FullCostsAgreeIff(db: Database, at: nat)
    requires at < |db.invoices| && InvoiceIdsUnique(db)
    ensures at < |SalesConsolidated(db)|
    ensures var i := db.invoices[at];
            Sum(LinesConsolidated(db), Share(Cost, KeyOfInvoice(i), SALE)) +
            Sum(LinesConsolidated(db), Share(Cost, KeyOfInvoice(i), NOTE)) == SalesConsolidated(db)[at].cost
            <==> i.cost == Sum(Filter(db.saleLines, LineOfInvoice(i)), SaleWeight(Cost))
  {
    OneRowPerInvoice(db);
    NoteCostsAgree(db, at);
    LineShares(db, at, Cost);
  }

  // ------------------------------------------------------------------------
  // Notes come and go
  // ------------------------------------------------------------------------

  function AddNote(db: Database, n: Note): Database {
    db.(notes := db.notes + [n])
  }

  function VoidNote(db: Database, at: nat): Database
    requires at < |db.notes|
  {
    db.(notes := db.notes[at := db.notes[at].(isDeleted := true)])
  }

  /** The row of a sale once the live note `n`, whose lines cost `cost`, is one of its notes. */
  ghost predicate NoteApplied(before: Sale, after: Sale, n: Note, cost: real) {
    var sign := if n.noteType == DEBIT then 1.0 else -1.0;
    && after.noteAdjustment == before.noteAdjustment + sign * n.total
    && after.noteCostAdjustment == before.noteCostAdjustment + sign * cost
    && after.total == before.total + sign * n.total
    && after.cost == before.cost + sign * cost
    && after.profit == before.profit + sign * (n.total - cost)
    && after.notes == before.notes + 1.0
    && after.credits == before.credits + (if n.noteType == CREDIT then 1.0 else 0.0)
    && after.debits == before.debits + (if n.noteType == DEBIT then 1.0 else 0.0)
    && (after.hasFullVoid <==> before.hasFullVoid || n.operation == FULL_VOID)
    && after.(noteAdjustment := before.noteAdjustment, noteCostAdjustment := before.noteCostAdjustment, total := before.total,
              cost := before.cost, profit := before.profit, notes := before.notes, credits := before.credits,
              debits := before.debits, hasFullVoid := before.hasFullVoid) == before
  }

  lemma AddedOfType(notes: seq<Note>, n: Note, t: NoteType)
    ensures Sum(Filter(notes + [n], OfType(t)), One()) == Sum(Filter(notes, OfType(t)), One()) + (if n.noteType == t then 1.0 else 0.0)
  {
    FilterConcat(notes, [n], OfType(t));
    FilterOne(n, OfType(t));
    if n.noteType == t {
      SumConcat(Filter(notes, OfType(t)), [n], One());
      SumOne(n, One());
    } else {
      assert Filter(notes, OfType(t)) + [] == Filter(notes, OfType(t));
    }
  }

  lemma AddedNoteExpected(db: Database, n: Note, i: Invoice)
    requires !n.isDeleted
    ensures KeyOfNote(n) != KeyOfInvoice(i) ==> Expected(AddNote(db, n), i) == Expected(db, i)
    ensures KeyOfNote(n) == KeyOfInvoice(i) ==> NoteApplied(Expected(db, i), Expected(AddNote(db, n), i), n, NoteCost(db.noteLines, n))
  {
    var adjusts := Adjusts(KeyOfInvoice(i));
    FilterConcat(db.notes, [n], adjusts);
    FilterOne(n, adjusts);
    var kept := Filter(db.notes, adjusts);
    if KeyOfNote(n) == KeyOfInvoice(i) {
      SumConcat(kept, [n], SignedTotal());
      SumConcat(kept, [n], SignedCost(db.noteLines));
      SumConcat(kept, [n], One());
      SumOne(n, SignedTotal());
      SumOne(n, SignedCost(db.noteLines));
      SumOne(n, One());
      AddedOfType(kept, n, CREDIT);
      AddedOfType(kept, n, DEBIT);
    } else {
      assert kept + [] == kept;
    }
  }

  /** A note without lines costs nothing, and each line of its own adds its unit cost times its quantity. */
  lemma NoteCostGrows(lines: seq<NoteLine>, l: NoteLine, n: Note)
    ensures NoteCost([], n) == 0.0
    ensures NoteCost(lines + [l], n) == NoteCost(lines, n) + (if l.note == n.id && l.company == n.company then l.unitCost * l.quantity else 0.0)
  {
    FilterConcat(lines, [l], OfNote(n));
    FilterOne(l, OfNote(n));
    if OfNote(n)(l) {
      SumConcat(Filter(lines, OfNote(n)), [l], LineCost);
      SumOne(l, LineCost);
    } else {
      assert Filter(lines, OfNote(n)) + [] == Filter(lines, OfNote(n));
    }
  }

  /** Without live notes the row of an invoice says what the invoice says. */
  lemma SaleWithoutNotes(db: Database, at: nat)
    requires at < |db.invoices|
    requires forall n :: n in db.notes ==> n.isDeleted || n.company != db.invoices[at].company || n.invoice != db.invoices[at].id
    ensures |SalesConsolidated(db)| == |db.invoices|
    ensures var i := db.invoices[at];
            SalesConsolidated(db)[at] ==
            Sale(i.id, i.company, i.ticketType, i.isDeleted, if i.soldAt.Some? then i.soldAt.value else i.createdAt,
                 i.total, i.cost, 0.0, 0.0, i.total, i.cost, i.total - i.cost, 0.0, 0.0, 0.0, false)
  {
    OneRowPerInvoice(db);
    FilterNone(db.notes, Adjusts(KeyOfInvoice(db.invoices[at])));
  }

  /** A live note changes the row of its own invoice, column by column as its type says, and no other row. */
  lemma AddedNoteAdjustsItsSale(db: Database, n: Note, at: nat)
    requires !n.isDeleted && at < |db.invoices|
    ensures |SalesConsolidated(AddNote(db, n))| == |SalesConsolidated(db)| == |db.invoices|
    ensures var i, before, after := db.invoices[at], SalesConsolidated(db)[at], SalesConsolidated(AddNote(db, n))[at];
            if n.company == i.company && n.invoice == i.id then NoteApplied(before, after, n, NoteCost(db.noteLines, n)) else after == before
  {
    OneRowPerInvoice(db);
    OneRowPerInvoice(AddNote(db, n));
    AddedNoteExpected(db, n, db.invoices[at]);
  }

  /** A voided note adjusts nothing: the view is what it would be without the note. */
  lemma VoidedNoteIsGone(db: Database, at: nat)
    requires at < |db.notes|
    ensures SalesConsolidated(VoidNote(db, at)) == SalesConsolidated(db.(notes := db.notes[..at] + db.notes[at + 1..]))
  {
    var without := db.(notes := db.notes[..at] + db.notes[at + 1..]);
    var voided := VoidNote(db, at);
    var v := voided.notes[at];
    forall i ensures Expected(voided, i) == Expected(without, i) {
      var adjusts := Adjusts(KeyOfInvoice(i));
      assert voided.notes == db.notes[..at] + ([v] + db.notes[at + 1..]);
      FilterConcat(db.notes[..at], [v] + db.notes[at + 1..], adjusts);
      FilterConcat([v], db.notes[at + 1..], adjusts);
      FilterOne(v, adjusts);
      FilterConcat(db.notes[..at], db.notes[at + 1..], adjusts);
      assert [] + Filter(db.notes[at + 1..], adjusts) == Filter(db.notes[at + 1..], adjusts);
    }
    OneRowPerInvoice(voided);
    OneRowPerInvoice(without);
  }

  /** Adding a note and voiding it leaves the view as it was. */
  lemma AddThenVoid(db: Database, n: Note)
    ensures SalesConsolidated(VoidNote(AddNote(db, n), |db.notes|)) == SalesConsolidated(db)
  {
    VoidedNoteIsGone(AddNote(db, n), |db.notes|);
    assert AddNote(db, n).notes[..|db.notes|] + AddNote(db, n).notes[|db.notes| + 1..] == db.notes;
  }

  // ------------------------------------------------------------------------
  // Sums over chosen sales
  // ------------------------------------------------------------------------

  function Kept(keep: SaleKey -> bool): Sale -> bool {
    (s: Sale) => keep(SaleKey(s.company, s.id))
  }

  function KeptInvoice(keep: SaleKey -> bool): Invoice -> bool {
    i => keep(KeyOfInvoice(i))
  }

  /** A figure of a consolidated sale: its total, cost or profit. */
  datatype Figure = TotalFigure | CostFigure | ProfitFigure

  function Pick(f: Figure, total: real, cost: real): real {
    match f
    case TotalFigure => total
    case CostFigure => cost
    case ProfitFigure => total - cost
  }

  /** What the view says of a sale. */
  function SaleFigure(f: Figure): Sale -> real {
    (s: Sale) =>
      match f
      case TotalFigure => s.total
      case CostFigure => s.cost
      case ProfitFigure => s.profit
  }

  /** What its invoice says. */
  function InvoiceFigure(f: Figure): Invoice -> real {
    (i: Invoice) => Pick(f, i.total, i.cost)
  }

  /** What a note adds, with its sign, the cost being that of its lines. */
  function NoteFigure(f: Figure, lines: seq<NoteLine>): Note -> real {
    (n: Note) => Signed(n, Pick(f, n.total, NoteCost(lines, n)))
  }

  /** A live note of an existing, chosen invoice. */
  function KeptNote(db: Database, keep: SaleKey -> bool): Note -> bool {
    (n: Note) => !n.isDeleted && keep(KeyOfNote(n)) && exists i | i in db.invoices :: KeyOfInvoice(i) == KeyOfNote(n)
  }

  /** What a note adds to a chosen invoice. */
  function Effect(keep: SaleKey -> bool, figure: Note -> real): (Invoice, Note) -> real {
    (i: Invoice, n: Note) => if keep(KeyOfInvoice(i)) && Adjusts(KeyOfInvoice(i))(n) then figure(n) else 0.0
  }

  /** The figure of a sale is its invoice's and that of its live notes. */
  lemma FigureOfSale(db: Database, f: Figure, i: Invoice)
    ensures SaleFigure(f)(Expected(db, i)) ==
            InvoiceFigure(f)(i) + Sum(Filter(db.notes, Adjusts(KeyOfInvoice(i))), NoteFigure(f, db.noteLines))
  {
    var notes := Filter(db.notes, Adjusts(KeyOfInvoice(i)));
    match f
    case TotalFigure => SumCongruent(notes, SignedTotal(), NoteFigure(f, db.noteLines));
    case CostFigure => SumCongruent(notes, SignedCost(db.noteLines), NoteFigure(f, db.noteLines));
    case ProfitFigure => SumAdd(notes, NoteFigure(f, db.noteLines), SignedCost(db.noteLines), SignedTotal());
  }

  lemma KeptRowFigure(db: Database, keep: SaleKey -> bool, f: Figure, i: Invoice)
    ensures SumOver(LeftJoinWith(NoteAdjustments(db)), When(Kept(keep), SaleFigure(f)))(i) ==
            When(KeptInvoice(keep), InvoiceFigure(f))(i) + RowSum(db.notes, Effect(keep, NoteFigure(f, db.noteLines)))(i)
  {
    var k, figure := KeyOfInvoice(i), NoteFigure(f, db.noteLines);
    LeftJoinIsExpected(db, i);
    SumOne(Expected(db, i), When(Kept(keep), SaleFigure(f)));
    FigureOfSale(db, f, i);
    var row := Row(Effect(keep, figure), i);
    if keep(k) {
      SumFilter(db.notes, Adjusts(k), figure);
      SumCongruent(db.notes, When(Adjusts(k), figure), row);
    } else {
      SumZero(db.notes, row);
    }
  }

  lemma KeptNoteEffect(db: Database, keep: SaleKey -> bool, figure: Note -> real, n: Note)
    requires InvoiceIdsUnique(db)
    ensures RowSum(db.invoices, Flip(Effect(keep, figure)))(n) == When(KeptNote(db, keep), figure)(n)
  {
    var column := Row(Flip(Effect(keep, figure)), n);
    forall i: Invoice
      ensures column(i) == if keep(KeyOfInvoice(i)) && !n.isDeleted && KeyOfNote(n) == KeyOfInvoice(i) then figure(n) else 0.0
    {
      assert column(i) == Effect(keep, figure)(i, n);
      assert Adjusts(KeyOfInvoice(i))(n) <==> !n.isDeleted && KeyOfNote(n) == KeyOfInvoice(i);
    }
    if i :| i in db.invoices && KeyOfInvoice(i) == KeyOfNote(n) {
      var at :| 0 <= at < |db.invoices| && db.invoices[at] == i;
      SumOnly(db.invoices, at, column);
    } else {
      SumZero(db.invoices, column);
    }
  }

  /**
   The total, the cost and the profit of any choice of sales are those of their invoices plus
   those of the live notes of those invoices: no note of an excluded sale is counted, none is
   counted twice, and none changes the total without changing the cost.
   */
  lemma ChosenSalesFigure(db: Database, keep: SaleKey -> bool, f: Figure)
    requires InvoiceIdsUnique(db)
    ensures Sum(Filter(SalesConsolidated(db), Kept(keep)), SaleFigure(f)) ==
            Sum(Filter(db.invoices, KeptInvoice(keep)), InvoiceFigure(f)) +
            Sum(Filter(db.notes, KeptNote(db, keep)), NoteFigure(f, db.noteLines))
  {
    var figure := NoteFigure(f, db.noteLines);
    var effect := Effect(keep, figure);
    var own, effects := When(KeptInvoice(keep), InvoiceFigure(f)), RowSum(db.notes, effect);
    var rows := SumOver(LeftJoinWith(NoteAdjustments(db)), When(Kept(keep), SaleFigure(f)));
    SumFilter(SalesConsolidated(db), Kept(keep), SaleFigure(f));
    SumFlatMap(db.invoices, LeftJoinWith(NoteAdjustments(db)), When(Kept(keep), SaleFigure(f)));
    forall i | i in db.invoices ensures rows(i) == own(i) + effects(i) {
      KeptRowFigure(db, keep, f, i);
    }
    SumAdd(db.invoices, own, effects, rows);
    SumFilter(db.invoices, KeptInvoice(keep), InvoiceFigure(f));
    SumSwap(db.invoices, db.notes, effect);
    forall n | n in db.notes ensures RowSum(db.invoices, Flip(effect))(n) == When(KeptNote(db, keep), figure)(n) {
      KeptNoteEffect(db, keep, figure, n);
    }
    SumCongruent(db.notes, RowSum(db.invoices, Flip(effect)), When(KeptNote(db, keep), figure));
    SumFilter(db.notes, KeptNote(db, keep), figure);
  }

  // ------------------------------------------------------------------------
  // The query the views replace
  // ------------------------------------------------------------------------

  function NoteOnLine(n: Note): NoteLine -> seq<Note> {
    l => [n]
  }

  function NotePerLine(lines: seq<NoteLine>): Note -> seq<Note> {
    n => FlatMap(Filter(lines, OfNote(n)), NoteOnLine(n))
  }

  /** Joining the lines before adding up the note totals. */
  function TotalByLines(db: Database, k: SaleKey): real {
    Sum(FlatMap(Filter(db.notes, Adjusts(k)), NotePerLine(db.noteLines)), SignedTotal())
  }

  function TotalTimesLines(lines: seq<NoteLine>): Note -> real {
    n => |Filter(lines, OfNote(n))| as real * Signed(n, n.total)
  }

  /** It counts each note once per line. */
  lemma JoinedLinesMultiply(db: Database, k: SaleKey)
    ensures TotalByLines(db, k) == Sum(Filter(db.notes, Adjusts(k)), TotalTimesLines(db.noteLines))
  {
    var notes := Filter(db.notes, Adjusts(k));
    SumFlatMap(notes, NotePerLine(db.noteLines), SignedTotal());
    forall n | n in notes
      ensures SumOver(NotePerLine(db.noteLines), SignedTotal())(n) == TotalTimesLines(db.noteLines)(n)
    {
      OneNoteByLines(db.noteLines, n);
    }
    SumCongruent(notes, SumOver(NotePerLine(db.noteLines), SignedTotal()), TotalTimesLines(db.noteLines));
  }

  lemma OneNoteByLines(lines: seq<NoteLine>, n: Note)
    ensures SumOver(NotePerLine(lines), SignedTotal())(n) == TotalTimesLines(lines)(n)
  {
    OneNoteManyLines(Filter(lines, OfNote(n)), n);
  }

  lemma {:induction false} OneNoteManyLines(lines: seq<NoteLine>, n: Note)
    ensures Sum(FlatMap(lines, NoteOnLine(n)), SignedTotal()) == |lines| as real * Signed(n, n.total)
  {
    if lines != [] {
      OneNoteManyLines(lines[1..], n);
      SumConcat([n], FlatMap(lines[1..], NoteOnLine(n)), SignedTotal());
      SumOne(n, SignedTotal());
    }
  }

  // ------------------------------------------------------------------------
  // View 4: payments by method
  // ------------------------------------------------------------------------

  datatype PayKey = PayKey(company: nat, invoice: nat, via: nat)

  datatype Joined = Joined(key: PayKey, amount: real, invoiceTotal: real)

  datatype PaymentRow = PaymentRow(key: PayKey, paid: real, paidRaw: real, payments: nat)

  function IsUnvoided(): Payment -> bool {
    (p: Payment) => !p.isVoided
  }

  function InvoiceOfPayment(p: Payment): Invoice -> bool {
    (i: Invoice) => i.id == p.invoice && i.company == p.company
  }

  function JoinRow(p: Payment): Invoice -> seq<Joined> {
    (i: Invoice) => [Joined(PayKey(p.company, p.invoice, p.via), p.amount, i.total)]
  }

  function JoinInvoice(db: Database): Payment -> seq<Joined> {
    p => FlatMap(Filter(db.invoices, InvoiceOfPayment(p)), JoinRow(p))
  }

  function JoinedPayments(db: Database): seq<Joined> {
    FlatMap(Filter(db.payments, IsUnvoided()), JoinInvoice(db))
  }

  function JoinedKey(): Joined -> PayKey {
    (j: Joined) => j.key
  }

  function InPayGroup(k: PayKey): Joined -> bool {
    (j: Joined) => j.key == k
  }

  function JoinedAmount(): Joined -> real {
    (j: Joined) => j.amount
  }

  function Least(a: real, b: real): real {
    if a <= b then a else b
  }

  function MaxTotal(group: seq<Joined>): real
    requires group != []
  {
    if |group| == 1 then group[0].invoiceTotal
    else
      var rest := MaxTotal(group[1..]);
      if rest <= group[0].invoiceTotal then group[0].invoiceTotal else rest
  }

  function PayAggregate(joined: seq<Joined>): PayKey -> seq<PaymentRow> {
    k =>
      var group := Filter(joined, InPayGroup(k));
      if group == [] then []
      else [PaymentRow(k, Least(Sum(group, JoinedAmount()), MaxTotal(group)), Sum(group, JoinedAmount()), |group|)]
  }

  function PaymentsConsolidated(db: Database): seq<PaymentRow> {
    FlatMap(Keys(JoinedPayments(db), JoinedKey()), PayAggregate(JoinedPayments(db)))
  }

  /** A live payment of the invoice by that method. */
  function Pays(i: Invoice, via: nat): Payment -> bool {
    (p: Payment) => !p.isVoided && p.invoice == i.id && p.company == i.company && p.via == via
  }

  function PaymentAmount(): Payment -> real {
    (p: Payment) => p.amount
  }

  function PaidRaw(payments: seq<Payment>, i: Invoice, via: nat): real {
    Sum(Filter(payments, Pays(i, via)), PaymentAmount())
  }

  /** What was collected by one method, never more than the invoice. */
  function Paid(payments: seq<Payment>, i: Invoice, via: nat): real {
    Least(PaidRaw(payments, i, via), i.total)
  }

  function PayKeyOf(i: Invoice, via: nat): PayKey {
    PayKey(i.company, i.id, via)
  }

  /** `f` reads off a joined row what `g` reads off its payment. */
  ghost predicate SameFigure(f: Joined -> real, g: Payment -> real) {
    forall p: Payment, total: real :: f(Joined(PayKey(p.company, p.invoice, p.via), p.amount, total)) == g(p)
  }

  lemma JoinedFigureOfOne(db: Database, at: nat, via: nat, p: Payment, f: Joined -> real, g: Payment -> real)
    requires at < |db.invoices| && InvoiceIdsUnique(db) && !p.isVoided && SameFigure(f, g)
    ensures var i := db.invoices[at];
            Sum(JoinInvoice(db)(p), When(InPayGroup(PayKeyOf(i, via)), f)) == When(Pays(i, via), g)(p)
  {
    var i := db.invoices[at];
    var figure := When(InPayGroup(PayKeyOf(i, via)), f);
    SumFlatMap(Filter(db.invoices, InvoiceOfPayment(p)), JoinRow(p), figure);
    SumFilter(db.invoices, InvoiceOfPayment(p), SumOver(JoinRow(p), figure));
    var cell := When(InvoiceOfPayment(p), SumOver(JoinRow(p), figure));
    forall x: Invoice ensures cell(x) == if InvoiceOfPayment(p)(x) then figure(JoinRow(p)(x)[0]) else 0.0 {
      SumOne(JoinRow(p)(x)[0], figure);
    }
    SumOnly(db.invoices, at, cell);
  }

  lemma GroupFigure(db: Database, at: nat, via: nat, f: Joined -> real, g: Payment -> real)
    requires at < |db.invoices| && InvoiceIdsUnique(db) && SameFigure(f, g)
    ensures Sum(Filter(JoinedPayments(db), InPayGroup(PayKeyOf(db.invoices[at], via))), f) ==
            Sum(Filter(db.payments, Pays(db.invoices[at], via)), g)
  {
    var i := db.invoices[at];
    var live := Filter(db.payments, IsUnvoided());
    var figure := When(InPayGroup(PayKeyOf(i, via)), f);
    SumFilter(JoinedPayments(db), InPayGroup(PayKeyOf(i, via)), f);
    SumFlatMap(live, JoinInvoice(db), figure);
    FilterMembers(db.payments, IsUnvoided());
    forall p | p in live ensures SumOver(JoinInvoice(db), figure)(p) == When(Pays(i, via), g)(p) {
      JoinedFigureOfOne(db, at, via, p, f, g);
    }
    SumCongruent(live, SumOver(JoinInvoice(db), figure), When(Pays(i, via), g));
    SumFilter(db.payments, IsUnvoided(), When(Pays(i, via), g));
    SumFilter(db.payments, Pays(i, via), g);
    SumCongruent(db.payments, When(IsUnvoided(), When(Pays(i, via), g)), When(Pays(i, via), g));
  }

  function Each<T>(): T -> real {
    x => 1.0
  }

  lemma {:induction false} CountIsSum<T>(s: seq<T>)
    ensures Sum(s, Each()) == |s| as real
  {
    if s != [] { CountIsSum(s[1..]); }
  }

  /** A joined row comes from a live payment and the invoice it pays. */
  lemma JoinedComesFrom(db: Database, j: Joined) returns (p: Payment, i: Invoice)
    requires j in JoinedPayments(db)
    ensures p in db.payments && !p.isVoided && i in db.invoices && InvoiceOfPayment(p)(i)
    ensures j == Joined(PayKey(p.company, p.invoice, p.via), p.amount, i.total)
  {
    FlatMapMembers(Filter(db.payments, IsUnvoided()), JoinInvoice(db));
    FilterMembers(db.payments, IsUnvoided());
    p :| p in Filter(db.payments, IsUnvoided()) && j in JoinInvoice(db)(p);
    FlatMapMembers(Filter(db.invoices, InvoiceOfPayment(p)), JoinRow(p));
    FilterMembers(db.invoices, InvoiceOfPayment(p));
    i :| i in Filter(db.invoices, InvoiceOfPayment(p)) && j in JoinRow(p)(i);
  }

  /** Every joined row of the group carries the total of the one invoice. */
  lemma GroupTotals(db: Database, at: nat, via: nat, j: Joined)
    requires at < |db.invoices| && InvoiceIdsUnique(db)
    requires j in Filter(JoinedPayments(db), InPayGroup(PayKeyOf(db.invoices[at], via)))
    ensures j.invoiceTotal == db.invoices[at].total
    ensures exists p :: p in db.payments && Pays(db.invoices[at], via)(p)
  {
    FilterMembers(JoinedPayments(db), InPayGroup(PayKeyOf(db.invoices[at], via)));
    var p, i := JoinedComesFrom(db, j);
    assert i.id == db.invoices[at].id;
    assert Pays(db.invoices[at], via)(p);
  }

  lemma PaymentIsJoined(db: Database, at: nat, via: nat, p: Payment)
    requires at < |db.invoices| && p in db.payments && Pays(db.invoices[at], via)(p)
    ensures exists j :: j in JoinedPayments(db) && j.key == PayKeyOf(db.invoices[at], via)
  {
    var i := db.invoices[at];
    var j := JoinRow(p)(i)[0];
    FilterMembers(db.payments, IsUnvoided());
    FilterMembers(db.invoices, InvoiceOfPayment(p));
    FlatMapMembers(Filter(db.invoices, InvoiceOfPayment(p)), JoinRow(p));
    assert i in Filter(db.invoices, InvoiceOfPayment(p)) && j in JoinRow(p)(i);
    FlatMapMembers(Filter(db.payments, IsUnvoided()), JoinInvoice(db));
    assert p in Filter(db.payments, IsUnvoided()) && j in JoinInvoice(db)(p);
  }

  lemma {:induction false} MaxOfEqual(group: seq<Joined>, t: real)
    requires group != [] && forall j :: j in group ==> j.invoiceTotal == t
    ensures MaxTotal(group) == t
  {
    if |group| > 1 {
      MaxOfEqual(group[1..], t);
    }
  }

  lemma PaymentRowExists(db: Database, at: nat, via: nat, p: Payment)
    requires at < |db.invoices| && p in db.payments && Pays(db.invoices[at], via)(p)
    ensures exists r :: r in PaymentsConsolidated(db) && r.key == PayKeyOf(db.invoices[at], via)
  {
    var k, joined := PayKeyOf(db.invoices[at], via), JoinedPayments(db);
    PaymentIsJoined(db, at, via, p);
    var j :| j in joined && j.key == k;
    KeysAreDistinct(joined, JoinedKey());
    assert JoinedKey()(j) == k;
    FilterMembers(joined, InPayGroup(k));
    assert j in Filter(joined, InPayGroup(k));
    FlatMapMembers(Keys(joined, JoinedKey()), PayAggregate(joined));
    assert PayAggregate(joined)(k)[0] in PayAggregate(joined)(k);
  }

  lemma PaymentRowFigures(db: Database, at: nat, via: nat, r: PaymentRow)
    requires at < |db.invoices| && InvoiceIdsUnique(db)
    requires r in PaymentsConsolidated(db) && r.key == PayKeyOf(db.invoices[at], via)
    ensures r.paid == Paid(db.payments, db.invoices[at], via) && r.paidRaw == PaidRaw(db.payments, db.invoices[at], via)
    ensures r.payments == |Filter(db.payments, Pays(db.invoices[at], via))|
    ensures exists p :: p in db.payments && Pays(db.invoices[at], via)(p)
  {
    var i, joined := db.invoices[at], JoinedPayments(db);
    var group := Filter(joined, InPayGroup(r.key));
    FlatMapMembers(Keys(joined, JoinedKey()), PayAggregate(joined));
    assert group != [] && r in PayAggregate(joined)(r.key);
    forall j | j in group ensures j.invoiceTotal == i.total {
      GroupTotals(db, at, via, j);
    }
    GroupTotals(db, at, via, group[0]);
    MaxOfEqual(group, i.total);
    GroupFigure(db, at, via, JoinedAmount(), PaymentAmount());
    GroupFigure(db, at, via, Each(), Each());
    CountIsSum(group);
    CountIsSum(Filter(db.payments, Pays(i, via)));
  }

  /**
   The payment view has a row for an invoice and a method exactly when a live payment
   joins them, and the row counts them and says the least of their sum and the invoice total.
   */
  lemma PaymentRowIff(db: Database, at: nat, via: nat)
    requires at < |db.invoices| && InvoiceIdsUnique(db)
    ensures (exists r :: r in PaymentsConsolidated(db) && r.key == PayKeyOf(db.invoices[at], via)) <==>
            (exists p :: p in db.payments && Pays(db.invoices[at], via)(p))
    ensures forall r :: r in PaymentsConsolidated(db) && r.key == PayKeyOf(db.invoices[at], via) ==>
              && r.paid == Paid(db.payments, db.invoices[at], via)
              && r.paidRaw == PaidRaw(db.payments, db.invoices[at], via)
              && r.payments == |Filter(db.payments, Pays(db.invoices[at], via))|
  {
    forall r | r in PaymentsConsolidated(db) && r.key == PayKeyOf(db.invoices[at], via)
      ensures r.paid == Paid(db.payments, db.invoices[at], via) && r.paidRaw == PaidRaw(db.payments, db.invoices[at], via)
      ensures r.payments == |Filter(db.payments, Pays(db.invoices[at], via))|
      ensures exists p :: p in db.payments && Pays(db.invoices[at], via)(p)
    {
      PaymentRowFigures(db, at, via, r);
    }
    if p :| p in db.payments && Pays(db.invoices[at], via)(p) {
      PaymentRowExists(db, at, via, p);
    }
  }

  /** In every database the payment view has at most one row for an invoice and a method. */
  lemma OneRowPerMethod(db: Database)
    ensures var rows := PaymentsConsolidated(db); forall a, b :: 0 <= a < b < |rows| ==> rows[a].key != rows[b].key
  {
    var joined := JoinedPayments(db);
    var keys := Keys(joined, JoinedKey());
    KeysAreDistinct(joined, JoinedKey());
    forall k | k in keys
      ensures PayAggregate(joined)(k) == [PayRowOf(joined)(k)] && PayRowOf(joined)(k).key == k
    {
      var j :| j in joined && JoinedKey()(j) == k;
      FilterMembers(joined, InPayGroup(k));
      assert j in Filter(joined, InPayGroup(k));
    }
    FlatMapSingles(keys, PayAggregate(joined), PayRowOf(joined));
  }

  function PayRowOf(joined: seq<Joined>): PayKey -> PaymentRow {
    k => if PayAggregate(joined)(k) == [] then PaymentRow(k, 0.0, 0.0, 0) else PayAggregate(joined)(k)[0]
  }

  /** What the view should say of an invoice and a method, read straight off the payments. */
  function ExpectedRow(payments: seq<Payment>, i: Invoice, via: nat): PaymentRow {
    PaymentRow(PayKeyOf(i, via), Paid(payments, i, via), PaidRaw(payments, i, via), |Filter(payments, Pays(i, via))|)
  }

  /** It says just that, and nothing when no live payment is left. */
  lemma RowInViewIff(db: Database, at: nat, via: nat, r: PaymentRow)
    requires at < |db.invoices| && InvoiceIdsUnique(db) && r.key == PayKeyOf(db.invoices[at], via)
    ensures r in PaymentsConsolidated(db) <==>
            Filter(db.payments, Pays(db.invoices[at], via)) != [] && r == ExpectedRow(db.payments, db.invoices[at], via)
  {
    var i := db.invoices[at];
    PaymentRowIff(db, at, via);
    FilterMembers(db.payments, Pays(i, via));
    if Filter(db.payments, Pays(i, via)) != [] {
      assert Filter(db.payments, Pays(i, via))[0] in db.payments;
      var row :| row in PaymentsConsolidated(db) && row.key == PayKeyOf(i, via);
      assert row == ExpectedRow(db.payments, i, via);
    }
  }

  lemma FigureIgnoresOrder(a: seq<Payment>, b: seq<Payment>, i: Invoice, via: nat, f: Payment -> real)
    requires multiset(a) == multiset(b)
    ensures Sum(Filter(a, Pays(i, via)), f) == Sum(Filter(b, Pays(i, via)), f)
  {
    SumFilter(a, Pays(i, via), f);
    SumFilter(b, Pays(i, via), f);
    SumPermute(a, b, When(Pays(i, via), f));
  }

  /** The order of the payments changes no row of the view. */
  lemma PaidIgnoresOrder(db: Database, payments: seq<Payment>, at: nat, via: nat, r: PaymentRow)
    requires at < |db.invoices| && InvoiceIdsUnique(db) && r.key == PayKeyOf(db.invoices[at], via)
    requires multiset(payments) == multiset(db.payments)
    ensures r in PaymentsConsolidated(db) <==> r in PaymentsConsolidated(db.(payments := payments))
  {
    var i := db.invoices[at];
    RowInViewIff(db, at, via, r);
    RowInViewIff(db.(payments := payments), at, via, r);
    FigureIgnoresOrder(payments, db.payments, i, via, PaymentAmount());
    FigureIgnoresOrder(payments, db.payments, i, via, Each());
    CountIsSum(Filter(payments, Pays(i, via)));
    CountIsSum(Filter(db.payments, Pays(i, via)));
  }

  lemma FigureAround(before: seq<Payment>, some: seq<Payment>, after: seq<Payment>, pays: Payment -> bool, f: Payment -> real)
    ensures Sum(Filter(before + some + after, pays), f) ==
            Sum(Filter(before, pays), f) + Sum(some, When(pays, f)) + Sum(Filter(after, pays), f)
  {
    FilterConcat(before + some, after, pays);
    FilterConcat(before, some, pays);
    SumConcat(Filter(before, pays) + Filter(some, pays), Filter(after, pays), f);
    SumConcat(Filter(before, pays), Filter(some, pays), f);
    SumFilter(some, pays, f);
  }

  /** Replacing the payment `x` by others changes each figure by the difference. */
  lemma FigureReplaced(payments: seq<Payment>, x: nat, some: seq<Payment>, pays: Payment -> bool, f: Payment -> real)
    requires x < |payments|
    ensures Sum(Filter(payments[..x] + some + payments[x + 1..], pays), f) ==
            Sum(Filter(payments, pays), f) - When(pays, f)(payments[x]) + Sum(some, When(pays, f))
  {
    assert payments == payments[..x] + [payments[x]] + payments[x + 1..];
    FigureAround(payments[..x], some, payments[x + 1..], pays, f);
    FigureAround(payments[..x], [payments[x]], payments[x + 1..], pays, f);
    SumOne(payments[x], When(pays, f));
  }

  lemma SumTwo(a: Payment, b: Payment, f: Payment -> real)
    ensures Sum([a, b], f) == f(a) + f(b)
  {
    assert [a, b] == [a] + [b];
    SumConcat([a], [b], f);
    SumOne(a, f);
    SumOne(b, f);
  }

  function Split(payments: seq<Payment>, x: nat, part: real): seq<Payment>
    requires x < |payments|
  {
    var p := payments[x];
    payments[..x] + [p.(amount := part), p.(amount := p.amount - part)] + payments[x + 1..]
  }

  lemma TwoForOne(payments: seq<Payment>, x: nat, a: Payment, b: Payment, pays: Payment -> bool, f: Payment -> real)
    requires x < |payments|
    ensures Sum(Filter(payments[..x] + [a, b] + payments[x + 1..], pays), f) ==
            Sum(Filter(payments, pays), f) - When(pays, f)(payments[x]) + When(pays, f)(a) + When(pays, f)(b)
  {
    var two := [a, b];
    FigureReplaced(payments, x, two, pays, f);
    SumTwo(a, b, When(pays, f));
  }

  lemma SplitAmount(payments: seq<Payment>, x: nat, part: real, i: Invoice, via: nat)
    requires x < |payments|
    ensures PaidRaw(Split(payments, x, part), i, via) == PaidRaw(payments, i, via)
  {
    var p := payments[x];
    TwoForOne(payments, x, p.(amount := part), p.(amount := p.amount - part), Pays(i, via), PaymentAmount());
  }

  lemma SplitCount(payments: seq<Payment>, x: nat, part: real, i: Invoice, via: nat)
    requires x < |payments|
    ensures |Filter(Split(payments, x, part), Pays(i, via))| ==
            |Filter(payments, Pays(i, via))| + (if Pays(i, via)(payments[x]) then 1 else 0)
  {
    var p := payments[x];
    TwoForOne(payments, x, p.(amount := part), p.(amount := p.amount - part), Pays(i, via), Each());
    CountIsSum(Filter(payments, Pays(i, via)));
    CountIsSum(Filter(Split(payments, x, part), Pays(i, via)));
  }

  /** Splitting a payment in two of the same method changes nothing in the view but the count of its own row. */
  lemma PaidIgnoresSplits(db: Database, x: nat, part: real, at: nat, via: nat, r: PaymentRow)
    requires at < |db.invoices| && InvoiceIdsUnique(db) && r.key == PayKeyOf(db.invoices[at], via) && x < |db.payments|
    ensures var more := if Pays(db.invoices[at], via)(db.payments[x]) then 1 else 0;
            r in PaymentsConsolidated(db) <==>
            r.(payments := r.payments + more) in PaymentsConsolidated(db.(payments := Split(db.payments, x, part)))
  {
    var i := db.invoices[at];
    var more := if Pays(i, via)(db.payments[x]) then 1 else 0;
    RowInViewIff(db, at, via, r);
    RowInViewIff(db.(payments := Split(db.payments, x, part)), at, via, r.(payments := r.payments + more));
    SplitRow(db.payments, x, part, i, via);
  }

  lemma SplitRow(payments: seq<Payment>, x: nat, part: real, i: Invoice, via: nat)
    requires x < |payments|
    ensures var split, row := Split(payments, x, part), ExpectedRow(payments, i, via);
            && (Filter(split, Pays(i, via)) == [] <==> Filter(payments, Pays(i, via)) == [])
            && ExpectedRow(split, i, via) == row.(payments := row.payments + if Pays(i, via)(payments[x]) then 1 else 0)
  {
    SplitAmount(payments, x, part, i, via);
    SplitCount(payments, x, part, i, via);
    FilterMembers(payments, Pays(i, via));
    assert payments[x] in payments;
  }

  function VoidPayment(payments: seq<Payment>, x: nat): seq<Payment>
    requires x < |payments|
  {
    payments[x := payments[x].(isVoided := true)]
  }

  lemma VoidedFigures(payments: seq<Payment>, x: nat, i: Invoice, via: nat)
    requires x < |payments|
    ensures var p := payments[x];
            && PaidRaw(VoidPayment(payments, x), i, via) == PaidRaw(payments, i, via) - (if Pays(i, via)(p) then p.amount else 0.0)
            && |Filter(VoidPayment(payments, x), Pays(i, via))| == |Filter(payments, Pays(i, via))| - (if Pays(i, via)(p) then 1 else 0)
  {
    var v, pays := payments[x].(isVoided := true), Pays(i, via);
    assert VoidPayment(payments, x) == payments[..x] + [v] + payments[x + 1..];
    FigureReplaced(payments, x, [v], pays, PaymentAmount());
    SumOne(v, When(pays, PaymentAmount()));
    FigureReplaced(payments, x, [v], pays, Each());
    SumOne(v, When(pays, Each()));
    CountIsSum(Filter(payments, pays));
    CountIsSum(Filter(VoidPayment(payments, x), pays));
  }

  /**
   Voiding a payment never raises what a row of the view says was paid; the row goes
   exactly when no other live payment of its invoice and method is left.
   */
  lemma VoidingNeverRaises(db: Database, x: nat, at: nat, via: nat)
    requires at < |db.invoices| && InvoiceIdsUnique(db) && x < |db.payments| && db.payments[x].amount >= 0.0
    ensures var k, voided := PayKeyOf(db.invoices[at], via), db.(payments := VoidPayment(db.payments, x));
            forall after :: after in PaymentsConsolidated(voided) && after.key == k ==>
              exists before :: before in PaymentsConsolidated(db) && before.key == k && after.paid <= before.paid &&
                               after.payments == before.payments - (if Pays(db.invoices[at], via)(db.payments[x]) then 1 else 0)
    ensures var k, voided := PayKeyOf(db.invoices[at], via), db.(payments := VoidPayment(db.payments, x));
            (exists after :: after in PaymentsConsolidated(voided) && after.key == k) <==>
            exists y :: 0 <= y < |db.payments| && y != x && Pays(db.invoices[at], via)(db.payments[y])
  {
    var i, k := db.invoices[at], PayKeyOf(db.invoices[at], via);
    var voided := db.(payments := VoidPayment(db.payments, x));
    VoidedFigures(db.payments, x, i, via);
    var before := ExpectedRow(db.payments, i, via);
    RowInViewIff(db, at, via, before);
    forall after | after in PaymentsConsolidated(voided) && after.key == k
      ensures before in PaymentsConsolidated(db) && after.paid <= before.paid &&
              after.payments == before.payments - (if Pays(i, via)(db.payments[x]) then 1 else 0)
    {
      RowInViewIff(voided, at, via, after);
    }
    PaymentRowIff(voided, at, via);
    if p :| p in voided.payments && Pays(i, via)(p) {
      var y :| 0 <= y < |voided.payments| && voided.payments[y] == p;
      assert y != x && db.payments[y] == p;
    }
    if y :| 0 <= y < |db.payments| && y != x && Pays(i, via)(db.payments[y]) {
      assert voided.payments[y] in voided.payments;
    }
  }

  // ------------------------------------------------------------------------
  // The cap and the sum over the methods
  // ------------------------------------------------------------------------

  function RowOfInvoice(i: Invoice): PaymentRow -> bool {
    (r: PaymentRow) => r.key.company == i.company && r.key.invoice == i.id
  }

  function RowPaid(): PaymentRow -> real {
    (r: PaymentRow) => r.paid
  }

  function RowRaw(): PaymentRow -> real {
    (r: PaymentRow) => r.paidRaw
  }

  function PaysInvoice(i: Invoice): Payment -> bool {
    (p: Payment) => !p.isVoided && p.invoice == i.id && p.company == i.company
  }

  /** All that the view shows as paid of an invoice, over its methods. */
  function ShownPaid(db: Database, i: Invoice): real {
    Sum(Filter(PaymentsConsolidated(db), RowOfInvoice(i)), RowPaid())
  }

  /** All its live payments. */
  function AllPaid(db: Database, i: Invoice): real {
    Sum(Filter(db.payments, PaysInvoice(i)), PaymentAmount())
  }

  ghost predicate DistinctKeys(rows: seq<PaymentRow>) {
    forall a, b :: 0 <= a < b < |rows| ==> rows[a].key != rows[b].key
  }

  lemma {:induction false} FilterKeepsDistinct(rows: seq<PaymentRow>, p: PaymentRow -> bool)
    requires DistinctKeys(rows)
    ensures DistinctKeys(Filter(rows, p))
  {
    if rows != [] {
      FilterKeepsDistinct(rows[1..], p);
      FilterMembers(rows[1..], p);
      var rest := Filter(rows[1..], p);
      forall b | 0 <= b < |rest|
        ensures rest[b].key != rows[0].key
      {
        assert rest[b] in rows[1..];
      }
    }
  }

  /** The rows of an invoice: distinct methods, each with what its payments add up to. */
  lemma InvoiceRows(db: Database, at: nat)
    requires at < |db.invoices| && InvoiceIdsUnique(db)
    ensures var i := db.invoices[at];
            var rows := Filter(PaymentsConsolidated(db), RowOfInvoice(i));
            && DistinctKeys(rows)
            && forall r :: r in rows ==> r == ExpectedRow(db.payments, i, r.key.via) && r.key == PayKeyOf(i, r.key.via)
  {
    var i := db.invoices[at];
    OneRowPerMethod(db);
    FilterKeepsDistinct(PaymentsConsolidated(db), RowOfInvoice(i));
    FilterMembers(PaymentsConsolidated(db), RowOfInvoice(i));
    forall r | r in Filter(PaymentsConsolidated(db), RowOfInvoice(i))
      ensures r == ExpectedRow(db.payments, i, r.key.via)
    {
      RowInViewIff(db, at, r.key.via, r);
    }
  }

  /** What a payment adds to a row. */
  function PayCell(i: Invoice): (PaymentRow, Payment) -> real {
    (r: PaymentRow, p: Payment) => if Pays(i, r.key.via)(p) then p.amount else 0.0
  }

  lemma RawIsRowSum(db: Database, i: Invoice, r: PaymentRow)
    requires r == ExpectedRow(db.payments, i, r.key.via)
    ensures RowRaw()(r) == RowSum(db.payments, PayCell(i))(r)
  {
    SumFilter(db.payments, Pays(i, r.key.via), PaymentAmount());
    SumCongruent(db.payments, When(Pays(i, r.key.via), PaymentAmount()), Row(PayCell(i), r));
  }

  /** Each live payment of the invoice is in one row and no other. */
  lemma PaymentInOneRow(db: Database, at: nat, p: Payment)
    requires at < |db.invoices| && InvoiceIdsUnique(db) && p in db.payments
    ensures var i := db.invoices[at];
            RowSum(Filter(PaymentsConsolidated(db), RowOfInvoice(i)), Flip(PayCell(i)))(p) == When(PaysInvoice(i), PaymentAmount())(p)
  {
    var i := db.invoices[at];
    var rows := Filter(PaymentsConsolidated(db), RowOfInvoice(i));
    var cell := Row(Flip(PayCell(i)), p);
    InvoiceRows(db, at);
    if PaysInvoice(i)(p) {
      PaymentRowExists(db, at, p.via, p);
      var r :| r in PaymentsConsolidated(db) && r.key == PayKeyOf(i, p.via);
      FilterMembers(PaymentsConsolidated(db), RowOfInvoice(i));
      assert r in rows;
      var x :| 0 <= x < |rows| && rows[x] == r;
      forall y | 0 <= y < |rows| && y != x
        ensures cell(rows[y]) == 0.0
      {
        assert rows[y] in rows && rows[y].key != r.key;
      }
      SumOnly(rows, x, cell);
    } else {
      SumZero(rows, cell);
    }
  }

  lemma RawsAddUp(db: Database, at: nat)
    requires at < |db.invoices| && InvoiceIdsUnique(db)
    ensures var i := db.invoices[at];
            Sum(Filter(PaymentsConsolidated(db), RowOfInvoice(i)), RowRaw()) == AllPaid(db, i)
  {
    var i := db.invoices[at];
    var rows := Filter(PaymentsConsolidated(db), RowOfInvoice(i));
    InvoiceRows(db, at);
    forall r | r in rows
      ensures RowRaw()(r) == RowSum(db.payments, PayCell(i))(r)
    {
      RawIsRowSum(db, i, r);
    }
    SumCongruent(rows, RowRaw(), RowSum(db.payments, PayCell(i)));
    SumSwap(rows, db.payments, PayCell(i));
    forall p | p in db.payments
      ensures RowSum(rows, Flip(PayCell(i)))(p) == When(PaysInvoice(i), PaymentAmount())(p)
    {
      PaymentInOneRow(db, at, p);
    }
    SumCongruent(db.payments, RowSum(rows, Flip(PayCell(i))), When(PaysInvoice(i), PaymentAmount()));
    SumFilter(db.payments, PaysInvoice(i), PaymentAmount());
  }

  /** At most one of the rows has anything paid. */
  ghost predicate OnePaidRow(rows: seq<PaymentRow>) {
    forall a, b :: 0 <= a < b < |rows| ==> rows[a].paidRaw <= 0.0 || rows[b].paidRaw <= 0.0
  }

  ghost predicate Capped(rows: seq<PaymentRow>, total: real) {
    forall r :: r in rows ==> r.paidRaw >= 0.0 && r.paid == Least(r.paidRaw, total)
  }

  lemma {:induction false} SumNonNegative<T>(s: seq<T>, f: T -> real)
    requires forall x :: x in s ==> f(x) >= 0.0
    ensures Sum(s, f) >= 0.0
    ensures Sum(s, f) > 0.0 <==> exists x :: x in s && f(x) > 0.0
  {
    if s != [] {
      SumNonNegative(s[1..], f);
      assert s == [s[0]] + s[1..];
      if f(s[0]) > 0.0 { assert s[0] in s; }
    }
  }

  lemma {:induction false} SumAtLeastOne<T>(s: seq<T>, a: nat, f: T -> real)
    requires a < |s| && forall x :: x in s ==> f(x) >= 0.0
    ensures Sum(s, f) >= f(s[a])
  {
    if a == 0 { SumNonNegative(s[1..], f); } else { SumAtLeastOne(s[1..], a - 1, f); }
  }

  lemma {:induction false} SumAtLeastTwo<T>(s: seq<T>, a: nat, b: nat, f: T -> real)
    requires a < b < |s| && forall x :: x in s ==> f(x) >= 0.0
    ensures Sum(s, f) >= f(s[a]) + f(s[b])
  {
    if a == 0 { SumAtLeastOne(s[1..], b - 1, f); } else { SumAtLeastTwo(s[1..], a - 1, b - 1, f); }
  }

  lemma OneRowFits(rows: seq<PaymentRow>, total: real)
    requires total > 0.0 && Capped(rows, total) && OnePaidRow(rows)
    ensures Sum(rows, RowPaid()) <= total
  {
    if exists a :: 0 <= a < |rows| && rows[a].paidRaw > 0.0 {
      var a :| 0 <= a < |rows| && rows[a].paidRaw > 0.0;
      forall b | 0 <= b < |rows| && b != a
        ensures RowPaid()(rows[b]) == 0.0
      {
        assert rows[b] in rows;
      }
      assert rows[a] in rows;
      SumOnly(rows, a, RowPaid());
    } else {
      forall r | r in rows
        ensures RowPaid()(r) == 0.0
      {
        var a :| 0 <= a < |rows| && rows[a] == r;
      }
      SumZero(rows, RowPaid());
    }
  }

  lemma TwoRowsExceed(rows: seq<PaymentRow>, total: real, a: nat, b: nat)
    requires total > 0.0 && Capped(rows, total) && Sum(rows, RowRaw()) > total
    requires a < b < |rows| && rows[a].paidRaw > 0.0 && rows[b].paidRaw > 0.0
    ensures Sum(rows, RowPaid()) > total
  {
    if c :| 0 <= c < |rows| && rows[c].paidRaw >= total {
      var d := if c == a then b else a;
      assert rows[c] in rows && rows[d] in rows;
      if c < d { SumAtLeastTwo(rows, c, d, RowPaid()); } else { SumAtLeastTwo(rows, d, c, RowPaid()); }
    } else {
      forall r | r in rows
        ensures RowPaid()(r) == RowRaw()(r)
      {
        var c :| 0 <= c < |rows| && rows[c] == r;
      }
      SumCongruent(rows, RowPaid(), RowRaw());
    }
  }

  lemma CappedSumIff(rows: seq<PaymentRow>, total: real)
    requires total > 0.0 && Capped(rows, total)
    ensures Sum(rows, RowPaid()) <= total <==> Sum(rows, RowRaw()) <= total || OnePaidRow(rows)
  {
    if OnePaidRow(rows) {
      OneRowFits(rows, total);
    } else if Sum(rows, RowRaw()) <= total {
      SumOrder(rows, RowPaid(), RowRaw());
    } else {
      var a, b :| 0 <= a < b < |rows| && !(rows[a].paidRaw <= 0.0 || rows[b].paidRaw <= 0.0);
      TwoRowsExceed(rows, total, a, b);
    }
  }

  /** All the positive live payments of the invoice are of one method. */
  ghost predicate OneMethod(db: Database, i: Invoice) {
    forall p, q :: p in db.payments && q in db.payments && PaysInvoice(i)(p) && PaysInvoice(i)(q) && p.amount > 0.0 && q.amount > 0.0 ==>
      p.via == q.via
  }

  ghost predicate NoNegativePayment(db: Database, i: Invoice) {
    forall p :: p in db.payments && PaysInvoice(i)(p) ==> p.amount >= 0.0
  }

  lemma RawPositiveIff(db: Database, i: Invoice, via: nat)
    requires NoNegativePayment(db, i)
    ensures PaidRaw(db.payments, i, via) >= 0.0
    ensures PaidRaw(db.payments, i, via) > 0.0 <==> exists p :: p in db.payments && Pays(i, via)(p) && p.amount > 0.0
  {
    FilterMembers(db.payments, Pays(i, via));
    SumNonNegative(Filter(db.payments, Pays(i, via)), PaymentAmount());
  }

  lemma OneMethodIff(db: Database, at: nat)
    requires at < |db.invoices| && InvoiceIdsUnique(db) && NoNegativePayment(db, db.invoices[at])
    ensures OneMethod(db, db.invoices[at]) <==> OnePaidRow(Filter(PaymentsConsolidated(db), RowOfInvoice(db.invoices[at])))
  {
    var i := db.invoices[at];
    var rows := Filter(PaymentsConsolidated(db), RowOfInvoice(i));
    InvoiceRows(db, at);
    if OneMethod(db, i) {
      forall a, b | 0 <= a < b < |rows|
        ensures rows[a].paidRaw <= 0.0 || rows[b].paidRaw <= 0.0
      {
        assert rows[a] in rows && rows[b] in rows && rows[a].key.via != rows[b].key.via;
        RawPositiveIff(db, i, rows[a].key.via);
        RawPositiveIff(db, i, rows[b].key.via);
      }
    }
    if OnePaidRow(rows) {
      forall p, q | p in db.payments && q in db.payments && PaysInvoice(i)(p) && PaysInvoice(i)(q) && p.amount > 0.0 && q.amount > 0.0
        ensures p.via == q.via
      {
        var a := PaidRowOf(db, at, p);
        var b := PaidRowOf(db, at, q);
        if a < b { assert rows[b].paidRaw > 0.0; }
      }
    }
  }

  lemma PaidRowOf(db: Database, at: nat, p: Payment) returns (a: nat)
    requires at < |db.invoices| && InvoiceIdsUnique(db) && NoNegativePayment(db, db.invoices[at])
    requires p in db.payments && PaysInvoice(db.invoices[at])(p) && p.amount > 0.0
    ensures var rows := Filter(PaymentsConsolidated(db), RowOfInvoice(db.invoices[at]));
            a < |rows| && rows[a].key.via == p.via && rows[a].paidRaw > 0.0
  {
    var i := db.invoices[at];
    var rows := Filter(PaymentsConsolidated(db), RowOfInvoice(i));
    PaymentRowExists(db, at, p.via, p);
    var r :| r in PaymentsConsolidated(db) && r.key == PayKeyOf(i, p.via);
    FilterMembers(PaymentsConsolidated(db), RowOfInvoice(i));
    assert r in rows;
    a :| 0 <= a < |rows| && rows[a] == r;
    InvoiceRows(db, at);
    RawPositiveIff(db, i, p.via);
  }

  /**
   The cap holds method by method.  What the view shows as paid of an invoice over all its
   methods stays within a positive total exactly when its live payments do, or all the
   positive ones are of one method.
   */
  lemma ShownWithinTotalIff(db: Database, at: nat)
    requires at < |db.invoices| && InvoiceIdsUnique(db)
    requires NoNegativePayment(db, db.invoices[at]) && db.invoices[at].total >= 0.0
    ensures var i := db.invoices[at];
            ShownPaid(db, i) <= i.total <==> i.total == 0.0 || AllPaid(db, i) <= i.total || OneMethod(db, i)
  {
    var i := db.invoices[at];
    var rows := Filter(PaymentsConsolidated(db), RowOfInvoice(i));
    InvoiceRows(db, at);
    forall r | r in rows
      ensures r.paidRaw >= 0.0 && r.paid == Least(r.paidRaw, i.total)
    {
      RawPositiveIff(db, i, r.key.via);
    }
    RawsAddUp(db, at);
    OneMethodIff(db, at);
    if i.total > 0.0 {
      CappedSumIff(rows, i.total);
    } else {
      SumZero(rows, RowPaid());
    }
  }
}
