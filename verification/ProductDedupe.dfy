/**
 The three de-duplication blocks over `products` and the unique indexes they make
 possible.  The blocks share one shape: read the rows to rename once, then give each a
 numeric suffix that no active product of its company uses at that moment.
 */
module ProductDedupe {
  import opened Wrappers
  import opened DecimalText

  datatype Product = Product(company: nat, sku: Option<string>, barCode: Option<string>, name: string, archived: bool)

  type Products = map<nat, Product>

  /** The column a block works on. */
  datatype Field = Sku | BarCode | Name

  function TrimLeft(s: string): string {
    if s != [] && s[0] == ' ' then TrimLeft(s[1..]) else s
  }

  function TrimRight(s: string): string {
    if s != [] && s[|s| - 1] == ' ' then TrimRight(s[..|s| - 1]) else s
  }

  /** `btrim`: blanks go from both ends. */
  function Trim(s: string): string {
    TrimRight(TrimLeft(s))
  }

  /** The database's `lower`, character by character; its locale is left open, digits stay as they are. */
  type Lowering = char -> char

  ghost predicate KeepsDigits(lower: Lowering) {
    forall c :: IsDigit(c) ==> lower(c) == c
  }

  function Lower(lower: Lowering, s: string): string {
    seq(|s|, i requires 0 <= i < |s| => lower(s[i]))
  }

  /** What the unique index on the field compares. */
  function IndexKey(lower: Lowering, f: Field, p: Product): Option<string> {
    match f
    case Sku => p.sku
    case BarCode => p.barCode
    case Name => Some(Lower(lower, Trim(p.name)))
  }

  /** The rows a block looks at: active ones, and for codes only the non-empty ones. */
  predicate Eligible(f: Field, p: Product) {
    && !p.archived
    && match f
       case Sku => p.sku.Some? && p.sku.value != ""
       case BarCode => p.barCode.Some? && p.barCode.value != ""
       case Name => true
  }

  function Original(f: Field, p: Product): string
    requires Eligible(f, p)
  {
    match f
    case Sku => p.sku.value
    case BarCode => p.barCode.value
    case Name => p.name
  }

  function Candidate(f: Field, original: string, n: nat): string {
    if f == Name then Trim(original) + " " + Digits(n) else original + Digits(n)
  }

  function Write(f: Field, p: Product, v: string): Product {
    match f
    case Sku => p.(sku := Some(v))
    case BarCode => p.(barCode := Some(v))
    case Name => p.(name := v)
  }

  function Renamed(f: Field, p: Product, n: nat): Product
    requires Eligible(f, p)
  {
    Write(f, p, Candidate(f, Original(f, p), n))
  }

  /** Both rows are eligible and fall in one partition. */
  predicate SameGroup(lower: Lowering, f: Field, p: Product, q: Product) {
    Eligible(f, p) && Eligible(f, q) && p.company == q.company && IndexKey(lower, f, p) == IndexKey(lower, f, q)
  }

  /** ROW_NUMBER within the partition, by id. */
  function Rank(lower: Lowering, f: Field, rows: Products, id: nat): nat
    requires id in rows
  {
    |set j | j in rows && j <= id && SameGroup(lower, f, rows[j], rows[id])|
  }

  function Repeated(lower: Lowering, f: Field, rows: Products): set<nat> {
    set id | id in rows && Rank(lower, f, rows, id) > 1
  }

  function Actives(rows: Products, company: nat): set<nat> {
    set id | id in rows && rows[id].company == company && !rows[id].archived
  }

  /** Some active product of the company already has that key. */
  predicate Taken(lower: Lowering, f: Field, rows: Products, company: nat, key: Option<string>) {
    exists id | id in rows :: id in Actives(rows, company) && IndexKey(lower, f, rows[id]) == key
  }

  /** No two eligible rows fall in one partition. */
  predicate Unique(lower: Lowering, f: Field, rows: Products) {
    forall i, j | i in rows && j in rows :: SameGroup(lower, f, rows[i], rows[j]) ==> i == j
  }

  // ------------------------------------------------------------------------
  // Candidates
  // ------------------------------------------------------------------------

  /** A name is what `btrim` leaves of it, between blanks. */
  lemma TrimLeavesBlanks(s: string)
    ensures Trim(s) == "" || (Trim(s)[0] != ' ' && Trim(s)[|Trim(s)| - 1] != ' ')
    ensures exists k: nat, l: nat :: s == Blanks(k) + Trim(s) + Blanks(l)
  {
    var k := LeftBlanks(s);
    var l := RightBlanks(TrimLeft(s));
    TrimLeftKeeps(s);
    TrimRightKeeps(TrimLeft(s));
    TrimRightEnds(TrimLeft(s));
    assert s == Blanks(k) + Trim(s) + Blanks(l);
  }

  function Blanks(k: nat): string {
    seq(k, _ => ' ')
  }

  lemma {:induction false} LeftBlanks(s: string) returns (k: nat)
    ensures s == Blanks(k) + TrimLeft(s)
  {
    k := 0;
    if s != [] && s[0] == ' ' {
      var rest := LeftBlanks(s[1..]);
      k := rest + 1;
      assert Blanks(k) == [' '] + Blanks(rest);
      assert s == [s[0]] + s[1..];
    }
  }

  lemma {:induction false} RightBlanks(s: string) returns (k: nat)
    ensures s == TrimRight(s) + Blanks(k)
  {
    k := 0;
    if s != [] && s[|s| - 1] == ' ' {
      var rest := RightBlanks(s[..|s| - 1]);
      k := rest + 1;
      assert Blanks(k) == Blanks(rest) + [' '];
      assert s == s[..|s| - 1] + [s[|s| - 1]];
    }
  }

  lemma {:induction false} TrimRightEnds(s: string)
    ensures TrimRight(s) == "" || TrimRight(s)[|TrimRight(s)| - 1] != ' '
  {
    if s != [] && s[|s| - 1] == ' ' { TrimRightEnds(s[..|s| - 1]); }
  }

  /** The second A becomes A2 as a code, and "A 2" as a name, whatever blanks were around it. */
  lemma SecondOfItsKind(p: Product)
    requires !p.archived
    ensures p.sku == Some("A") ==> Renamed(Sku, p, 2) == p.(sku := Some("A2"))
    ensures p.barCode == Some("A") ==> Renamed(BarCode, p, 2) == p.(barCode := Some("A2"))
    ensures p.name == " A" ==> Renamed(Name, p, 2) == p.(name := "A 2")
  {
    assert Digits(2) == "2";
    assert "A" + "2" == "A2";
    assert " A"[1..] == "A";
    assert TrimLeft(" A") == "A" && TrimRight("A") == "A";
  }

  lemma {:induction false} TrimLeftKeeps(s: string)
    ensures TrimLeft(s) == [] || TrimLeft(s)[0] != ' '
    ensures s != [] && s[|s| - 1] != ' ' ==> TrimLeft(s) != [] && TrimLeft(s)[|TrimLeft(s)| - 1] == s[|s| - 1]
  {
    if s != [] && s[0] == ' ' {
      TrimLeftKeeps(s[1..]);
    }
  }

  lemma {:induction false} TrimRightKeeps(s: string)
    requires s == [] || s[0] != ' '
    ensures TrimRight(s) == [] || TrimRight(s)[0] != ' '
  {
    if s != [] && s[|s| - 1] == ' ' {
      TrimRightKeeps(s[..|s| - 1]);
    }
  }

  /** Trimming a suffixed name only drops the blank that an empty name leaves in front. */
  lemma TrimOfCandidate(name: string, n: nat)
    ensures Trim(Candidate(Name, name, n)) == (if Trim(name) == "" then "" else Trim(name) + " ") + Digits(n)
  {
    var base, digits := Trim(name), Digits(n);
    var v := Candidate(Name, name, n);
    TrimLeftKeeps(name);
    TrimRightKeeps(TrimLeft(name));
    assert digits[0] != ' ' && digits[|digits| - 1] != ' ';
    if base == "" {
      assert v[1..] == digits;
      assert TrimLeft(v) == digits;
    } else {
      assert TrimLeft(v) == v;
      assert v[|v| - 1] == digits[|digits| - 1];
    }
  }

  /** The part of a candidate's key that does not depend on the number. */
  function Stem(lower: Lowering, f: Field, original: string): string {
    if f == Name then Lower(lower, if Trim(original) == "" then "" else Trim(original) + " ") else original
  }

  lemma KeyOfCandidate(lower: Lowering, f: Field, p: Product, n: nat)
    requires KeepsDigits(lower) && Eligible(f, p)
    ensures IndexKey(lower, f, Renamed(f, p, n)) == Some(Stem(lower, f, Original(f, p)) + Digits(n))
  {
    if f == Name {
      TrimOfCandidate(p.name, n);
      var head := if Trim(p.name) == "" then "" else Trim(p.name) + " ";
      assert Lower(lower, head + Digits(n)) == Lower(lower, head) + Digits(n);
    }
  }

  /** Different numbers give different keys, and none gives the key the row had. */
  lemma CandidatesDiffer(lower: Lowering, f: Field, p: Product, n: nat, m: nat)
    requires KeepsDigits(lower) && Eligible(f, p)
    ensures IndexKey(lower, f, Renamed(f, p, n)) == IndexKey(lower, f, Renamed(f, p, m)) ==> n == m
    ensures IndexKey(lower, f, Renamed(f, p, n)) != IndexKey(lower, f, p)
    ensures Eligible(f, Renamed(f, p, n))
  {
    KeyOfCandidate(lower, f, p, n);
    KeyOfCandidate(lower, f, p, m);
    var stem := Stem(lower, f, Original(f, p));
    if stem + Digits(n) == stem + Digits(m) {
      assert (stem + Digits(n))[|stem|..] == Digits(n);
      assert (stem + Digits(m))[|stem|..] == Digits(m);
      DigitsInjective(n, m);
    }
    assert |stem + Digits(n)| > |stem|;
  }

  // ------------------------------------------------------------------------
  // What one block does
  // ------------------------------------------------------------------------

  /**
   The row took a suffix not below its rank, and every smaller one it passed over was in
   use by a product of its company before the block or after it.
   */
  ghost predicate TookSuffix(lower: Lowering, f: Field, before: Products, after: Products, id: nat)
    requires id in before && id in after && Eligible(f, before[id])
  {
    exists n: nat :: FirstFree(lower, f, before, after, id, n)
  }

  ghost predicate FirstFree(lower: Lowering, f: Field, before: Products, after: Products, id: nat, n: nat)
    requires id in before && id in after && Eligible(f, before[id])
  {
    && n >= Rank(lower, f, before, id)
    && after[id] == Renamed(f, before[id], n)
    && forall m: nat :: Rank(lower, f, before, id) <= m < n ==>
         var key := IndexKey(lower, f, Renamed(f, before[id], m));
         Taken(lower, f, before, before[id].company, key) || Taken(lower, f, after, before[id].company, key)
  }

  /** The row has been renamed as the block should. */
  ghost predicate Done(lower: Lowering, f: Field, before: Products, rows: Products, id: nat) {
    && id in before && id in rows && Eligible(f, before[id])
    && TookSuffix(lower, f, before, rows, id)
    && IndexKey(lower, f, rows[id]) != IndexKey(lower, f, before[id])
  }

  ghost predicate Deduped(lower: Lowering, f: Field, before: Products, after: Products) {
    && after.Keys == before.Keys
    && (forall id {:trigger Rank(lower, f, before, id)} ::
          id in before && Rank(lower, f, before, id) <= 1 ==> after[id] == before[id])
    && (forall id {:trigger Rank(lower, f, before, id)} ::
          id in before && Rank(lower, f, before, id) > 1 ==> Done(lower, f, before, after, id))
    && Unique(lower, f, after)
  }

  lemma RankIsOwn(lower: Lowering, f: Field, rows: Products, id: nat)
    requires id in rows
    ensures Rank(lower, f, rows, id) >= 1 <==> Eligible(f, rows[id])
  {
    var s := set j | j in rows && j <= id && SameGroup(lower, f, rows[j], rows[id]);
    if Eligible(f, rows[id]) {
      assert id in s;
    } else {
      assert s == {};
    }
  }

  /** The first row of a partition has rank 1, and only it; a row outside every partition has rank 0, and only it. */
  lemma RankStarts(lower: Lowering, f: Field, rows: Products, id: nat)
    requires id in rows
    ensures Rank(lower, f, rows, id) == 1 <==>
            Eligible(f, rows[id]) && forall j :: j in rows && j < id ==> !SameGroup(lower, f, rows[j], rows[id])
    ensures Rank(lower, f, rows, id) == 0 <==> !Eligible(f, rows[id])
  {
    RankIsOwn(lower, f, rows, id);
    var s := set j | j in rows && j <= id && SameGroup(lower, f, rows[j], rows[id]);
    if Eligible(f, rows[id]) {
      assert s == {id} + (set j | j in rows && j < id && SameGroup(lower, f, rows[j], rows[id]));
      if Rank(lower, f, rows, id) > 1 { RepeatedHasEarlier(lower, f, rows, id); }
      if j :| j in rows && j < id && SameGroup(lower, f, rows[j], rows[id]) { LaterIsRepeated(lower, f, rows, j, id); }
    }
  }

  /** From one row of a partition to the next the rank grows by one. */
  lemma RankNext(lower: Lowering, f: Field, rows: Products, i: nat, j: nat)
    requires i in rows && j in rows && i < j && SameGroup(lower, f, rows[i], rows[j])
    requires forall k :: k in rows && i < k < j ==> !SameGroup(lower, f, rows[k], rows[j])
    ensures Rank(lower, f, rows, j) == Rank(lower, f, rows, i) + 1
  {
    var upTo := set k | k in rows && k <= i && SameGroup(lower, f, rows[k], rows[i]);
    var next := set k | k in rows && k <= j && SameGroup(lower, f, rows[k], rows[j]);
    assert next == upTo + {j};
  }

  /** Of two rows in one partition the one with the larger id is a repetition. */
  lemma LaterIsRepeated(lower: Lowering, f: Field, rows: Products, i: nat, j: nat)
    requires i in rows && j in rows && i < j && SameGroup(lower, f, rows[i], rows[j])
    ensures j in Repeated(lower, f, rows)
  {
    var s := set k | k in rows && k <= j && SameGroup(lower, f, rows[k], rows[j]);
    assert {i, j} <= s;
    SubsetSize({i, j}, s);
  }

  /** The rows to rename are exactly those that are not the first of their partition. */
  lemma RepeatedIff(lower: Lowering, f: Field, rows: Products, id: nat)
    requires id in rows
    ensures id in Repeated(lower, f, rows) <==>
            exists j :: j in rows && j < id && SameGroup(lower, f, rows[j], rows[id])
  {
    if id in Repeated(lower, f, rows) {
      RepeatedHasEarlier(lower, f, rows, id);
    } else if j :| j in rows && j < id && SameGroup(lower, f, rows[j], rows[id]) {
      LaterIsRepeated(lower, f, rows, j, id);
    }
  }

  lemma RepeatedHasEarlier(lower: Lowering, f: Field, rows: Products, id: nat)
    requires id in Repeated(lower, f, rows)
    ensures exists j :: j in rows && j < id && SameGroup(lower, f, rows[j], rows[id])
  {
    var s := set j | j in rows && j <= id && SameGroup(lower, f, rows[j], rows[id]);
    if forall j :: j in s ==> j == id {
      SubsetSize(s, {id});
    }
  }

  /** A table without repetitions gives a block nothing to do. */
  lemma UniqueHasNoWork(lower: Lowering, f: Field, rows: Products)
    ensures Unique(lower, f, rows) <==> Repeated(lower, f, rows) == {}
  {
    if Unique(lower, f, rows) && Repeated(lower, f, rows) != {} {
      var id :| id in Repeated(lower, f, rows);
      RepeatedHasEarlier(lower, f, rows, id);
    }
    if Repeated(lower, f, rows) == {} {
      forall i, j | i in rows && j in rows && SameGroup(lower, f, rows[i], rows[j]) ensures i == j {
        if i < j { LaterIsRepeated(lower, f, rows, i, j); }
        if j < i { LaterIsRepeated(lower, f, rows, j, i); }
      }
    }
  }

  /** Of two rows in one partition at least one is still to be renamed. */
  ghost predicate ClashesPending(lower: Lowering, f: Field, rows: Products, todo: set<nat>) {
    forall i, j :: i in rows && j in rows && i != j && SameGroup(lower, f, rows[i], rows[j]) ==> i in todo || j in todo
  }

  ghost predicate AllDone(lower: Lowering, f: Field, before: Products, rows: Products, todo: set<nat>) {
    forall k {:trigger Done(lower, f, before, rows, k)} ::
      k in Repeated(lower, f, before) && k !in todo ==> Done(lower, f, before, rows, k)
  }

  /** The state of a block with the rows `todo` still to rename. */
  ghost predicate Renaming(lower: Lowering, f: Field, before: Products, rows: Products, todo: set<nat>) {
    && rows.Keys == before.Keys
    && todo <= Repeated(lower, f, before)
    && (forall id :: id in before && (id in todo || id !in Repeated(lower, f, before)) ==> rows[id] == before[id])
    && AllDone(lower, f, before, rows, todo)
  }

  lemma StartsRenaming(lower: Lowering, f: Field, before: Products)
    ensures Renaming(lower, f, before, before, Repeated(lower, f, before))
    ensures ClashesPending(lower, f, before, Repeated(lower, f, before))
  {
    forall i, j | i in before && j in before && i != j && SameGroup(lower, f, before[i], before[j])
      ensures i in Repeated(lower, f, before) || j in Repeated(lower, f, before)
    {
      if i < j { LaterIsRepeated(lower, f, before, i, j); } else { LaterIsRepeated(lower, f, before, j, i); }
    }
  }

  lemma NoClashIsUnique(lower: Lowering, f: Field, rows: Products)
    requires ClashesPending(lower, f, rows, {})
    ensures Unique(lower, f, rows)
  {
  }

  lemma FinishedIsDeduped(lower: Lowering, f: Field, before: Products, rows: Products)
    requires Renaming(lower, f, before, rows, {}) && ClashesPending(lower, f, rows, {})
    ensures Deduped(lower, f, before, rows)
  {
    NoClashIsUnique(lower, f, rows);
    forall id | id in before && Rank(lower, f, before, id) > 1
      ensures id in Repeated(lower, f, before) && Eligible(f, before[id])
    {
      RankIsOwn(lower, f, before, id);
    }
  }

  /** A key in use while the block runs was in use before it or is in use once `id` has been renamed. */
  lemma TakenSurvives(lower: Lowering, f: Field, before: Products, rows: Products, id: nat, p: Product,
                      company: nat, key: Option<string>)
    requires id in rows && id in before && rows[id] == before[id]
    requires Taken(lower, f, rows, company, key)
    ensures Taken(lower, f, before, company, key) || Taken(lower, f, rows[id := p], company, key)
  {
    var j :| j in rows && j in Actives(rows, company) && IndexKey(lower, f, rows[j]) == key;
    if j == id {
      assert j in before && j in Actives(before, company);
    } else {
      var rows' := rows[id := p];
      assert j in rows' && rows'[j] == rows[j] && j in Actives(rows', company);
    }
  }

  /** A row that takes its first free candidate is done, and clashes with nobody. */
  lemma FirstFreeIsDone(lower: Lowering, f: Field, before: Products, rows: Products, todo: set<nat>, id: nat, n: nat)
    requires KeepsDigits(lower) && id in rows && id in before && rows[id] == before[id] && Eligible(f, before[id])
    requires ClashesPending(lower, f, rows, todo)
    requires n >= Rank(lower, f, before, id)
    requires !Taken(lower, f, rows, before[id].company, IndexKey(lower, f, Renamed(f, before[id], n)))
    requires forall m: nat :: Rank(lower, f, before, id) <= m < n ==>
               Taken(lower, f, rows, before[id].company, IndexKey(lower, f, Renamed(f, before[id], m)))
    ensures Done(lower, f, before, rows[id := Renamed(f, before[id], n)], id)
    ensures ClashesPending(lower, f, rows[id := Renamed(f, before[id], n)], todo - {id})
  {
    CandidatesDiffer(lower, f, before[id], n, n);
    TakesItsSuffix(lower, f, before, rows, id, n);
    ClashesShrink(lower, f, rows, todo, id, Renamed(f, before[id], n));
  }

  lemma StillDone(lower: Lowering, f: Field, before: Products, rows: Products, todo: set<nat>, id: nat, p: Product, k: nat)
    requires Renaming(lower, f, before, rows, todo) && id in todo
    requires k in Repeated(lower, f, before) && k !in todo
    ensures Done(lower, f, before, rows[id := p], k)
  {
    assert Done(lower, f, before, rows, k);
    OthersStayDone(lower, f, before, rows, id, p, k);
  }

  lemma AllStillDone(lower: Lowering, f: Field, before: Products, rows: Products, todo: set<nat>, id: nat, p: Product)
    requires Renaming(lower, f, before, rows, todo) && id in todo
    requires Done(lower, f, before, rows[id := p], id)
    ensures AllDone(lower, f, before, rows[id := p], todo - {id})
  {
    forall k | k in Repeated(lower, f, before) && k !in todo - {id} ensures Done(lower, f, before, rows[id := p], k) {
      if k != id { StillDone(lower, f, before, rows, todo, id, p, k); }
    }
  }

  /** Renaming one row keeps the block on course. */
  lemma RenameKeeps(lower: Lowering, f: Field, before: Products, rows: Products, todo: set<nat>, id: nat, p: Product)
    requires Renaming(lower, f, before, rows, todo) && id in todo
    requires AllDone(lower, f, before, rows[id := p], todo - {id})
    ensures Renaming(lower, f, before, rows[id := p], todo - {id})
  {
  }

  lemma TakesItsSuffix(lower: Lowering, f: Field, before: Products, rows: Products, id: nat, n: nat)
    requires id in rows && id in before && rows[id] == before[id] && Eligible(f, before[id])
    requires n >= Rank(lower, f, before, id)
    requires forall m: nat :: Rank(lower, f, before, id) <= m < n ==>
               Taken(lower, f, rows, before[id].company, IndexKey(lower, f, Renamed(f, before[id], m)))
    ensures TookSuffix(lower, f, before, rows[id := Renamed(f, before[id], n)], id)
  {
    var p := Renamed(f, before[id], n);
    forall m: nat | Rank(lower, f, before, id) <= m < n
      ensures var key := IndexKey(lower, f, Renamed(f, before[id], m));
              Taken(lower, f, before, before[id].company, key) || Taken(lower, f, rows[id := p], before[id].company, key)
    {
      TakenSurvives(lower, f, before, rows, id, p, before[id].company, IndexKey(lower, f, Renamed(f, before[id], m)));
    }
    assert FirstFree(lower, f, before, rows[id := p], id, n);
  }

  lemma OthersStayDone(lower: Lowering, f: Field, before: Products, rows: Products, id: nat, p: Product, k: nat)
    requires id in rows && id in before && rows[id] == before[id] && k != id && Done(lower, f, before, rows, k)
    ensures Done(lower, f, before, rows[id := p], k)
  {
    var c :| FirstFree(lower, f, before, rows, k, c);
    forall m: nat | Rank(lower, f, before, k) <= m < c
      ensures var key := IndexKey(lower, f, Renamed(f, before[k], m));
              Taken(lower, f, before, before[k].company, key) || Taken(lower, f, rows[id := p], before[k].company, key)
    {
      var key := IndexKey(lower, f, Renamed(f, before[k], m));
      if Taken(lower, f, rows, before[k].company, key) {
        TakenSurvives(lower, f, before, rows, id, p, before[k].company, key);
      }
    }
    assert FirstFree(lower, f, before, rows[id := p], k, c);
  }

  lemma ClashesShrink(lower: Lowering, f: Field, rows: Products, todo: set<nat>, id: nat, p: Product)
    requires ClashesPending(lower, f, rows, todo) && id in rows
    requires !Taken(lower, f, rows, p.company, IndexKey(lower, f, p))
    ensures ClashesPending(lower, f, rows[id := p], todo - {id})
  {
    forall j | j in rows && j != id ensures !SameGroup(lower, f, rows[j], p) && !SameGroup(lower, f, p, rows[j]) {
      assert !(j in Actives(rows, p.company) && IndexKey(lower, f, rows[j]) == IndexKey(lower, f, p));
    }
  }

  // ------------------------------------------------------------------------
  // The unique indexes
  // ------------------------------------------------------------------------

  /** What CREATE UNIQUE INDEX demands: unlike the blocks, it counts empty codes too. */
  predicate Indexable(lower: Lowering, f: Field, rows: Products) {
    forall i, j | i in rows && j in rows :: Collide(lower, f, rows[i], rows[j]) ==> i == j
  }

  predicate Collide(lower: Lowering, f: Field, p: Product, q: Product) {
    && !p.archived && !q.archived && p.company == q.company
    && IndexKey(lower, f, p).Some? && IndexKey(lower, f, p) == IndexKey(lower, f, q)
  }

  predicate HasEmptyCode(lower: Lowering, f: Field, p: Product) {
    f != Name && !p.archived && IndexKey(lower, f, p) == Some("")
  }

  /** At most one active product per company has the empty string as its code. */
  predicate FewEmptyCodes(lower: Lowering, f: Field, rows: Products) {
    forall i, j | i in rows && j in rows ::
      HasEmptyCode(lower, f, rows[i]) && HasEmptyCode(lower, f, rows[j]) && rows[i].company == rows[j].company ==> i == j
  }

  /** An index needs uniqueness as the blocks see it, and few empty codes besides. */
  lemma IndexableMeans(lower: Lowering, f: Field, rows: Products)
    ensures Indexable(lower, f, rows) <==> Unique(lower, f, rows) && FewEmptyCodes(lower, f, rows)
  {
    forall i, j | i in rows && j in rows
      ensures Collide(lower, f, rows[i], rows[j]) <==>
              || SameGroup(lower, f, rows[i], rows[j])
              || (HasEmptyCode(lower, f, rows[i]) && HasEmptyCode(lower, f, rows[j]) && rows[i].company == rows[j].company)
    {
    }
  }

  /** What a block leaves of one row: its company, its state, its other fields, and whether its code is empty. */
  lemma RowAfter(lower: Lowering, f: Field, before: Products, after: Products, id: nat)
    requires KeepsDigits(lower) && Deduped(lower, f, before, after) && id in before
    ensures after[id].company == before[id].company
    ensures HasEmptyCode(lower, f, after[id]) == HasEmptyCode(lower, f, before[id])
    ensures forall g :: g != f ==>
              && IndexKey(lower, g, after[id]) == IndexKey(lower, g, before[id])
              && Eligible(g, after[id]) == Eligible(g, before[id])
              && HasEmptyCode(lower, g, after[id]) == HasEmptyCode(lower, g, before[id])
  {
    if Rank(lower, f, before, id) > 1 {
      RankIsOwn(lower, f, before, id);
      var n :| FirstFree(lower, f, before, after, id, n);
      KeyOfCandidate(lower, f, before[id], n);
      CandidatesDiffer(lower, f, before[id], n, n);
    }
  }

  /** After a block its index can be created exactly when no company had two empty codes before it. */
  lemma IndexableIff(lower: Lowering, f: Field, before: Products, after: Products)
    requires KeepsDigits(lower) && Deduped(lower, f, before, after)
    ensures Indexable(lower, f, after) <==> FewEmptyCodes(lower, f, before)
  {
    IndexableMeans(lower, f, after);
    EmptyCodesKept(lower, f, f, before, after);
  }

  lemma EmptyCodesKept(lower: Lowering, f: Field, g: Field, before: Products, after: Products)
    requires KeepsDigits(lower) && Deduped(lower, f, before, after)
    ensures FewEmptyCodes(lower, g, before) <==> FewEmptyCodes(lower, g, after)
  {
    forall id | id in before
      ensures after[id].company == before[id].company
      ensures HasEmptyCode(lower, g, after[id]) == HasEmptyCode(lower, g, before[id])
    {
      RowAfter(lower, f, before, after, id);
    }
  }

  /** The field `g` of every row means the same to the blocks and to the indexes before and after. */
  ghost predicate FieldKept(lower: Lowering, g: Field, before: Products, after: Products) {
    && after.Keys == before.Keys
    && forall id :: id in before ==>
         && after[id].company == before[id].company
         && IndexKey(lower, g, after[id]) == IndexKey(lower, g, before[id])
         && Eligible(g, after[id]) == Eligible(g, before[id])
  }

  lemma OtherFieldsKept(lower: Lowering, f: Field, g: Field, before: Products, after: Products)
    requires KeepsDigits(lower) && f != g && Deduped(lower, f, before, after)
    ensures FieldKept(lower, g, before, after)
  {
    forall id | id in before
      ensures after[id].company == before[id].company
      ensures IndexKey(lower, g, after[id]) == IndexKey(lower, g, before[id])
      ensures Eligible(g, after[id]) == Eligible(g, before[id])
    {
      RowAfter(lower, f, before, after, id);
    }
  }

  lemma KeptIsUnique(lower: Lowering, g: Field, before: Products, after: Products)
    requires FieldKept(lower, g, before, after) && Unique(lower, g, before)
    ensures Unique(lower, g, after)
  {
    forall i, j | i in after && j in after && SameGroup(lower, g, after[i], after[j]) ensures i == j {
      assert SameGroup(lower, g, before[i], before[j]);
    }
  }

  /** What a block means for the later blocks: its own field comes out unique, the others as they went in. */
  lemma BlockEffect(lower: Lowering, f: Field, g: Field, before: Products, after: Products)
    requires KeepsDigits(lower) && Deduped(lower, f, before, after)
    ensures f == g || Unique(lower, g, before) ==> Unique(lower, g, after)
    ensures FewEmptyCodes(lower, g, before) <==> FewEmptyCodes(lower, g, after)
  {
    EmptyCodesKept(lower, f, g, before, after);
    if f != g && Unique(lower, g, before) {
      OtherFieldsKept(lower, f, g, before, after);
      KeptIsUnique(lower, g, before, after);
    }
  }

  /** The three blocks in a row leave every field unique, and indexable unless its empty codes repeat. */
  lemma ThreeBlocks(lower: Lowering, before: Products, a: Products, b: Products, after: Products)
    requires KeepsDigits(lower)
    requires Deduped(lower, Sku, before, a) && Deduped(lower, BarCode, a, b) && Deduped(lower, Name, b, after)
    ensures forall f :: Unique(lower, f, after)
    ensures forall f :: Indexable(lower, f, after) <==> FewEmptyCodes(lower, f, before)
    ensures FewEmptyCodes(lower, Name, before)
  {
    forall f
      ensures Unique(lower, f, after) && (Indexable(lower, f, after) <==> FewEmptyCodes(lower, f, before))
    {
      BlockEffect(lower, Sku, f, before, a);
      BlockEffect(lower, BarCode, f, a, b);
      BlockEffect(lower, Name, f, b, after);
      IndexableMeans(lower, f, after);
    }
  }

  /** Two active products of one company. */
  predicate Rivals(rows: Products, i: nat, j: nat) {
    i in rows && j in rows && i != j && !rows[i].archived && !rows[j].archived && rows[i].company == rows[j].company
  }

  /** No two rivals share a non-empty code, or a name but for case and outer blanks. */
  ghost predicate NothingShared(lower: Lowering, rows: Products) {
    forall i, j :: Rivals(rows, i, j) ==>
      && (rows[i].sku.Some? && rows[i].sku == rows[j].sku ==> rows[i].sku.value == "")
      && (rows[i].barCode.Some? && rows[i].barCode == rows[j].barCode ==> rows[i].barCode.value == "")
      && Lower(lower, Trim(rows[i].name)) != Lower(lower, Trim(rows[j].name))
  }

  lemma UniqueMeans(lower: Lowering, rows: Products)
    requires forall f :: Unique(lower, f, rows)
    ensures NothingShared(lower, rows)
  {
    assert Unique(lower, Sku, rows) && Unique(lower, BarCode, rows) && Unique(lower, Name, rows);
    forall i, j | Rivals(rows, i, j)
      ensures rows[i].sku.Some? && rows[i].sku == rows[j].sku ==> rows[i].sku.value == ""
      ensures rows[i].barCode.Some? && rows[i].barCode == rows[j].barCode ==> rows[i].barCode.value == ""
      ensures Lower(lower, Trim(rows[i].name)) != Lower(lower, Trim(rows[j].name))
    {
      assert forall f :: !SameGroup(lower, f, rows[i], rows[j]);
    }
  }

  /** No two rivals have the same kind of code empty. */
  ghost predicate EmptyCodesApart(rows: Products) {
    forall i, j :: Rivals(rows, i, j) ==>
      !(rows[i].sku == rows[j].sku == Some("")) && !(rows[i].barCode == rows[j].barCode == Some(""))
  }

  lemma FewEmptyCodesMean(lower: Lowering, rows: Products)
    ensures FewEmptyCodes(lower, Sku, rows) && FewEmptyCodes(lower, BarCode, rows) <==> EmptyCodesApart(rows)
  {
    forall i, j | i in rows && j in rows
      ensures HasEmptyCode(lower, Sku, rows[i]) && HasEmptyCode(lower, Sku, rows[j]) <==>
              !rows[i].archived && !rows[j].archived && rows[i].sku == rows[j].sku == Some("")
      ensures HasEmptyCode(lower, BarCode, rows[i]) && HasEmptyCode(lower, BarCode, rows[j]) <==>
              !rows[i].archived && !rows[j].archived && rows[i].barCode == rows[j].barCode == Some("")
    {
    }
    if EmptyCodesApart(rows) {
      forall i, j | i in rows && j in rows && rows[i].company == rows[j].company && i != j
        ensures !(HasEmptyCode(lower, Sku, rows[i]) && HasEmptyCode(lower, Sku, rows[j]))
        ensures !(HasEmptyCode(lower, BarCode, rows[i]) && HasEmptyCode(lower, BarCode, rows[j]))
      {
        assert !rows[i].archived && !rows[j].archived ==> Rivals(rows, i, j);
      }
    }
  }

  lemma BlocksMean(lower: Lowering, before: Products, a: Products, b: Products, after: Products)
    requires KeepsDigits(lower) && Deduped(lower, Sku, before, a) && Deduped(lower, BarCode, a, b) && Deduped(lower, Name, b, after)
    ensures (forall f :: Unique(lower, f, after)) && NothingShared(lower, after)
    ensures (forall f :: Indexable(lower, f, after)) <==>
            Indexable(lower, Sku, after) && Indexable(lower, BarCode, after) && Indexable(lower, Name, after)
    ensures (forall f :: Indexable(lower, f, after)) <==> EmptyCodesApart(before)
    ensures EmptyCodesApart(before) <==> FewEmptyCodes(lower, Sku, before) && FewEmptyCodes(lower, BarCode, before)
  {
    ThreeBlocks(lower, before, a, b, after);
    UniqueMeans(lower, after);
    FewEmptyCodesMean(lower, before);
  }

  ghost predicate ArchivedKept(before: Products, after: Products) {
    forall id :: id in before && id in after && before[id].archived ==> after[id] == before[id]
  }

  /** `i` and `j` are a partition of their own, and nobody but `j` uses what `j` is called with suffix 2. */
  ghost predicate LonePair(lower: Lowering, f: Field, before: Products, after: Products, i: nat, j: nat) {
    && i in before && j in before && i < j && SameGroup(lower, f, before[i], before[j])
    && (forall k :: k in before && k != i && k != j ==> !SameGroup(lower, f, before[k], before[j]))
    && var key := IndexKey(lower, f, Renamed(f, before[j], 2));
       NoneElse(lower, f, before, j, before[j].company, key) && NoneElse(lower, f, after, j, before[j].company, key)
  }

  /** Then `i` stays as it is and `j` takes suffix 2. */
  ghost predicate PairsTakeTwo(lower: Lowering, f: Field, before: Products, after: Products) {
    after.Keys == before.Keys &&
    forall i, j :: LonePair(lower, f, before, after, i, j) ==> after[i] == before[i] && after[j] == Renamed(f, before[j], 2)
  }

  lemma DedupedLaws(lower: Lowering, f: Field, before: Products, after: Products)
    requires KeepsDigits(lower) && Deduped(lower, f, before, after)
    ensures ArchivedKept(before, after) && PairsTakeTwo(lower, f, before, after)
  {
    forall id | id in before && before[id].archived ensures after[id] == before[id] {
      OneColumnWritten(lower, f, before, after, id);
    }
    forall i, j | LonePair(lower, f, before, after, i, j) ensures after[i] == before[i] && after[j] == Renamed(f, before[j], 2) {
      PairTakesTwo(lower, f, before, after, i, j);
    }
  }

  /** A block writes one column, and not of archived rows. */
  lemma OneColumnWritten(lower: Lowering, f: Field, before: Products, after: Products, id: nat)
    requires Deduped(lower, f, before, after) && id in before
    ensures match f
            case Sku => after[id] == before[id].(sku := after[id].sku)
            case BarCode => after[id] == before[id].(barCode := after[id].barCode)
            case Name => after[id] == before[id].(name := after[id].name)
    ensures before[id].archived ==> after[id] == before[id]
  {
    RankIsOwn(lower, f, before, id);
    if Rank(lower, f, before, id) > 1 { var n :| FirstFree(lower, f, before, after, id, n); }
  }

  /** No active product of the company but `j` has the key. */
  ghost predicate NoneElse(lower: Lowering, f: Field, rows: Products, j: nat, company: nat, key: Option<string>) {
    forall k :: k in rows && k != j && !rows[k].archived && rows[k].company == company ==> IndexKey(lower, f, rows[k]) != key
  }

  /** The second of a pair, if nobody else uses suffix 2 before or after the block, takes suffix 2. */
  lemma PairTakesTwo(lower: Lowering, f: Field, before: Products, after: Products, i: nat, j: nat)
    requires KeepsDigits(lower) && Deduped(lower, f, before, after)
    requires LonePair(lower, f, before, after, i, j)
    ensures after[i] == before[i] && after[j] == Renamed(f, before[j], 2)
  {
    forall k | k in before && k < i ensures !SameGroup(lower, f, before[k], before[i]) {
      assert !SameGroup(lower, f, before[k], before[j]);
    }
    RankStarts(lower, f, before, i);
    RankNext(lower, f, before, i, j);
    var n :| FirstFree(lower, f, before, after, j, n);
    CandidatesDiffer(lower, f, before[j], 2, n);
    var key := IndexKey(lower, f, Renamed(f, before[j], 2));
    assert n > 2 ==> Taken(lower, f, before, before[j].company, key) || Taken(lower, f, after, before[j].company, key);
  }

  /** `users` holds one product other than `id` for each candidate from `start` up to `n`, which it uses. */
  ghost predicate Users(lower: Lowering, f: Field, rows: Products, r: Product, id: nat, start: nat, n: nat, users: set<nat>)
    requires Eligible(f, r)
  {
    && users <= Actives(rows, r.company) - {id} && |users| == n - start
    && forall j :: j in users ==>
          exists m: nat :: start <= m < n && IndexKey(lower, f, rows[j]) == IndexKey(lower, f, Renamed(f, r, m))
  }

  lemma UsersAreFew(lower: Lowering, f: Field, rows: Products, r: Product, id: nat, start: nat, n: nat, users: set<nat>)
    requires id in rows && rows[id] == r && Eligible(f, r) && Users(lower, f, rows, r, id, start, n, users)
    ensures |users| < |Actives(rows, r.company)|
  {
    SubsetSize(users, Actives(rows, r.company) - {id});
    assert id in Actives(rows, r.company);
  }

  lemma AnotherUser(lower: Lowering, f: Field, rows: Products, r: Product, id: nat, start: nat, n: nat, users: set<nat>)
    returns (more: set<nat>)
    requires KeepsDigits(lower) && Eligible(f, r) && id in rows && rows[id] == r && start <= n
    requires Users(lower, f, rows, r, id, start, n, users)
    requires Taken(lower, f, rows, r.company, IndexKey(lower, f, Renamed(f, r, n)))
    ensures Users(lower, f, rows, r, id, start, n + 1, more) && |more| == |users| + 1
  {
    var user :| user in Actives(rows, r.company) && IndexKey(lower, f, rows[user]) == IndexKey(lower, f, Renamed(f, r, n));
    CandidatesDiffer(lower, f, r, n, n);
    if user in users {
      var m: nat :| start <= m < n && IndexKey(lower, f, rows[user]) == IndexKey(lower, f, Renamed(f, r, m));
      CandidatesDiffer(lower, f, r, n, m);
    }
    more := users + {user};
  }

  class ProductTable {
    var rows: Products
    const lower: Lowering

    constructor (rows: Products, lower: Lowering)
      ensures this.rows == rows && this.lower == lower
    {
      this.rows := rows;
      this.lower := lower;
    }

    /**
     The inner loop: the first suffix, from the row's rank up, that no active product of
     its company uses.  It ends within as many tries as the company has active products.
     */
    method FirstFreeSuffix(f: Field, r: Product, ghost id: nat, start: nat) returns (n: nat, tries: nat)
      requires KeepsDigits(lower) && Eligible(f, r) && id in rows && rows[id] == r
      ensures n >= start && tries == n - start + 1
      ensures !Taken(lower, f, rows, r.company, IndexKey(lower, f, Renamed(f, r, n)))
      ensures forall m: nat :: start <= m < n ==> Taken(lower, f, rows, r.company, IndexKey(lower, f, Renamed(f, r, m)))
      ensures tries <= |Actives(rows, r.company)|
    {
      n, tries := start, 1;
      // One distinct product for every candidate found in use so far.
      ghost var users: set<nat> := {};
      UsersAreFew(lower, f, rows, r, id, start, n, users);
      while Taken(lower, f, rows, r.company, IndexKey(lower, f, Renamed(f, r, n)))
        invariant n >= start && tries == n - start + 1
        invariant Users(lower, f, rows, r, id, start, n, users) && |users| < |Actives(rows, r.company)|
        invariant forall m: nat :: start <= m < n ==> Taken(lower, f, rows, r.company, IndexKey(lower, f, Renamed(f, r, m)))
        decreases |Actives(rows, r.company)| - |users|
      {
        users := AnotherUser(lower, f, rows, r, id, start, n, users);
        n, tries := n + 1, tries + 1;
        UsersAreFew(lower, f, rows, r, id, start, n, users);
      }
    }

    /** One block: the rows to rename are read once and visited in an arbitrary order. */
    method Dedupe(f: Field)
      requires KeepsDigits(lower)
      modifies this`rows
      ensures Deduped(lower, f, old(rows), rows)
      ensures Unique(lower, f, old(rows)) ==> rows == old(rows)
      ensures ArchivedKept(old(rows), rows) && PairsTakeTwo(lower, f, old(rows), rows)
    {
      var snapshot := rows;
      var todo := Repeated(lower, f, snapshot);
      StartsRenaming(lower, f, snapshot);
      while todo != {}
        invariant Renaming(lower, f, snapshot, rows, todo)
        invariant ClashesPending(lower, f, rows, todo)
        decreases |todo|
      {
        var id :| id in todo;
        var r := snapshot[id];
        RankIsOwn(lower, f, snapshot, id);
        var n, _ := FirstFreeSuffix(f, r, id, Rank(lower, f, snapshot, id));
        FirstFreeIsDone(lower, f, snapshot, rows, todo, id, n);
        AllStillDone(lower, f, snapshot, rows, todo, id, Renamed(f, r, n));
        RenameKeeps(lower, f, snapshot, rows, todo, id, Renamed(f, r, n));
        rows := rows[id := Renamed(f, r, n)];
        todo := todo - {id};
      }
      FinishedIsDeduped(lower, f, snapshot, rows);
      UniqueHasNoWork(lower, f, snapshot);
      DedupedLaws(lower, f, snapshot, rows);
    }

    /** The migration: three blocks, then the three indexes.  It runs in a transaction, so a failed index undoes it all. */
    method Up() returns (ok: bool, ghost afterSku: Products, ghost afterBarCode: Products, ghost afterName: Products)
      requires KeepsDigits(lower)
      modifies this`rows
      ensures ok <==> FewEmptyCodes(lower, Sku, old(rows)) && FewEmptyCodes(lower, BarCode, old(rows))
      ensures Deduped(lower, Sku, old(rows), afterSku)
      ensures Deduped(lower, BarCode, afterSku, afterBarCode)
      ensures Deduped(lower, Name, afterBarCode, afterName)
      ensures rows == if ok then afterName else old(rows)
      ensures forall f :: Unique(lower, f, afterName)
      ensures ok <==> forall f :: Indexable(lower, f, afterName)
      ensures ok <==> EmptyCodesApart(old(rows))
      ensures NothingShared(lower, afterName)
    {
      var before := rows;
      Dedupe(Sku);
      afterSku := rows;
      Dedupe(BarCode);
      afterBarCode := rows;
      Dedupe(Name);
      afterName := rows;
      BlocksMean(lower, before, afterSku, afterBarCode, rows);
      ok := Indexable(lower, Sku, rows) && Indexable(lower, BarCode, rows) && Indexable(lower, Name, rows);
      if !ok {
        rows := before;
      }
    }
  }
}
