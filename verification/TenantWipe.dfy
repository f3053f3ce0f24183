/**
 Deleting companies: which rows go, what it takes for the other companies to stay as they
 are, and which tables of the current schema still stand in the way.  The statement may
 name several companies, as it does for a main company and its branches.
 */
module TenantWipe {
  import opened Wrappers
  import opened TenantSchema
  import opened CascadeDelete

  function Company(c: nat): RowId {
    RowId(Companies, c)
  }

  function Roots(cs: set<nat>): set<RowId> {
    set c | c in cs :: Company(c)
  }

  ghost predicate Present(rows: Rows, cs: set<nat>) {
    forall c :: c in cs ==> Company(c) in rows
  }

  function Link(rows: Rows, q: RowId, c: Column): Option<nat> {
    if q in rows && c in rows[q].links then Some(rows[q].links[c]) else None
  }

  /** The company a row belongs to.  Login tokens belong to the company of their user; tax rates to none. */
  function Owner(rows: Rows, q: RowId): Option<nat> {
    if q.table == Companies then Some(q.id)
    else if q.table == TaxRates then None
    else if q.table == InventoryShares then Link(rows, q, SourceCompanyId)
    else if q.table in {UserActivationTokens, PasswordResetTokens} then
      if Link(rows, q, UserId).Some? then Link(rows, RowId(Users, rows[q].links[UserId]), CompanyId) else None
    else Link(rows, q, CompanyId)
  }

  predicate Owns(rows: Rows, cs: set<nat>, q: RowId) {
    Owner(rows, q).Some? && Owner(rows, q).value in cs
  }

  function OwnedBy(rows: Rows, cs: set<nat>): set<RowId> {
    set q | q in rows && Owns(rows, cs, q)
  }

  ghost predicate Hangs(cat: Catalog, rows: Rows, q: RowId, r: RowId) {
    exists k :: PointsAt(cat, rows, q, k, r) && cat[k].onDelete == Cascade
  }

  /** `q` hangs from `root` by CASCADE keys, directly or through one more row. */
  ghost predicate HangsFrom(cat: Catalog, rows: Rows, q: RowId, root: RowId) {
    Hangs(cat, rows, q, root) || exists r :: r in rows && Hangs(cat, rows, q, r) && Hangs(cat, rows, r, root)
  }

  /** Every row of the companies hangs from its own. */
  ghost predicate Anchored(cat: Catalog, rows: Rows, cs: set<nat>) {
    forall q :: q in OwnedBy(rows, cs) && q.table != Companies ==> HangsFrom(cat, rows, q, Company(Owner(rows, q).value))
  }

  /** Some row outside `gone` points into it through a key that would change that row. */
  ghost predicate Touched(cat: Catalog, rows: Rows, gone: set<RowId>) {
    exists q, k, r :: PointsAt(cat, rows, q, k, r) && q !in gone && r in gone && cat[k].onDelete in {Cascade, SetNull}
  }

  lemma AnchoredIsDoomed(cat: Catalog, rows: Rows, cs: set<nat>)
    requires Present(rows, cs) && Anchored(cat, rows, cs)
    ensures OwnedBy(rows, cs) <= Doomed(cat, rows, Roots(cs))
  {
    DoomedClosed(cat, rows, Roots(cs));
    forall q | q in OwnedBy(rows, cs)
      ensures q in Doomed(cat, rows, Roots(cs))
    {
      var root := Company(Owner(rows, q).value);
      assert root in Roots(cs);
    }
  }

  /**
   A wipe removes every row of the companies, and it removes and changes nothing else
   exactly when no row of another company points at one of their rows by CASCADE or SET NULL.
   */
  lemma OthersUntouchedIff(cat: Catalog, rows: Rows, cs: set<nat>)
    requires Present(rows, cs) && Anchored(cat, rows, cs)
    ensures OwnedBy(rows, cs) !! Swept(cat, rows, Doomed(cat, rows, Roots(cs))).Keys
    ensures Swept(cat, rows, Doomed(cat, rows, Roots(cs))) == rows - OwnedBy(rows, cs)
            <==> !Touched(cat, rows, OwnedBy(rows, cs))
    ensures !Touched(cat, rows, OwnedBy(rows, cs)) ==> Doomed(cat, rows, Roots(cs)) == OwnedBy(rows, cs)
  {
    var mine, doomed := OwnedBy(rows, cs), Doomed(cat, rows, Roots(cs));
    AnchoredIsDoomed(cat, rows, cs);
    DoomedClosed(cat, rows, Roots(cs));
    if !Touched(cat, rows, mine) {
      assert Closed(cat, rows, Roots(cs), mine);
      DoomedIsLeastClosed(cat, rows, Roots(cs), mine);
      assert doomed == mine;
      SweptUntouched(cat, rows, mine);
    } else {
      var q, k, r :| PointsAt(cat, rows, q, k, r) && q !in mine && r in mine && cat[k].onDelete in {Cascade, SetNull};
      TouchShows(cat, rows, Roots(cs), q, k, r);
      assert q in rows - mine;
    }
  }

  lemma TouchShows(cat: Catalog, rows: Rows, roots: set<RowId>, q: RowId, k: Key, r: RowId)
    requires PointsAt(cat, rows, q, k, r) && r in Doomed(cat, rows, roots)
    requires cat[k].onDelete in {Cascade, SetNull}
    ensures var swept := Swept(cat, rows, Doomed(cat, rows, roots)); q !in swept || swept[q] != rows[q]
  {
    DoomedClosed(cat, rows, roots);
    if cat[k].onDelete == SetNull {
      assert Key(q.table, k.column) == k;
      assert Cleared(cat, rows, Doomed(cat, rows, roots), q, k.column);
    }
  }

  lemma SweptUntouched(cat: Catalog, rows: Rows, gone: set<RowId>)
    requires !Touched(cat, rows, gone)
    ensures Swept(cat, rows, gone) == rows - gone
  {
    var swept := Swept(cat, rows, gone);
    forall q | q in rows && q !in gone ensures swept[q] == rows[q] {
      forall c | c in rows[q].links ensures !Cleared(cat, rows, gone, q, c) {
        if Cleared(cat, rows, gone, q, c) {
          assert PointsAt(cat, rows, q, Key(q.table, c), RowId(cat[Key(q.table, c)].parent, rows[q].links[c]));
        }
      }
      assert swept[q].links == rows[q].links;
    }
  }

  // ------------------------------------------------------------------------
  // How far a wipe reaches
  // ------------------------------------------------------------------------

  ghost function Hanging(cat: Catalog, rows: Rows, from: set<RowId>): set<RowId> {
    set q | q in rows && exists r :: r in from && Hangs(cat, rows, q, r)
  }

  ghost function NearReach(cat: Catalog, rows: Rows, cs: set<nat>): set<RowId> {
    OwnedBy(rows, cs) + Hanging(cat, rows, OwnedBy(rows, cs))
  }

  /** The rows of the companies, those that hang from one of them by CASCADE, and those that hang from these. */
  ghost function Reach(cat: Catalog, rows: Rows, cs: set<nat>): set<RowId> {
    NearReach(cat, rows, cs) + Hanging(cat, rows, NearReach(cat, rows, cs))
  }

  /** A row that hangs from a company belongs to it; one that hangs from any other row is attached. */
  lemma HangsByKind(cat: Catalog, rows: Rows, q: RowId, k: Key, r: RowId)
    requires ShortChains(cat) && PointsAt(cat, rows, q, k, r) && cat[k].onDelete == Cascade
    ensures if r.table == Companies then Owner(rows, q) == Some(r.id) && q.table != Companies
            else Attached(q.table) && (Attached(r.table) ==> r.table == Subscriptions && q.table == SubscriptionPayments)
  {
    assert Shallow(k, cat[k]);
  }

  lemma NearRows(cat: Catalog, rows: Rows, cs: set<nat>, m: RowId)
    requires ShortChains(cat) && m in NearReach(cat, rows, cs)
    ensures m in OwnedBy(rows, cs) || Attached(m.table)
  {
    if m !in OwnedBy(rows, cs) {
      var o :| o in OwnedBy(rows, cs) && Hangs(cat, rows, m, o);
      var k :| PointsAt(cat, rows, m, k, o) && cat[k].onDelete == Cascade;
      HangsByKind(cat, rows, m, k, o);
    }
  }

  /** What hangs from the farther rows of the reach is already in it. */
  lemma FarRows(cat: Catalog, rows: Rows, cs: set<nat>, r: RowId)
    requires ShortChains(cat) && r in Reach(cat, rows, cs) && r !in NearReach(cat, rows, cs)
    ensures r.table == SubscriptionPayments
  {
    var m :| m in NearReach(cat, rows, cs) && Hangs(cat, rows, r, m);
    var k :| PointsAt(cat, rows, r, k, m) && cat[k].onDelete == Cascade;
    NearRows(cat, rows, cs, m);
    HangsByKind(cat, rows, r, k, m);
  }

  /** A row of the reach belongs to the companies or to an attached table. */
  lemma ReachRows(cat: Catalog, rows: Rows, cs: set<nat>, q: RowId)
    requires ShortChains(cat) && q in Reach(cat, rows, cs)
    ensures q in OwnedBy(rows, cs) || Attached(q.table)
  {
    if q in NearReach(cat, rows, cs) { NearRows(cat, rows, cs, q); } else { FarRows(cat, rows, cs, q); }
  }

  lemma ReachIsClosed(cat: Catalog, rows: Rows, cs: set<nat>)
    requires ShortChains(cat)
    ensures Closed(cat, rows, Roots(cs), Reach(cat, rows, cs))
  {
    forall q, k, r | PointsAt(cat, rows, q, k, r) && cat[k].onDelete == Cascade && r in Reach(cat, rows, cs)
      ensures q in Reach(cat, rows, cs)
    {
      assert Hangs(cat, rows, q, r);
      if r !in NearReach(cat, rows, cs) {
        FarRows(cat, rows, cs, r);
        HangsByKind(cat, rows, q, k, r);
      }
    }
  }

  /** In a schema with short chains a wipe dooms exactly its reach, on every database. */
  lemma DoomedIsReach(cat: Catalog, rows: Rows, cs: set<nat>)
    requires ShortChains(cat) && Present(rows, cs) && Anchored(cat, rows, cs)
    ensures Doomed(cat, rows, Roots(cs)) == Reach(cat, rows, cs)
  {
    ReachIsClosed(cat, rows, cs);
    DoomedIsLeastClosed(cat, rows, Roots(cs), Reach(cat, rows, cs));
    AnchoredIsDoomed(cat, rows, cs);
    DoomedClosed(cat, rows, Roots(cs));
    assert NearReach(cat, rows, cs) <= Doomed(cat, rows, Roots(cs));
  }

  /** No row of another company points at a row of these. */
  ghost predicate Enclosed(cat: Catalog, rows: Rows, cs: set<nat>) {
    forall q, k, r :: PointsAt(cat, rows, q, k, r) && r in OwnedBy(rows, cs) ==> q in OwnedBy(rows, cs)
  }

  /** Where tenants are apart the reach is the companies' own rows, and no other row is touched or left dangling. */
  lemma EnclosedReach(cat: Catalog, rows: Rows, cs: set<nat>)
    requires Enclosed(cat, rows, cs)
    ensures Reach(cat, rows, cs) == OwnedBy(rows, cs) && !Touched(cat, rows, OwnedBy(rows, cs))
    ensures forall kind :: !Dangling(cat, rows, Reach(cat, rows, cs), kind)
  {
    assert Hanging(cat, rows, OwnedBy(rows, cs)) <= OwnedBy(rows, cs);
    assert NearReach(cat, rows, cs) == OwnedBy(rows, cs);
  }

  // ------------------------------------------------------------------------
  // The schema before and right after the tenant-cascade migration
  // ------------------------------------------------------------------------

  /** Only tables that exist in the schema hold rows. */
  predicate Tabled(cat: Catalog, rows: Rows) {
    forall q | q in rows :: q.table == Companies || Key(q.table, CompanyId) in cat
  }

  lemma SweepableIsAnchored(cat: Catalog, rows: Rows, cs: set<nat>)
    requires Sweepable(cat) && Tabled(cat, rows)
    ensures Anchored(cat, rows, cs)
  {
    forall q | q in OwnedBy(rows, cs) && q.table != Companies
      ensures HangsFrom(cat, rows, q, Company(Owner(rows, q).value))
    {
      assert PointsAt(cat, rows, q, Key(q.table, CompanyId), Company(Owner(rows, q).value));
      assert Hangs(cat, rows, q, Company(Owner(rows, q).value));
    }
  }

  /**
   In a sweepable schema a wipe reaches the same rows in every order of its actions.  All
   orders commit if no row that stays would dangle, and none does otherwise; of the other
   rows none is changed exactly when none points in by CASCADE or SET NULL.
   */
  lemma SweepableWipe(cat: Catalog, rows: Rows, cs: set<nat>)
    requires Sweepable(cat) && ShortChains(cat) && Tabled(cat, rows) && Present(rows, cs)
    ensures Doomed(cat, rows, Roots(cs)) == Reach(cat, rows, cs) && RestrictFree(cat, rows, Reach(cat, rows, cs))
    ensures if Dangling(cat, rows, Reach(cat, rows, cs), NoAction)
            then forall schedule :: !Commits(cat, rows, Roots(cs), schedule)
            else forall schedule :: !Aborts(cat, rows, Roots(cs), schedule)
    ensures Swept(cat, rows, Reach(cat, rows, cs)) == rows - OwnedBy(rows, cs) <==> !Touched(cat, rows, OwnedBy(rows, cs))
  {
    SweepableIsAnchored(cat, rows, cs);
    DoomedIsReach(cat, rows, cs);
    OthersUntouchedIff(cat, rows, cs);
    if Dangling(cat, rows, Reach(cat, rows, cs), NoAction) {
      DanglingNeverCommits(cat, rows, cs, NoAction);
    } else {
      forall schedule ensures !Aborts(cat, rows, Roots(cs), schedule) {
        UnrestrictedRunsDoNotAbort(cat, rows, Roots(cs), schedule);
      }
    }
  }

  /** A row that stays and points at a doomed one by NO ACTION or RESTRICT defeats every order. */
  lemma DanglingNeverCommits(cat: Catalog, rows: Rows, cs: set<nat>, kind: OnDelete)
    requires kind == NoAction || kind == Restrict
    requires Dangling(cat, rows, Doomed(cat, rows, Roots(cs)), kind)
    ensures forall schedule :: !Commits(cat, rows, Roots(cs), schedule)
  {
    forall schedule ensures !Commits(cat, rows, Roots(cs), schedule) {
      if Commits(cat, rows, Roots(cs), schedule) { CommittedRunsAgree(cat, rows, Roots(cs), schedule); }
    }
  }

  lemma OwnerLink(rows: Rows, cs: set<nat>, q: RowId)
    requires q in OwnedBy(rows, cs)
    requires q.table !in {Companies, InventoryShares, UserActivationTokens, PasswordResetTokens, TaxRates}
    ensures Link(rows, q, CompanyId) == Owner(rows, q)
  {
  }

  lemma RestrictedAtTheRoot(cat: Catalog, rows: Rows, cs: set<nat>, q: RowId, column: Column)
    requires Present(rows, cs) && q in rows && q.table != Companies
    requires Key(q.table, column) in cat && cat[Key(q.table, column)] == Rule(Companies, Restrict)
    requires Link(rows, q, column).Some? && Link(rows, q, column).value in cs
    ensures Restricted(cat, rows, Roots(cs) * rows.Keys)
  {
    var root := Company(Link(rows, q, column).value);
    assert root in Roots(cs) && q !in Roots(cs);
    assert PointsAt(cat, rows, q, Key(q.table, column), root);
  }

  /** Before it, one row of the companies in any table but `subscriptions` was enough to refuse the delete. */
  lemma WipeBeforeUp(rows: Rows, cs: set<nat>, q: RowId)
    requires Present(rows, cs) && Tabled(SchemaBefore(), rows)
    requires q in OwnedBy(rows, cs) && q.table !in {Companies, Subscriptions}
    ensures Restricted(SchemaBefore(), rows, Roots(cs) * rows.Keys)
  {
    BeforeCompanyRule(q.table);
    OwnerLink(rows, cs, q);
    RestrictedAtTheRoot(SchemaBefore(), rows, cs, q, CompanyId);
  }

  method MigrateUp(db: Database)
    requires db.catalog == SchemaBefore()
    modifies db`catalog
    ensures db.catalog == SchemaAfterUp() && Sweepable(db.catalog)
  {
    UpMakesSweepable();
    db.Alter(ForwardStatements());
  }

  method MigrateDown(db: Database)
    requires db.catalog == SchemaAfterUp()
    modifies db`catalog
    ensures db.catalog == SchemaBefore()
  {
    DownUndoesUpIff(SchemaBefore());
    forall k | k in ForwardStatements() ensures k in SchemaBefore() && SchemaBefore()[k] == BackwardStatements()[k] {
      ForwardFacts(k.child, k.column);
    }
    db.Alter(BackwardStatements());
  }

  /** `down` after `up` restores a schema exactly when each of the listed constraints was RESTRICT in it. */
  lemma DownUndoesUpIff(cat: Catalog)
    ensures cat + ForwardStatements() + BackwardStatements() == cat
            <==> forall k :: k in ForwardStatements() ==> k in cat && cat[k] == Rule(ForwardStatements()[k].parent, Restrict)
  {
    var there, back := ForwardStatements(), BackwardStatements();
    assert there.Keys == back.Keys;
    forall k | k in there ensures back[k] == Rule(there[k].parent, Restrict) {
    }
    var restored := cat + there + back;
    if restored == cat {
      forall k | k in there ensures k in cat && cat[k] == Rule(there[k].parent, Restrict) {
        assert k in restored && restored[k] == back[k];
      }
    }
  }

  /**
   A membership of another company goes with the user it belongs to: deleting the
   owner's main company deletes his memberships in the branches.
   */
  lemma MembershipsGoWithTheirUser(cat: Catalog, rows: Rows, cs: set<nat>, member: RowId, user: RowId)
    requires Key(Users, CompanyId) in cat && cat[Key(Users, CompanyId)] == Rule(Companies, Cascade)
    requires Key(CompanyMembers, UserId) in cat && cat[Key(CompanyMembers, UserId)] == Rule(Users, Cascade)
    requires Present(rows, cs) && PointsAt(cat, rows, member, Key(CompanyMembers, UserId), user)
    requires user in OwnedBy(rows, cs)
    ensures member !in Swept(cat, rows, Doomed(cat, rows, Roots(cs)))
  {
    DoomedClosed(cat, rows, Roots(cs));
    var root := Company(Owner(rows, user).value);
    assert root in Roots(cs);
    assert PointsAt(cat, rows, user, Key(Users, CompanyId), root);
  }

  /** On every database; where tenants are apart, the delete commits and removes just the companies' rows. */
  method WipeTenants(db: Database, cs: set<nat>) returns (committed: bool)
    requires db.catalog == SchemaAfterUp() && Tabled(db.catalog, db.rows) && Present(db.rows, cs)
    modifies db`rows
    ensures committed <==> !Dangling(db.catalog, old(db.rows), Reach(db.catalog, old(db.rows), cs), NoAction)
    ensures db.rows == if committed then Swept(db.catalog, old(db.rows), Reach(db.catalog, old(db.rows), cs)) else old(db.rows)
    ensures committed ==> (db.rows == old(db.rows) - OwnedBy(old(db.rows), cs) <==> !Touched(db.catalog, old(db.rows), OwnedBy(old(db.rows), cs)))
    ensures Enclosed(db.catalog, old(db.rows), cs) ==> committed && db.rows == old(db.rows) - OwnedBy(old(db.rows), cs)
  {
    SweptAfterUp(db.rows, cs);
    committed := db.Delete(Roots(cs));
  }

  /** What such a delete dooms, and what it leaves where tenants are apart. */
  lemma SweptAfterUp(rows: Rows, cs: set<nat>)
    requires Tabled(SchemaAfterUp(), rows) && Present(rows, cs)
    ensures Doomed(SchemaAfterUp(), rows, Roots(cs)) == Reach(SchemaAfterUp(), rows, cs)
    ensures RestrictFree(SchemaAfterUp(), rows, Reach(SchemaAfterUp(), rows, cs))
    ensures Swept(SchemaAfterUp(), rows, Reach(SchemaAfterUp(), rows, cs)) == rows - OwnedBy(rows, cs)
            <==> !Touched(SchemaAfterUp(), rows, OwnedBy(rows, cs))
    ensures Enclosed(SchemaAfterUp(), rows, cs) ==>
            && !Dangling(SchemaAfterUp(), rows, Reach(SchemaAfterUp(), rows, cs), NoAction)
            && Swept(SchemaAfterUp(), rows, Reach(SchemaAfterUp(), rows, cs)) == rows - OwnedBy(rows, cs)
  {
    UpMakesSweepable();
    UpIsShort();
    SweepableWipe(SchemaAfterUp(), rows, cs);
    if Enclosed(SchemaAfterUp(), rows, cs) { EnclosedReach(SchemaAfterUp(), rows, cs); }
  }

  // ------------------------------------------------------------------------
  // The latest schema
  // ------------------------------------------------------------------------

  /** A row of a withheld table, of one of the companies or, for a share, going to one of them. */
  predicate Withholds(rows: Rows, cs: set<nat>, q: RowId) {
    && q in rows && Withheld(q.table)
    && (Owns(rows, cs, q) ||
        (q.table == InventoryShares && Link(rows, q, TargetCompanyId).Some? && Link(rows, q, TargetCompanyId).value in cs))
  }

  ghost predicate HasWithheld(rows: Rows, cs: set<nat>) {
    exists q :: Withholds(rows, cs, q)
  }

  /** A loan of one of the companies to a customer of one of them. */
  predicate IsOwnLoan(rows: Rows, cs: set<nat>, q: RowId) {
    && q in OwnedBy(rows, cs) && q.table == Loans
    && CustomerId in rows[q].links && RowId(Customers, rows[q].links[CustomerId]) in OwnedBy(rows, cs)
  }

  ghost predicate HasLoans(rows: Rows, cs: set<nat>) {
    exists q :: IsOwnLoan(rows, cs, q)
  }

  lemma WithheldLink(rows: Rows, cs: set<nat>, q: RowId) returns (column: Column)
    requires Withholds(rows, cs, q)
    ensures Link(rows, q, column).Some? && Link(rows, q, column).value in cs
    ensures if q.table == InventoryShares then column in {SourceCompanyId, TargetCompanyId} else column == CompanyId
  {
    column := if !Owns(rows, cs, q) then TargetCompanyId else if q.table == InventoryShares then SourceCompanyId else CompanyId;
  }

  lemma WithheldRule(cat: Catalog, t: Table, column: Column)
    requires Patched(cat) && Withheld(t)
    requires if t == InventoryShares then column in {SourceCompanyId, TargetCompanyId} else column == CompanyId
    ensures Key(t, column) in cat && cat[Key(t, column)] == Rule(Companies, Restrict)
  {
    if t != InventoryShares { assert CompanyLinked(cat, t); }
  }

  lemma WithheldIsRestricted(cat: Catalog, rows: Rows, cs: set<nat>)
    requires Patched(cat) && Present(rows, cs) && HasWithheld(rows, cs)
    ensures Restricted(cat, rows, Roots(cs) * rows.Keys)
  {
    var q :| Withholds(rows, cs, q);
    var column := WithheldLink(rows, cs, q);
    WithheldRule(cat, q.table, column);
    RestrictedAtTheRoot(cat, rows, cs, q, column);
  }

  lemma HangsByCompany(cat: Catalog, rows: Rows, c: nat, q: RowId)
    requires CompanyLinked(cat, q.table) && !Withheld(q.table) && Link(rows, q, CompanyId) == Some(c)
    ensures Hangs(cat, rows, q, Company(c))
  {
    assert PointsAt(cat, rows, q, Key(q.table, CompanyId), Company(c));
  }

  lemma HangsByUser(cat: Catalog, rows: Rows, c: nat, q: RowId)
    requires CompanyLinked(cat, Users) && OtherLinks(cat)
    requires q in rows && Owner(rows, q) == Some(c) && q.table in {UserActivationTokens, PasswordResetTokens}
    ensures HangsFrom(cat, rows, q, Company(c))
  {
    var user := RowId(Users, rows[q].links[UserId]);
    HangsByCompany(cat, rows, c, user);
    assert PointsAt(cat, rows, q, Key(q.table, UserId), user);
    assert Hangs(cat, rows, q, user);
  }

  lemma HangsLatest(cat: Catalog, rows: Rows, cs: set<nat>, q: RowId)
    requires Patched(cat) && q in OwnedBy(rows, cs) && q.table != Companies && !Withheld(q.table)
    ensures HangsFrom(cat, rows, q, Company(Owner(rows, q).value))
  {
    if q.table in {UserActivationTokens, PasswordResetTokens} {
      assert CompanyLinked(cat, Users) && OtherLinks(cat);
      HangsByUser(cat, rows, Owner(rows, q).value, q);
    } else {
      assert TenantColumn(q.table) == Some(CompanyId) || q.table == Users;
      OwnerLink(rows, cs, q);
      HangsByCompany(cat, rows, Owner(rows, q).value, q);
    }
  }

  lemma LatestIsAnchored(cat: Catalog, rows: Rows, cs: set<nat>)
    requires Patched(cat) && !HasWithheld(rows, cs)
    ensures Anchored(cat, rows, cs)
  {
    forall q | q in OwnedBy(rows, cs) && q.table != Companies
      ensures HangsFrom(cat, rows, q, Company(Owner(rows, q).value))
    {
      assert !Withholds(rows, cs, q);
      HangsLatest(cat, rows, cs, q);
    }
  }

  /** Every RESTRICT pointer into the reach joins a loan of the companies to a customer of theirs. */
  ghost predicate OnlyLoansRestrict(cat: Catalog, rows: Rows, cs: set<nat>) {
    forall q, k, r :: PointsAt(cat, rows, q, k, r) && cat[k].onDelete == Restrict && r in Reach(cat, rows, cs) ==>
      k == Key(Loans, CustomerId) && IsOwnLoan(rows, cs, q)
  }

  /** A RESTRICT pointer at a company comes from a withheld row. */
  lemma RestrictAtCompany(cat: Catalog, rows: Rows, cs: set<nat>, q: RowId, k: Key, r: RowId)
    requires PointsAt(cat, rows, q, k, r) && RestrictPlace(k, cat[k])
    requires r.table == Companies && r.id in cs
    ensures Withholds(rows, cs, q)
  {
  }

  lemma RestrictIntoReach(cat: Catalog, rows: Rows, cs: set<nat>, q: RowId, k: Key, r: RowId)
    requires Patched(cat) && ShortChains(cat) && !HasWithheld(rows, cs)
    requires PointsAt(cat, rows, q, k, r) && cat[k].onDelete == Restrict
    requires q in Reach(cat, rows, cs) && r in Reach(cat, rows, cs)
    ensures k == Key(Loans, CustomerId) && IsOwnLoan(rows, cs, q)
  {
    ReachRows(cat, rows, cs, q);
    ReachRows(cat, rows, cs, r);
    assert RestrictPlace(k, cat[k]) && !Withholds(rows, cs, q);
    if r.table == Companies { RestrictAtCompany(cat, rows, cs, q, k, r); }
    RestrictAtCustomer(cat, rows, cs, q, k, r);
  }

  lemma RestrictAtCustomer(cat: Catalog, rows: Rows, cs: set<nat>, q: RowId, k: Key, r: RowId)
    requires PointsAt(cat, rows, q, k, r) && RestrictPlace(k, cat[k]) && r.table != Companies && !Withholds(rows, cs, q)
    requires q in OwnedBy(rows, cs) || Attached(q.table)
    requires r in OwnedBy(rows, cs) || Attached(r.table)
    ensures k == Key(Loans, CustomerId) && IsOwnLoan(rows, cs, q)
  {
  }

  lemma LatestOnlyLoans(cat: Catalog, rows: Rows, cs: set<nat>)
    requires Patched(cat) && ShortChains(cat) && !HasWithheld(rows, cs) && !Dangling(cat, rows, Reach(cat, rows, cs), Restrict)
    ensures OnlyLoansRestrict(cat, rows, cs)
  {
    forall q, k, r | PointsAt(cat, rows, q, k, r) && cat[k].onDelete == Restrict && r in Reach(cat, rows, cs)
      ensures k == Key(Loans, CustomerId) && IsOwnLoan(rows, cs, q)
    {
      RestrictIntoReach(cat, rows, cs, q, k, r);
    }
  }

  lemma LoansSpareTheRoots(cat: Catalog, rows: Rows, cs: set<nat>)
    requires Key(Loans, CustomerId) in cat && cat[Key(Loans, CustomerId)].parent == Customers
    requires OnlyLoansRestrict(cat, rows, cs)
    ensures !Restricted(cat, rows, Roots(cs) * rows.Keys)
  {
  }

  /**
   The companies have no withheld row, and no row that stays would still point at one that
   goes by NO ACTION or RESTRICT.
   */
  ghost predicate MayGo(cat: Catalog, rows: Rows, cs: set<nat>) {
    && !HasWithheld(rows, cs)
    && !Dangling(cat, rows, Reach(cat, rows, cs), NoAction)
    && !Dangling(cat, rows, Reach(cat, rows, cs), Restrict)
  }

  lemma PatchedWipe(cat: Catalog, rows: Rows, cs: set<nat>)
    requires Patched(cat) && ShortChains(cat) && Present(rows, cs)
    ensures HasWithheld(rows, cs) ==> Restricted(cat, rows, Roots(cs) * rows.Keys)
    ensures !HasWithheld(rows, cs) ==>
              && Doomed(cat, rows, Roots(cs)) == Reach(cat, rows, cs)
              && (Swept(cat, rows, Reach(cat, rows, cs)) == rows - OwnedBy(rows, cs) <==> !Touched(cat, rows, OwnedBy(rows, cs)))
    ensures MayGo(cat, rows, cs) ==> OnlyLoansRestrict(cat, rows, cs) && !Restricted(cat, rows, Roots(cs) * rows.Keys)
  {
    if HasWithheld(rows, cs) {
      WithheldIsRestricted(cat, rows, cs);
    } else {
      LatestIsAnchored(cat, rows, cs);
      DoomedIsReach(cat, rows, cs);
      OthersUntouchedIff(cat, rows, cs);
      if MayGo(cat, rows, cs) {
        LatestOnlyLoans(cat, rows, cs);
        assert OtherLinks(cat);
        LoansSpareTheRoots(cat, rows, cs);
      }
    }
  }

  /** What the shape of the latest schema says about wiping `cs`, on every database. */
  lemma LatestWipe(rows: Rows, cs: set<nat>)
    requires Present(rows, cs)
    ensures HasWithheld(rows, cs) ==> Restricted(SchemaLatest(), rows, Roots(cs) * rows.Keys)
    ensures !HasWithheld(rows, cs) ==>
              && Doomed(SchemaLatest(), rows, Roots(cs)) == Reach(SchemaLatest(), rows, cs)
              && (Swept(SchemaLatest(), rows, Reach(SchemaLatest(), rows, cs)) == rows - OwnedBy(rows, cs) <==>
                  !Touched(SchemaLatest(), rows, OwnedBy(rows, cs)))
    ensures MayGo(SchemaLatest(), rows, cs) ==>
              OnlyLoansRestrict(SchemaLatest(), rows, cs) && !Restricted(SchemaLatest(), rows, Roots(cs) * rows.Keys)
  {
    LatestIsPatched();
    LatestIsShort();
    PatchedWipe(SchemaLatest(), rows, cs);
  }

  // ------------------------------------------------------------------------
  // Loans
  // ------------------------------------------------------------------------

  /** Deleting the customers while a loan still points at one of them fails. */
  lemma LoansAbort(cat: Catalog, rows: Rows, cs: set<nat>, c: nat, loan: RowId) returns (schedule: seq<Action>)
    requires Key(Loans, CustomerId) in cat && cat[Key(Loans, CustomerId)] == Rule(Customers, Restrict)
    requires Key(Customers, CompanyId) in cat && cat[Key(Customers, CompanyId)] == Rule(Companies, Cascade)
    requires Present(rows, cs) && c in cs && loan in rows && loan.table == Loans && CustomerId in rows[loan].links
    requires Link(rows, RowId(Customers, rows[loan].links[CustomerId]), CompanyId) == Some(c)
    requires !Restricted(cat, rows, Roots(cs) * rows.Keys)
    ensures Aborts(cat, rows, Roots(cs), schedule)
  {
    var customer := RowId(Customers, rows[loan].links[CustomerId]);
    var a := Action(Company(c), Key(Customers, CompanyId));
    var s := Start(cat, rows, Roots(cs)).sweep;
    var hits := Pointing(cat, s.rows, a);
    assert Company(c) in Roots(cs);
    assert a in Raised(cat, Roots(cs) * rows.Keys);
    assert PointsAt(cat, s.rows, customer, a.key, Company(c));
    assert loan !in hits && customer in hits;
    assert PointsAt(cat, s.rows, loan, Key(Loans, CustomerId), customer);
    schedule := [a];
    assert After(cat, Run(cat, s, a), schedule[1..]) == Some(Violation);
  }

  /** Nothing points at loans, and a loan points at its company by CASCADE. */
  predicate LoansGoFreely(cat: Catalog) {
    && (forall k | k in cat :: cat[k].parent != Loans)
    && Key(Loans, CompanyId) in cat && cat[Key(Loans, CompanyId)] == Rule(Companies, Cascade)
  }

  function LoanAction(c: nat): Action {
    Action(Company(c), Key(Loans, CompanyId))
  }

  /** The loans of the companies `left` are still to go, and no other RESTRICT pointer reaches the doomed rows. */
  ghost predicate LoansLeft(cat: Catalog, doomed: set<RowId>, s: Sweep, left: set<nat>) {
    && (forall c :: c in left ==> LoanAction(c) in s.pending)
    && forall q, k, r :: PointsAt(cat, s.rows, q, k, r) && cat[k].onDelete == Restrict && r in doomed ==>
         q.table == Loans && Link(s.rows, q, CompanyId).Some? && Link(s.rows, q, CompanyId).value in left
  }

  lemma LoanActionRuns(cat: Catalog, doomed: set<RowId>, s: Sweep, left: set<nat>, c: nat)
    requires LoansGoFreely(cat) && LoansLeft(cat, doomed, s, left) && c in left
    ensures Run(cat, s, LoanAction(c)).Going?
    ensures LoansLeft(cat, doomed, Run(cat, s, LoanAction(c)).sweep, left - {c})
  {
    var a := LoanAction(c);
    var hits := Pointing(cat, s.rows, a);
    assert !Restricted(cat, s.rows, hits);
    var s' := Run(cat, s, a).sweep;
    assert s'.rows == s.rows - hits;
    forall q, k, r | PointsAt(cat, s'.rows, q, k, r) && cat[k].onDelete == Restrict && r in doomed
      ensures q.table == Loans && Link(s'.rows, q, CompanyId).Some? && Link(s'.rows, q, CompanyId).value in left - {c}
    {
      assert PointsAt(cat, s.rows, q, k, r);
      assert Link(s.rows, q, CompanyId) == Some(c) ==> q in hits;
    }
    forall d | d in left - {c}
      ensures LoanAction(d) in s'.pending
    {
      assert LoanAction(d) != a;
    }
  }

  /** Deleting the loans first, company by company, clears the way. */
  lemma {:induction false} LoansFirst(cat: Catalog, rows: Rows, roots: set<RowId>, s: Sweep, left: set<nat>)
    returns (schedule: seq<Action>)
    requires LoansGoFreely(cat) && Sweeping(cat, rows, roots, s) && LoansLeft(cat, Doomed(cat, rows, roots), s, left)
    ensures var end := After(cat, Going(s), schedule);
            end.Some? && end.value.Going? && end.value.sweep.pending == {}
    decreases left
  {
    if left == {} {
      schedule := CanFinish(cat, rows, roots, s);
    } else {
      var c :| c in left;
      LoanActionRuns(cat, Doomed(cat, rows, roots), s, left, c);
      RunKeeps(cat, rows, roots, s, LoanAction(c));
      var rest := LoansFirst(cat, rows, roots, Run(cat, s, LoanAction(c)).sweep, left - {c});
      schedule := [LoanAction(c)] + rest;
      assert schedule[1..] == rest;
    }
  }

  lemma StartLoansLeft(cat: Catalog, rows: Rows, cs: set<nat>)
    requires LoansGoFreely(cat) && OnlyLoansRestrict(cat, rows, cs) && Present(rows, cs)
    requires !Restricted(cat, rows, Roots(cs) * rows.Keys)
    ensures LoansLeft(cat, Reach(cat, rows, cs), Start(cat, rows, Roots(cs)).sweep, cs)
  {
    var s := Start(cat, rows, Roots(cs)).sweep;
    forall c | c in cs
      ensures LoanAction(c) in s.pending
    {
      assert Company(c) in Roots(cs);
      assert LoanAction(c) in Raised(cat, Roots(cs) * rows.Keys);
    }
    forall q, k, r | PointsAt(cat, s.rows, q, k, r) && cat[k].onDelete == Restrict && r in Reach(cat, rows, cs)
      ensures q.table == Loans && Link(s.rows, q, CompanyId).Some? && Link(s.rows, q, CompanyId).value in cs
    {
      assert PointsAt(cat, rows, q, k, r);
      OwnerLink(rows, cs, q);
    }
  }

  lemma LoansFirstCommits(cat: Catalog, rows: Rows, cs: set<nat>) returns (schedule: seq<Action>)
    requires LoansGoFreely(cat) && OnlyLoansRestrict(cat, rows, cs) && Present(rows, cs)
    requires Doomed(cat, rows, Roots(cs)) == Reach(cat, rows, cs) && !Dangling(cat, rows, Reach(cat, rows, cs), NoAction)
    requires !Restricted(cat, rows, Roots(cs) * rows.Keys)
    ensures Commits(cat, rows, Roots(cs), schedule)
  {
    var roots := Roots(cs);
    StartKeeps(cat, rows, roots);
    StartLoansLeft(cat, rows, cs);
    var s := Start(cat, rows, roots).sweep;
    schedule := LoansFirst(cat, rows, roots, s, cs);
    AfterKeeps(cat, rows, roots, s, schedule);
    FinishedIsSwept(cat, rows, roots, After(cat, Going(s), schedule).value.sweep);
  }

  lemma NoLoansNoRestrict(cat: Catalog, rows: Rows, cs: set<nat>)
    requires OnlyLoansRestrict(cat, rows, cs) && !HasLoans(rows, cs)
    ensures RestrictFree(cat, rows, Reach(cat, rows, cs))
  {
  }

  lemma LatestLoansAbort(rows: Rows, cs: set<nat>) returns (schedule: seq<Action>)
    requires Present(rows, cs) && HasLoans(rows, cs)
    ensures Aborts(SchemaLatest(), rows, Roots(cs), schedule)
  {
    if Restricted(SchemaLatest(), rows, Roots(cs) * rows.Keys) {
      schedule := [];
    } else {
      var loan :| IsOwnLoan(rows, cs, loan);
      var customer := RowId(Customers, rows[loan].links[CustomerId]);
      LatestLoanRules();
      LatestLoanCompany();
      OwnerLink(rows, cs, customer);
      schedule := LoansAbort(SchemaLatest(), rows, cs, Owner(rows, customer).value, loan);
    }
  }

  // ------------------------------------------------------------------------
  // When a wipe commits, on every database
  // ------------------------------------------------------------------------

  lemma WithheldNeverCommits(rows: Rows, cs: set<nat>)
    requires Present(rows, cs) && HasWithheld(rows, cs)
    ensures forall schedule :: !Commits(SchemaLatest(), rows, Roots(cs), schedule)
  {
    LatestWipe(rows, cs);
  }

  lemma LatestSomeCommits(rows: Rows, cs: set<nat>) returns (schedule: seq<Action>)
    requires Present(rows, cs) && MayGo(SchemaLatest(), rows, cs)
    ensures Commits(SchemaLatest(), rows, Roots(cs), schedule)
  {
    LatestWipe(rows, cs);
    LatestLoanRules();
    LatestLoanCompany();
    schedule := LoansFirstCommits(SchemaLatest(), rows, cs);
  }

  /**
   Some order commits exactly when the companies have no withheld rows and no row that
   stays points at one that goes by NO ACTION or RESTRICT.
   */
  lemma SomeRunCommitsIff(rows: Rows, cs: set<nat>)
    requires Present(rows, cs)
    ensures (exists schedule :: Commits(SchemaLatest(), rows, Roots(cs), schedule)) <==> MayGo(SchemaLatest(), rows, cs)
  {
    var cat := SchemaLatest();
    LatestWipe(rows, cs);
    if MayGo(cat, rows, cs) {
      var schedule := LatestSomeCommits(rows, cs);
    } else if HasWithheld(rows, cs) {
      WithheldNeverCommits(rows, cs);
    } else if Dangling(cat, rows, Reach(cat, rows, cs), NoAction) {
      DanglingNeverCommits(cat, rows, cs, NoAction);
    } else {
      DanglingNeverCommits(cat, rows, cs, Restrict);
    }
  }

  /** Every order commits exactly when, besides, none of their loans is to one of their customers. */
  lemma EveryRunCommitsIff(rows: Rows, cs: set<nat>)
    requires Present(rows, cs)
    ensures (forall schedule :: !Aborts(SchemaLatest(), rows, Roots(cs), schedule))
            <==> MayGo(SchemaLatest(), rows, cs) && !HasLoans(rows, cs)
  {
    var cat, roots := SchemaLatest(), Roots(cs);
    LatestWipe(rows, cs);
    SomeRunCommitsIff(rows, cs);
    if HasLoans(rows, cs) {
      var schedule := LatestLoansAbort(rows, cs);
    } else if MayGo(cat, rows, cs) {
      NoLoansNoRestrict(cat, rows, cs);
      forall schedule ensures !Aborts(cat, rows, roots, schedule) {
        UnrestrictedRunsDoNotAbort(cat, rows, roots, schedule);
      }
    } else {
      var schedule := SomeRunEnds(cat, rows, roots);
    }
  }

  /**
   What a committed wipe leaves is the same for every order: all rows outside its reach, and
   these as they were exactly when none of another company points in by CASCADE or SET NULL.
   */
  lemma CommittedWipe(rows: Rows, cs: set<nat>, schedule: seq<Action>)
    requires Present(rows, cs) && Commits(SchemaLatest(), rows, Roots(cs), schedule)
    ensures var after := After(SchemaLatest(), Start(SchemaLatest(), rows, Roots(cs)), schedule).value.sweep.rows;
            && after == Swept(SchemaLatest(), rows, Reach(SchemaLatest(), rows, cs))
            && after.Keys == rows.Keys - Reach(SchemaLatest(), rows, cs)
            && (after == rows - OwnedBy(rows, cs) <==> !Touched(SchemaLatest(), rows, OwnedBy(rows, cs)))
  {
    CommittedRunsAgree(SchemaLatest(), rows, Roots(cs), schedule);
    SomeRunCommitsIff(rows, cs);
    LatestWipe(rows, cs);
  }

  /**
   A branch may sell products that its main company shares with it.  One such sale of another
   company, its line pointing at a product of these, defeats every order.
   */
  lemma SharedSaleHoldsBack(rows: Rows, cs: set<nat>, line: RowId, product: RowId)
    requires Present(rows, cs) && product in OwnedBy(rows, cs)
    requires line.table == SaleInvoiceLines && PointsAt(SchemaLatest(), rows, line, Key(SaleInvoiceLines, ProductId), product)
    requires line !in OwnedBy(rows, cs)
    requires SaleInvoiceId in rows[line].links ==> RowId(SaleInvoices, rows[line].links[SaleInvoiceId]) !in OwnedBy(rows, cs)
    ensures forall schedule :: !Commits(SchemaLatest(), rows, Roots(cs), schedule)
  {
    LatestIsShort();
    LatestSaleLineKeys();
    LineStays(SchemaLatest(), rows, cs, line);
    assert Dangling(SchemaLatest(), rows, Reach(SchemaLatest(), rows, cs), NoAction);
    SomeRunCommitsIff(rows, cs);
  }

  lemma LineHangsFrom(cat: Catalog, rows: Rows, line: RowId, o: RowId)
    requires ShortChains(cat) && SaleLineKeys(cat) && line.table == SaleInvoiceLines && Hangs(cat, rows, line, o)
    ensures || (o.table == Companies && Owner(rows, line) == Some(o.id))
            || (SaleInvoiceId in rows[line].links && o == RowId(SaleInvoices, rows[line].links[SaleInvoiceId]))
  {
    var k :| PointsAt(cat, rows, line, k, o) && cat[k].onDelete == Cascade;
    HangsByKind(cat, rows, line, k, o);
  }

  lemma LineStays(cat: Catalog, rows: Rows, cs: set<nat>, line: RowId)
    requires ShortChains(cat) && SaleLineKeys(cat)
    requires line.table == SaleInvoiceLines && line in rows && line !in OwnedBy(rows, cs)
    requires SaleInvoiceId in rows[line].links ==> RowId(SaleInvoices, rows[line].links[SaleInvoiceId]) !in OwnedBy(rows, cs)
    ensures line !in Reach(cat, rows, cs)
  {
    forall o | o in OwnedBy(rows, cs)
      ensures !Hangs(cat, rows, line, o)
    {
      if Hangs(cat, rows, line, o) { LineHangsFrom(cat, rows, line, o); }
    }
    if line in Reach(cat, rows, cs) { FarRows(cat, rows, cs, line); }
  }

  // ------------------------------------------------------------------------
  // Deleting a tenant: a main company goes with the branches of its users
  // ------------------------------------------------------------------------

  /** The membership `m` joins a user of company `c` to the branch `b`. */
  predicate JoinsBranch(rows: Rows, branches: set<nat>, c: nat, m: RowId, b: nat) {
    && m in rows && m.table == CompanyMembers && b in branches
    && Link(rows, m, CompanyId) == Some(b) && Company(b) in rows
    && Link(rows, m, UserId).Some? && Link(rows, RowId(Users, Link(rows, m, UserId).value), CompanyId) == Some(c)
  }

  /** The companies named by the statement. */
  function DeletedWith(rows: Rows, branches: set<nat>, c: nat): set<nat> {
    {c} + (if c in branches then {}
           else set m, b | m in rows && b in branches && JoinsBranch(rows, branches, c, m, b) :: b)
  }

  /** The row `m` of `company_members` makes the user `u` of company `c` a member of company `b`. */
  predicate IsMembership(rows: Rows, m: nat, u: nat, c: nat, b: nat) {
    var member, user := RowId(CompanyMembers, m), RowId(Users, u);
    && member in rows && user in rows
    && CompanyId in rows[member].links && rows[member].links[CompanyId] == b
    && UserId in rows[member].links && rows[member].links[UserId] == u
    && CompanyId in rows[user].links && rows[user].links[CompanyId] == c
  }

  lemma MembersAreDeletedWith(rows: Rows, branches: set<nat>, c: nat, d: nat)
    requires Company(d) in rows && d != c
    ensures d in DeletedWith(rows, branches, c) <==>
            c !in branches && d in branches && exists m: nat, u: nat :: IsMembership(rows, m, u, c, d)
  {
    if c !in branches && d in branches {
      if m: nat, u: nat :| IsMembership(rows, m, u, c, d) {
        assert JoinsBranch(rows, branches, c, RowId(CompanyMembers, m), d);
      }
      if m :| m in rows && JoinsBranch(rows, branches, c, m, d) {
        assert m == RowId(CompanyMembers, m.id);
        assert IsMembership(rows, m.id, rows[m].links[UserId], c, d);
      }
    }
  }

  /** Of the companies a wipe takes just those it names. */
  lemma CompaniesReached(rows: Rows, cs: set<nat>, d: nat)
    requires Company(d) in rows
    ensures Company(d) in Reach(SchemaLatest(), rows, cs) <==> d in cs
  {
    LatestIsShort();
    if Company(d) in Reach(SchemaLatest(), rows, cs) { ReachRows(SchemaLatest(), rows, cs, Company(d)); }
  }

  datatype Deletion = NotFound | Refused | Deleted

  /**
   All or nothing, on every database.  A tenant goes only when it and its branches have no
   withheld row and no row that stays would hold one of theirs back, and then certainly if
   they have no loans; with it go the branches its users were members of.
   */
  method DeleteTenant(db: Database, branches: set<nat>, c: nat) returns (r: Deletion)
    requires db.catalog == SchemaLatest()
    modifies db`rows
    ensures r == NotFound <==> Company(c) !in old(db.rows)
    ensures r != Deleted ==> db.rows == old(db.rows)
    ensures var cs := DeletedWith(old(db.rows), branches, c);
            && (r == Deleted ==> MayGo(db.catalog, old(db.rows), cs))
            && (r != NotFound && MayGo(db.catalog, old(db.rows), cs) && !HasLoans(old(db.rows), cs) ==> r == Deleted)
            && (r == Deleted ==>
                  && db.rows == Swept(db.catalog, old(db.rows), Reach(db.catalog, old(db.rows), cs))
                  && OwnedBy(old(db.rows), cs) !! db.rows.Keys
                  && (db.rows == old(db.rows) - OwnedBy(old(db.rows), cs) <==> !Touched(db.catalog, old(db.rows), OwnedBy(old(db.rows), cs))))
    ensures r == Deleted ==> Company(c) !in db.rows
    ensures r == Deleted ==> forall d | d != c && Company(d) in old(db.rows) ::
              Company(d) !in db.rows <==> c !in branches && d in branches && exists m: nat, u: nat :: IsMembership(old(db.rows), m, u, c, d)
  {
    if Company(c) !in db.rows { return NotFound; }
    var cs := DeletedWith(db.rows, branches, c);
    assert Present(db.rows, cs);
    LatestWipe(db.rows, cs);
    if MayGo(db.catalog, db.rows, cs) && !HasLoans(db.rows, cs) { NoLoansNoRestrict(db.catalog, db.rows, cs); }
    ghost var before := db.rows;
    var committed := db.Delete(Roots(cs));
    if committed {
      CompaniesReached(before, cs, c);
      forall d | d != c && Company(d) in before
        ensures Company(d) !in db.rows <==> c !in branches && d in branches && exists m: nat, u: nat :: IsMembership(before, m, u, c, d)
      {
        CompaniesReached(before, cs, d);
        MembersAreDeletedWith(before, branches, c, d);
      }
    }
    return if committed then Deleted else Refused;
  }
}
