/**
 What one `DELETE` does to a database with foreign keys.

 Deleting a row raises one referential action per foreign key that targets its table.
 CASCADE deletes the rows that point at it and SET NULL clears their column; both are
 queued and may run in any order.  RESTRICT is checked at once, when the target is
 deleted; NO ACTION is checked when the statement ends.  A violated check undoes the
 whole statement.
 */
module CascadeDelete {
  import opened Wrappers
  import opened TenantSchema

  datatype RowId = RowId(table: Table, id: nat)

  /** A row is its non-null foreign keys and everything else it holds. */
  datatype Row = Row(links: map<Column, nat>, payload: nat)

  type Rows = map<RowId, Row>

  /** Row `q` points at `r` through the foreign key `k`. */
  predicate PointsAt(cat: Catalog, rows: Rows, q: RowId, k: Key, r: RowId) {
    && k in cat && q in rows && q.table == k.child
    && k.column in rows[q].links
    && r == RowId(cat[k].parent, rows[q].links[k.column])
  }

  /** A referential action that has been raised and not yet run. */
  datatype Action = Action(target: RowId, key: Key)

  datatype Sweep = Sweep(rows: Rows, pending: set<Action>)

  datatype Outcome = Going(sweep: Sweep) | Violation

  /** Some row outside `hits` points into `hits` through a RESTRICT key. */
  predicate Restricted(cat: Catalog, rows: Rows, hits: set<RowId>) {
    exists q, k, r | q in rows && k in cat && r in hits ::
      q !in hits && cat[k].onDelete == Restrict && PointsAt(cat, rows, q, k, r)
  }

  function Raised(cat: Catalog, hits: set<RowId>): set<Action> {
    set r, k | r in hits && k in cat && cat[k].parent == r.table && cat[k].onDelete in {Cascade, SetNull} ::
      Action(r, k)
  }

  /** Deletes the rows `hits`: the RESTRICT check, the removal, the actions it raises. */
  function Erase(cat: Catalog, s: Sweep, hits: set<RowId>): Outcome {
    if Restricted(cat, s.rows, hits) then Violation
    else Going(Sweep(s.rows - hits, s.pending + Raised(cat, hits)))
  }

  function Pointing(cat: Catalog, rows: Rows, a: Action): set<RowId> {
    set q | q in rows && PointsAt(cat, rows, q, a.key, a.target)
  }

  function Unlink(rows: Rows, hits: set<RowId>, c: Column): Rows {
    map q | q in rows :: if q in hits then Row(rows[q].links - {c}, rows[q].payload) else rows[q]
  }

  /** Runs one raised action. */
  function Run(cat: Catalog, s: Sweep, a: Action): Outcome
    requires a in s.pending && a.key in cat
  {
    var hits := Pointing(cat, s.rows, a);
    if cat[a.key].onDelete == Cascade then
      Erase(cat, Sweep(s.rows, s.pending - {a}), hits)
    else
      Going(Sweep(Unlink(s.rows, hits, a.key.column), s.pending - {a}))
  }

  // ------------------------------------------------------------------------
  // The order-free description of what a delete should leave
  // ------------------------------------------------------------------------

  /** `gone` holds the roots and everything that cascades from it. */
  ghost predicate Closed(cat: Catalog, rows: Rows, roots: set<RowId>, gone: set<RowId>) {
    && (forall r :: r in roots && r in rows ==> r in gone)
    && (forall q, k, r :: PointsAt(cat, rows, q, k, r) && cat[k].onDelete == Cascade && r in gone ==> q in gone)
  }

  /** The rows a delete of `roots` must reach: those in every closed set. */
  ghost function Doomed(cat: Catalog, rows: Rows, roots: set<RowId>): set<RowId> {
    set q | q in rows && forall gone :: Closed(cat, rows, roots, gone) ==> q in gone
  }

  /** The column `c` of `q` is cleared because its target is among `gone`. */
  predicate Cleared(cat: Catalog, rows: Rows, gone: set<RowId>, q: RowId, c: Column) {
    && q in rows && c in rows[q].links
    && Key(q.table, c) in cat && cat[Key(q.table, c)].onDelete == SetNull
    && RowId(cat[Key(q.table, c)].parent, rows[q].links[c]) in gone
  }

  /** The database without `gone`, the SET NULL columns that pointed into it cleared. */
  function Swept(cat: Catalog, rows: Rows, gone: set<RowId>): Rows {
    map q | q in rows && q !in gone ::
      Row(map c | c in rows[q].links && !Cleared(cat, rows, gone, q, c) :: rows[q].links[c], rows[q].payload)
  }

  /** A surviving row would still point into `gone` through a key of kind `kind`. */
  predicate Dangling(cat: Catalog, rows: Rows, gone: set<RowId>, kind: OnDelete) {
    exists q, k, r | q in rows && k in cat && r in gone ::
      q !in gone && cat[k].onDelete == kind && PointsAt(cat, rows, q, k, r)
  }

  /** No row, deleted or not, points into `gone` through a RESTRICT key. */
  ghost predicate RestrictFree(cat: Catalog, rows: Rows, gone: set<RowId>) {
    forall q, k, r :: PointsAt(cat, rows, q, k, r) && cat[k].onDelete == Restrict ==> r !in gone
  }

  /** `Doomed` is itself closed, so it is the least closed set. */
  lemma DoomedIsLeastClosed(cat: Catalog, rows: Rows, roots: set<RowId>, gone: set<RowId>)
    requires Closed(cat, rows, roots, gone)
    ensures Doomed(cat, rows, roots) <= gone
    ensures Closed(cat, rows, roots, Doomed(cat, rows, roots))
  {
    var doomed := Doomed(cat, rows, roots);
    forall q, k, r | PointsAt(cat, rows, q, k, r) && cat[k].onDelete == Cascade && r in doomed
      ensures q in doomed
    {
      forall c | Closed(cat, rows, roots, c) ensures q in c {
        assert r in c;
      }
    }
  }

  lemma DoomedClosed(cat: Catalog, rows: Rows, roots: set<RowId>)
    ensures Closed(cat, rows, roots, Doomed(cat, rows, roots))
  {
    assert Closed(cat, rows, roots, rows.Keys);
    DoomedIsLeastClosed(cat, rows, roots, rows.Keys);
  }

  // ------------------------------------------------------------------------
  // What every step of a running delete keeps
  // ------------------------------------------------------------------------

  /** The column was cleared by an action that has already run. */
  ghost predicate Settled(cat: Catalog, rows: Rows, s: Sweep, q: RowId, c: Column) {
    && Cleared(cat, rows, rows.Keys - s.rows.Keys, q, c)
    && Action(RowId(cat[Key(q.table, c)].parent, rows[q].links[c]), Key(q.table, c)) !in s.pending
  }

  /** Row `q` of the running delete is its original with the settled columns cleared. */
  ghost predicate RowKept(cat: Catalog, rows: Rows, s: Sweep, q: RowId)
    requires q in rows && q in s.rows
  {
    && s.rows[q].payload == rows[q].payload
    && (forall c :: c in s.rows[q].links <==> c in rows[q].links && !Settled(cat, rows, s, q, c))
    && (forall c :: c in s.rows[q].links ==> s.rows[q].links[c] == rows[q].links[c])
  }

  ghost predicate Sweeping(cat: Catalog, rows: Rows, roots: set<RowId>, s: Sweep) {
    var gone := rows.Keys - s.rows.Keys;
    && s.rows.Keys <= rows.Keys
    && (forall r :: r in roots && r in rows ==> r in gone)
    && gone <= Doomed(cat, rows, roots)
    && (forall a :: a in s.pending ==>
          a.target in gone && a.key in cat && cat[a.key].parent == a.target.table && cat[a.key].onDelete in {Cascade, SetNull})
    && (forall q :: q in s.rows ==> RowKept(cat, rows, s, q))
    && (forall q, k, r :: q in s.rows && PointsAt(cat, rows, q, k, r) && r in gone ==>
          && cat[k].onDelete != Restrict
          && (cat[k].onDelete == Cascade ==> Action(r, k) in s.pending))
  }

  /** Only SET NULL columns ever differ from the start, so other keys point where they did. */
  lemma PointsAtKept(cat: Catalog, rows: Rows, roots: set<RowId>, s: Sweep, q: RowId, k: Key, r: RowId)
    requires Sweeping(cat, rows, roots, s) && q in s.rows && k in cat
    ensures PointsAt(cat, s.rows, q, k, r) ==> PointsAt(cat, rows, q, k, r)
    ensures cat[k].onDelete != SetNull && PointsAt(cat, rows, q, k, r) ==> PointsAt(cat, s.rows, q, k, r)
    ensures PointsAt(cat, rows, q, k, r) && Action(r, k) in s.pending ==> PointsAt(cat, s.rows, q, k, r)
  {
    assert RowKept(cat, rows, s, q);
    if q.table == k.child {
      assert Key(q.table, k.column) == k;
    }
  }

  lemma EraseKeeps(cat: Catalog, rows: Rows, roots: set<RowId>, s: Sweep, a: Action)
    requires Sweeping(cat, rows, roots, s) && a in s.pending && cat[a.key].onDelete == Cascade
    requires Run(cat, s, a).Going?
    ensures Sweeping(cat, rows, roots, Run(cat, s, a).sweep)
  {
    var hits := Pointing(cat, s.rows, a);
    var s' := Run(cat, s, a).sweep;
    var gone, gone' := rows.Keys - s.rows.Keys, rows.Keys - s'.rows.Keys;
    assert gone' == gone + hits;
    DoomedClosed(cat, rows, roots);
    forall q | q in hits ensures q in Doomed(cat, rows, roots) {
      PointsAtKept(cat, rows, roots, s, q, a.key, a.target);
    }
    forall q | q in s'.rows ensures RowKept(cat, rows, s', q) {
      assert RowKept(cat, rows, s, q);
      forall c | c in rows[q].links ensures Settled(cat, rows, s, q, c) <==> Settled(cat, rows, s', q, c) {
        if Key(q.table, c) in cat {
          var r := RowId(cat[Key(q.table, c)].parent, rows[q].links[c]);
          if r in hits && cat[Key(q.table, c)].onDelete == SetNull {
            assert Action(r, Key(q.table, c)) in Raised(cat, hits);
          }
        }
      }
    }
    forall q, k, r | q in s'.rows && PointsAt(cat, rows, q, k, r) && r in gone'
      ensures cat[k].onDelete != Restrict && (cat[k].onDelete == Cascade ==> Action(r, k) in s'.pending)
    {
      PointsAtKept(cat, rows, roots, s, q, k, r);
      if r in hits && cat[k].onDelete == Cascade {
        assert Action(r, k) in Raised(cat, hits);
      }
    }
  }

  lemma UnlinkKeeps(cat: Catalog, rows: Rows, roots: set<RowId>, s: Sweep, a: Action)
    requires Sweeping(cat, rows, roots, s) && a in s.pending && cat[a.key].onDelete == SetNull
    ensures Sweeping(cat, rows, roots, Run(cat, s, a).sweep)
  {
    var hits := Pointing(cat, s.rows, a);
    var s' := Run(cat, s, a).sweep;
    assert s'.rows.Keys == s.rows.Keys;
    forall q | q in s'.rows ensures RowKept(cat, rows, s', q) {
      assert RowKept(cat, rows, s, q);
      PointsAtKept(cat, rows, roots, s, q, a.key, a.target);
      forall c ensures c in s'.rows[q].links <==> c in rows[q].links && !Settled(cat, rows, s', q, c) {
        if c in rows[q].links && Settled(cat, rows, s', q, c) && !Settled(cat, rows, s, q, c) {
          assert Action(RowId(cat[Key(q.table, c)].parent, rows[q].links[c]), Key(q.table, c)) == a;
          assert PointsAt(cat, rows, q, a.key, a.target);
        }
        if q in hits && c == a.key.column {
          assert Key(q.table, c) == a.key;
        }
      }
    }
  }

  /** Every action that does not fail keeps the running delete on course. */
  lemma RunKeeps(cat: Catalog, rows: Rows, roots: set<RowId>, s: Sweep, a: Action)
    requires Sweeping(cat, rows, roots, s) && a in s.pending
    ensures Run(cat, s, a).Going? ==> Sweeping(cat, rows, roots, Run(cat, s, a).sweep)
  {
    if cat[a.key].onDelete == Cascade {
      if Run(cat, s, a).Going? { EraseKeeps(cat, rows, roots, s, a); }
    } else {
      UnlinkKeeps(cat, rows, roots, s, a);
    }
  }

  lemma StartKeeps(cat: Catalog, rows: Rows, roots: set<RowId>)
    ensures var first := Erase(cat, Sweep(rows, {}), roots * rows.Keys);
            first.Going? ==> Sweeping(cat, rows, roots, first.sweep)
  {
    var hits := roots * rows.Keys;
    var first := Erase(cat, Sweep(rows, {}), hits);
    if first.Going? {
      var s := first.sweep;
      assert rows.Keys - s.rows.Keys == hits;
      DoomedClosed(cat, rows, roots);
      forall q | q in s.rows ensures RowKept(cat, rows, s, q) {
        forall c | c in rows[q].links ensures !Settled(cat, rows, s, q, c) {
          if Key(q.table, c) in cat {
            var r := RowId(cat[Key(q.table, c)].parent, rows[q].links[c]);
            if r in hits && cat[Key(q.table, c)].onDelete == SetNull {
              assert Action(r, Key(q.table, c)) in Raised(cat, hits);
            }
          }
        }
      }
      forall q, k, r | q in s.rows && PointsAt(cat, rows, q, k, r) && r in hits
        ensures cat[k].onDelete != Restrict && (cat[k].onDelete == Cascade ==> Action(r, k) in s.pending)
      {
        if cat[k].onDelete == Cascade { assert Action(r, k) in Raised(cat, hits); }
      }
    }
  }

  /** A delete with nothing left to run has reached the order-free result, whatever the order was. */
  lemma FinishedIsSwept(cat: Catalog, rows: Rows, roots: set<RowId>, s: Sweep)
    requires Sweeping(cat, rows, roots, s) && s.pending == {}
    ensures rows.Keys - s.rows.Keys == Doomed(cat, rows, roots)
    ensures s.rows == Swept(cat, rows, Doomed(cat, rows, roots))
    ensures !Dangling(cat, rows, Doomed(cat, rows, roots), Restrict)
  {
    var gone := rows.Keys - s.rows.Keys;
    assert Closed(cat, rows, roots, gone);
    DoomedIsLeastClosed(cat, rows, roots, gone);
    var swept := Swept(cat, rows, gone);
    forall q | q in s.rows ensures s.rows[q] == swept[q] {
      assert RowKept(cat, rows, s, q);
      assert s.rows[q].links == swept[q].links;
    }
  }

  /** Without RESTRICT pointers into the doomed rows no action can fail. */
  lemma RunCannotFail(cat: Catalog, rows: Rows, roots: set<RowId>, s: Sweep, a: Action)
    requires Sweeping(cat, rows, roots, s) && a in s.pending
    requires RestrictFree(cat, s.rows, Doomed(cat, rows, roots))
    ensures Run(cat, s, a).Going?
    ensures RestrictFree(cat, Run(cat, s, a).sweep.rows, Doomed(cat, rows, roots))
  {
    var hits := Pointing(cat, s.rows, a);
    if cat[a.key].onDelete == Cascade {
      DoomedClosed(cat, rows, roots);
      forall q | q in hits ensures q in Doomed(cat, rows, roots) {
        PointsAtKept(cat, rows, roots, s, q, a.key, a.target);
      }
    }
    var s' := Run(cat, s, a).sweep;
    forall q, k, r | PointsAt(cat, s'.rows, q, k, r) && cat[k].onDelete == Restrict
      ensures r !in Doomed(cat, rows, roots)
    {
      assert PointsAt(cat, s.rows, q, k, r);
    }
  }

  lemma StartCannotFail(cat: Catalog, rows: Rows, roots: set<RowId>)
    requires RestrictFree(cat, rows, Doomed(cat, rows, roots))
    ensures !Restricted(cat, rows, roots * rows.Keys)
    ensures RestrictFree(cat, rows - roots * rows.Keys, Doomed(cat, rows, roots))
  {
    DoomedClosed(cat, rows, roots);
    forall q, k, r | PointsAt(cat, rows - roots * rows.Keys, q, k, r)
      ensures PointsAt(cat, rows, q, k, r)
    {
    }
  }

  /** Each action either deletes a row or leaves one action fewer to run. */
  lemma RunShrinks(cat: Catalog, s: Sweep, a: Action)
    requires a in s.pending && a.key in cat && Run(cat, s, a).Going?
    ensures var s' := Run(cat, s, a).sweep;
            |s'.rows| < |s.rows| || (|s'.rows| == |s.rows| && |s'.pending| < |s.pending|)
  {
    var hits := Pointing(cat, s.rows, a);
    var s' := Run(cat, s, a).sweep;
    assert |s.pending - {a}| == |s.pending| - 1;
    if cat[a.key].onDelete == Cascade {
      assert s'.rows.Keys == s.rows.Keys - hits && |s.rows.Keys - hits| == |s.rows.Keys| - |hits|;
      assert |s'.rows| == |s'.rows.Keys| && |s.rows| == |s.rows.Keys|;
      if hits == {} { assert Raised(cat, hits) == {}; }
    } else {
      assert s'.rows.Keys == s.rows.Keys;
      assert |s'.rows| == |s'.rows.Keys| && |s.rows| == |s.rows.Keys|;
    }
  }

  // ------------------------------------------------------------------------
  // Runs: one delete under one order of its actions
  // ------------------------------------------------------------------------

  function Start(cat: Catalog, rows: Rows, roots: set<RowId>): Outcome {
    Erase(cat, Sweep(rows, {}), roots * rows.Keys)
  }

  /** The outcome of running `schedule` from `o`, if it only runs actions that are pending. */
  function After(cat: Catalog, o: Outcome, schedule: seq<Action>): Option<Outcome>
    decreases |schedule|
  {
    if schedule == [] then Some(o)
    else if o.Violation? || schedule[0] !in o.sweep.pending || schedule[0].key !in cat then None
    else After(cat, Run(cat, o.sweep, schedule[0]), schedule[1..])
  }

  predicate Commits(cat: Catalog, rows: Rows, roots: set<RowId>, schedule: seq<Action>) {
    var end := After(cat, Start(cat, rows, roots), schedule);
    && end.Some? && end.value.Going? && end.value.sweep.pending == {}
    && !Dangling(cat, rows, rows.Keys - end.value.sweep.rows.Keys, NoAction)
  }

  predicate Aborts(cat: Catalog, rows: Rows, roots: set<RowId>, schedule: seq<Action>) {
    var end := After(cat, Start(cat, rows, roots), schedule);
    && end.Some?
    && (end.value.Going? ==>
          && end.value.sweep.pending == {}
          && Dangling(cat, rows, rows.Keys - end.value.sweep.rows.Keys, NoAction))
  }

  lemma {:induction false} AfterKeeps(cat: Catalog, rows: Rows, roots: set<RowId>, s: Sweep, schedule: seq<Action>)
    requires Sweeping(cat, rows, roots, s)
    ensures var end := After(cat, Going(s), schedule);
            end.Some? && end.value.Going? ==> Sweeping(cat, rows, roots, end.value.sweep)
    ensures RestrictFree(cat, s.rows, Doomed(cat, rows, roots)) ==>
              var end := After(cat, Going(s), schedule);
              end.Some? ==> end.value.Going?
    decreases |schedule|
  {
    if schedule != [] && schedule[0] in s.pending {
      RunKeeps(cat, rows, roots, s, schedule[0]);
      if RestrictFree(cat, s.rows, Doomed(cat, rows, roots)) {
        RunCannotFail(cat, rows, roots, s, schedule[0]);
      }
      if Run(cat, s, schedule[0]).Going? {
        AfterKeeps(cat, rows, roots, Run(cat, s, schedule[0]).sweep, schedule[1..]);
      }
    }
  }

  /** Confluence: every order that commits leaves the same database. */
  lemma CommittedRunsAgree(cat: Catalog, rows: Rows, roots: set<RowId>, schedule: seq<Action>)
    requires Commits(cat, rows, roots, schedule)
    ensures After(cat, Start(cat, rows, roots), schedule).value.sweep.rows ==
            Swept(cat, rows, Doomed(cat, rows, roots))
    ensures !Dangling(cat, rows, Doomed(cat, rows, roots), NoAction) && !Dangling(cat, rows, Doomed(cat, rows, roots), Restrict)
  {
    StartKeeps(cat, rows, roots);
    if Start(cat, rows, roots).Going? {
      var s := Start(cat, rows, roots).sweep;
      AfterKeeps(cat, rows, roots, s, schedule);
      FinishedIsSwept(cat, rows, roots, After(cat, Going(s), schedule).value.sweep);
    }
  }

  /** With no RESTRICT pointer into the doomed rows, only a NO ACTION pointer from outside can abort a run. */
  lemma UnrestrictedRunsDoNotAbort(cat: Catalog, rows: Rows, roots: set<RowId>, schedule: seq<Action>)
    requires RestrictFree(cat, rows, Doomed(cat, rows, roots))
    requires !Dangling(cat, rows, Doomed(cat, rows, roots), NoAction)
    ensures !Aborts(cat, rows, roots, schedule)
  {
    StartKeeps(cat, rows, roots);
    StartCannotFail(cat, rows, roots);
    var s := Start(cat, rows, roots).sweep;
    AfterKeeps(cat, rows, roots, s, schedule);
    var end := After(cat, Going(s), schedule);
    if end.Some? && end.value.sweep.pending == {} {
      FinishedIsSwept(cat, rows, roots, end.value.sweep);
    }
  }

  /** From any such state some order runs every action to the end. */
  lemma {:induction false} CanFinish(cat: Catalog, rows: Rows, roots: set<RowId>, s: Sweep) returns (schedule: seq<Action>)
    requires Sweeping(cat, rows, roots, s)
    requires RestrictFree(cat, s.rows, Doomed(cat, rows, roots))
    ensures var end := After(cat, Going(s), schedule);
            end.Some? && end.value.Going? && end.value.sweep.pending == {}
    decreases |s.rows|, |s.pending|
  {
    if s.pending == {} {
      schedule := [];
    } else {
      var a :| a in s.pending;
      RunKeeps(cat, rows, roots, s, a);
      RunCannotFail(cat, rows, roots, s, a);
      RunShrinks(cat, s, a);
      var rest := CanFinish(cat, rows, roots, Run(cat, s, a).sweep);
      schedule := [a] + rest;
    }
  }

  /** Whatever the database, a running delete comes to an end in some order: it finishes or is defeated. */
  lemma {:induction false} RunsOut(cat: Catalog, rows: Rows, roots: set<RowId>, s: Sweep) returns (schedule: seq<Action>)
    requires Sweeping(cat, rows, roots, s)
    ensures var end := After(cat, Going(s), schedule);
            end.Some? && (end.value.Going? ==> end.value.sweep.pending == {})
    decreases |s.rows|, |s.pending|
  {
    if s.pending == {} {
      schedule := [];
    } else {
      var a :| a in s.pending;
      var rest := [];
      if Run(cat, s, a).Going? {
        RunKeeps(cat, rows, roots, s, a);
        RunShrinks(cat, s, a);
        rest := RunsOut(cat, rows, roots, Run(cat, s, a).sweep);
      }
      schedule := [a] + rest;
      AfterFirst(cat, s, a, rest);
    }
  }

  lemma AfterFirst(cat: Catalog, s: Sweep, a: Action, rest: seq<Action>)
    requires a in s.pending && a.key in cat
    ensures After(cat, Going(s), [a] + rest) == After(cat, Run(cat, s, a), rest)
  {
    assert ([a] + rest)[1..] == rest;
  }

  lemma SomeRunEnds(cat: Catalog, rows: Rows, roots: set<RowId>) returns (schedule: seq<Action>)
    ensures Commits(cat, rows, roots, schedule) || Aborts(cat, rows, roots, schedule)
  {
    StartKeeps(cat, rows, roots);
    if Start(cat, rows, roots).Going? {
      schedule := RunsOut(cat, rows, roots, Start(cat, rows, roots).sweep);
    } else {
      schedule := [];
    }
  }

  // ------------------------------------------------------------------------
  // The statement itself
  // ------------------------------------------------------------------------

  class Database {
    var catalog: Catalog
    var rows: Rows

    constructor (catalog: Catalog, rows: Rows)
      ensures this.catalog == catalog && this.rows == rows
    {
      this.catalog := catalog;
      this.rows := rows;
    }

    /** Drops each listed constraint and adds it again, in an arbitrary order. */
    method Alter(statements: Catalog)
      modifies this`catalog
      ensures catalog == old(catalog) + statements
    {
      var left := statements.Keys;
      while left != {}
        invariant left <= statements.Keys
        invariant catalog.Keys == old(catalog).Keys + (statements.Keys - left)
        invariant forall k :: k in catalog ==>
                    catalog[k] == if k in statements && k !in left then statements[k] else old(catalog)[k]
      {
        var k :| k in left;
        catalog := catalog - {k};
        catalog := catalog[k := statements[k]];
        left := left - {k};
      }
    }

    /** Runs the queued actions, and those they raise, in an arbitrary order. */
    method Drain(first: set<Action>, ghost before: Rows, ghost roots: set<RowId>) returns (ok: bool)
      requires Sweeping(catalog, before, roots, Sweep(rows, first))
      modifies this`rows
      ensures ok ==> Sweeping(catalog, before, roots, Sweep(rows, {}))
      ensures RestrictFree(catalog, old(rows), Doomed(catalog, before, roots)) ==> ok
    {
      var pending := first;
      while pending != {}
        invariant Sweeping(catalog, before, roots, Sweep(rows, pending))
        invariant RestrictFree(catalog, old(rows), Doomed(catalog, before, roots)) ==>
                    RestrictFree(catalog, rows, Doomed(catalog, before, roots))
        decreases |rows|, |pending|
      {
        var action :| action in pending;
        ghost var s := Sweep(rows, pending);
        RunKeeps(catalog, before, roots, s, action);
        if RestrictFree(catalog, rows, Doomed(catalog, before, roots)) {
          RunCannotFail(catalog, before, roots, s, action);
        }
        match Run(catalog, Sweep(rows, pending), action)
        case Violation =>
          return false;
        case Going(next) =>
          RunShrinks(catalog, s, action);
          rows, pending := next.rows, next.pending;
      }
      return true;
    }

    /** `DELETE` of the rows `roots`. */
    method Delete(roots: set<RowId>) returns (committed: bool)
      modifies this`rows
      ensures committed ==>
        var doomed := Doomed(catalog, old(rows), roots);
        && rows == Swept(catalog, old(rows), doomed)
        && !Dangling(catalog, old(rows), doomed, NoAction)
        && !Dangling(catalog, old(rows), doomed, Restrict)
      ensures !committed ==> rows == old(rows)
      ensures Restricted(catalog, old(rows), roots * old(rows).Keys) ==> !committed
      ensures RestrictFree(catalog, old(rows), Doomed(catalog, old(rows), roots)) ==>
        (committed <==> !Dangling(catalog, old(rows), Doomed(catalog, old(rows), roots), NoAction))
    {
      var before := rows;
      StartKeeps(catalog, before, roots);
      if RestrictFree(catalog, before, Doomed(catalog, before, roots)) {
        StartCannotFail(catalog, before, roots);
      }
      match Erase(catalog, Sweep(rows, {}), roots * rows.Keys)
      case Violation =>
        return false;
      case Going(first) =>
        rows := first.rows;
        committed := Drain(first.pending, before, roots);
        if committed {
          FinishedIsSwept(catalog, before, roots, Sweep(rows, {}));
          committed := !Dangling(catalog, before, before.Keys - rows.Keys, NoAction);
        }
        if !committed {
          rows := before;
        }
    }
  }
}
