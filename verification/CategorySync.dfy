/**
 The backfill that gives every presentation the category of its base product: one UPDATE,
 whose new values are all read before any row is written.
 */
module CategorySync {
  import opened Wrappers

  /** What the update reads of a product besides its category. */
  datatype Product = Product(company: nat, parent: Option<nat>)

  type Tree = map<nat, Product>

  /** The category of every product; None where the column is NULL. */
  type Categories = nat -> Option<nat>

  /** The row the update joins a product with: its parent, within the same company. */
  predicate IsBase(tree: Tree, id: nat, base: nat) {
    id in tree && base in tree && tree[id].parent == Some(base) && tree[base].company == tree[id].company
  }

  predicate IsRoot(tree: Tree, id: nat) {
    id !in tree || tree[id].parent.None? || !IsBase(tree, id, tree[id].parent.value)
  }

  /** The product whose category a row takes: its base, or itself where there is none. */
  function Source(tree: Tree, id: nat): nat {
    if IsRoot(tree, id) then id else tree[id].parent.value
  }

  /** The categories after the update. */
  function Synced(tree: Tree, cat: Categories): Categories {
    id => cat(Source(tree, id))
  }

  /** The rows the update writes. */
  function Misaligned(tree: Tree, cat: Categories): set<nat> {
    set id | id in tree && cat(Source(tree, id)) != cat(id)
  }

  /** The categories after `k` runs of the update. */
  function Runs(tree: Tree, cat: Categories, k: nat): Categories {
    if k == 0 then cat else Synced(tree, Runs(tree, cat, k - 1))
  }

  /** `k` steps up from a product, staying at a root. */
  function Ancestor(tree: Tree, id: nat, k: nat): nat {
    if k == 0 then id else Source(tree, Ancestor(tree, id, k - 1))
  }

  /** `id` is at depth `k` or less. */
  predicate Within(tree: Tree, id: nat, k: nat) {
    IsRoot(tree, Ancestor(tree, id, k))
  }

  /** The CHECK of the table: no product is its own parent. */
  ghost predicate NoSelfParent(tree: Tree) {
    forall id | id in tree :: tree[id].parent != Some(id)
  }

  // ------------------------------------------------------------------------
  // The update
  // ------------------------------------------------------------------------

  function CategoryColumn(column: map<nat, nat>): Categories {
    id => if id in column then Some(column[id]) else None
  }

  /** A row of `todo` is as it was; any other is updated. */
  predicate RowIs(tree: Tree, before: Categories, now: Categories, todo: set<nat>, id: nat) {
    now(id) == before(if id in todo then id else Source(tree, id))
  }

  ghost predicate Partly(tree: Tree, before: Categories, now: Categories, todo: set<nat>) {
    forall id: nat :: RowIs(tree, before, now, todo, id)
  }

  lemma NothingWritten(tree: Tree, before: Categories)
    ensures Partly(tree, before, before, Misaligned(tree, before))
  {
    forall id: nat
      ensures RowIs(tree, before, before, Misaligned(tree, before), id)
    {
      if id !in tree { assert IsRoot(tree, id); }
    }
  }

  lemma OneWritten(tree: Tree, before: Categories, now: Categories, next: Categories, todo: set<nat>, child: nat)
    requires Partly(tree, before, now, todo) && child in todo
    requires forall id: nat :: next(id) == if id == child then before(Source(tree, child)) else now(id)
    ensures Partly(tree, before, next, todo - {child})
  {
    forall id: nat
      ensures RowIs(tree, before, next, todo - {child}, id)
    {
      assert RowIs(tree, before, now, todo, id);
    }
  }

  lemma AllWritten(tree: Tree, before: Categories, now: Categories, id: nat)
    requires Partly(tree, before, now, {})
    ensures now(id) == Synced(tree, before)(id)
  {
    assert RowIs(tree, before, now, {}, id);
  }

  /** The row has a parent in the table, of its own company, whose category is `category`. */
  predicate ParentHas(tree: Tree, column: map<nat, nat>, id: nat, category: Option<nat>) {
    && id in tree && tree[id].parent.Some?
    && var parent := tree[id].parent.value;
       && parent in tree && tree[parent].company == tree[id].company
       && category == if parent in column then Some(column[parent]) else None
  }

  /** A row with such a parent takes the category that its parent had; any other keeps its own. */
  ghost predicate TakesItsParents(tree: Tree, before: map<nat, nat>, after: map<nat, nat>, id: nat) {
    var category := if id in after then Some(after[id]) else None;
    if exists c :: ParentHas(tree, before, id, c) then ParentHas(tree, before, id, category)
    else category == if id in before then Some(before[id]) else None
  }

  /** The rows whose category differs from that of such a parent. */
  function Differing(tree: Tree, before: map<nat, nat>): set<nat> {
    set id | id in tree && tree[id].parent.Some? && tree[id].parent.value in tree
             && tree[tree[id].parent.value].company == tree[id].company
             && (if id in before then Some(before[id]) else None)
                != (if tree[id].parent.value in before then Some(before[tree[id].parent.value]) else None)
  }

  lemma SyncedTakesParents(tree: Tree, before: map<nat, nat>, after: map<nat, nat>, id: nat)
    requires CategoryColumn(after)(id) == CategoryColumn(before)(Source(tree, id))
    ensures TakesItsParents(tree, before, after, id)
  {
    if IsRoot(tree, id) {
      forall c
        ensures !ParentHas(tree, before, id, c)
      {
        assert ParentHas(tree, before, id, c) ==> IsBase(tree, id, tree[id].parent.value);
      }
    } else {
      assert ParentHas(tree, before, id, CategoryColumn(before)(tree[id].parent.value));
    }
  }

  lemma MisalignedDiffer(tree: Tree, before: map<nat, nat>)
    ensures Misaligned(tree, CategoryColumn(before)) == Differing(tree, before)
  {
    forall id
      ensures id in Misaligned(tree, CategoryColumn(before)) <==> id in Differing(tree, before)
    {
      if id in tree && !IsRoot(tree, id) { assert Source(tree, id) == tree[id].parent.value; }
    }
  }

  class ProductTable {
    const tree: Tree
    var categoryId: map<nat, nat>

    constructor (tree: Tree, categoryId: map<nat, nat>)
      ensures this.tree == tree && this.categoryId == categoryId
    {
      this.tree := tree;
      this.categoryId := categoryId;
    }

    /**
     Rows are visited in an arbitrary order, but read from the table as it was: each takes what
     its parent had, and the rows that differed from their parents are counted.
     */
    method Up() returns (updated: nat)
      modifies this`categoryId
      ensures forall id :: CategoryColumn(categoryId)(id) == Synced(tree, CategoryColumn(old(categoryId)))(id)
      ensures forall id: nat :: TakesItsParents(tree, old(categoryId), categoryId, id)
      ensures updated == |Differing(tree, old(categoryId))|
    {
      ghost var start := categoryId;
      var snapshot := CategoryColumn(categoryId);
      var todo := Misaligned(tree, snapshot);
      updated := 0;
      NothingWritten(tree, snapshot);
      while todo != {}
        invariant todo <= Misaligned(tree, snapshot) && updated + |todo| == |Misaligned(tree, snapshot)|
        invariant Partly(tree, snapshot, CategoryColumn(categoryId), todo)
        decreases |todo|
      {
        var child :| child in todo;
        ghost var before := CategoryColumn(categoryId);
        var category := snapshot(Source(tree, child));
        categoryId := if category.Some? then categoryId[child := category.value] else categoryId - {child};
        OneWritten(tree, snapshot, before, CategoryColumn(categoryId), todo, child);
        todo := todo - {child};
        updated := updated + 1;
      }
      forall id: nat
        ensures CategoryColumn(categoryId)(id) == Synced(tree, snapshot)(id)
      {
        AllWritten(tree, snapshot, CategoryColumn(categoryId), id);
      }
      forall id: nat
        ensures TakesItsParents(tree, start, categoryId, id)
      {
        SyncedTakesParents(tree, start, categoryId, id);
      }
      MisalignedDiffer(tree, start);
    }
  }

  // ------------------------------------------------------------------------
  // What k runs do
  // ------------------------------------------------------------------------

  lemma {:induction false} AncestorFromSource(tree: Tree, id: nat, k: nat)
    ensures Ancestor(tree, Source(tree, id), k) == Ancestor(tree, id, k + 1)
  {
    if k > 0 { AncestorFromSource(tree, id, k - 1); }
  }

  /** After `k` runs a product carries the category that its ancestor `k` steps up started with. */
  lemma {:induction false} RunsFollowAncestors(tree: Tree, cat: Categories, k: nat, id: nat)
    ensures Runs(tree, cat, k)(id) == cat(Ancestor(tree, id, k))
  {
    if k > 0 {
      RunsFollowAncestors(tree, cat, k - 1, Source(tree, id));
      AncestorFromSource(tree, id, k - 1);
    }
  }

  lemma {:induction false} RootsStay(tree: Tree, id: nat, k: nat, more: nat)
    requires Within(tree, id, k)
    ensures Ancestor(tree, id, k + more) == Ancestor(tree, id, k)
  {
    if more > 0 { RootsStay(tree, id, k, more - 1); }
  }

  /** A product at depth `k` or less carries its root's category after `k` runs, and after any more. */
  lemma RootCategoryArrives(tree: Tree, cat: Categories, id: nat, k: nat, more: nat)
    requires Within(tree, id, k)
    ensures IsRoot(tree, Ancestor(tree, id, k))
    ensures Runs(tree, cat, k + more)(id) == cat(Ancestor(tree, id, k))
  {
    RunsFollowAncestors(tree, cat, k + more, id);
    RootsStay(tree, id, k, more);
  }

  lemma {:induction false} AncestorInCompany(tree: Tree, id: nat, k: nat)
    requires id in tree
    ensures Ancestor(tree, id, k) in tree && tree[Ancestor(tree, id, k)].company == tree[id].company
  {
    if k > 0 { AncestorInCompany(tree, id, k - 1); }
  }

  /** Every category in use belongs to the company of the product. */
  ghost predicate InCompany(tree: Tree, cat: Categories, owner: map<nat, nat>) {
    forall id | id in tree && cat(id).Some? :: cat(id).value in owner && owner[cat(id).value] == tree[id].company
  }

  /** No category crosses from one company to another, whatever the parents are. */
  lemma RunsStayInCompany(tree: Tree, cat: Categories, owner: map<nat, nat>, k: nat)
    requires InCompany(tree, cat, owner)
    ensures InCompany(tree, Runs(tree, cat, k), owner)
  {
    forall id | id in tree && Runs(tree, cat, k)(id).Some?
      ensures var c := Runs(tree, cat, k)(id).value; c in owner && owner[c] == tree[id].company
    {
      RunsFollowAncestors(tree, cat, k, id);
      AncestorInCompany(tree, id, k);
    }
  }

  // ------------------------------------------------------------------------
  // When running it again changes nothing
  // ------------------------------------------------------------------------

  /** Another run would write no row. */
  predicate Settled(tree: Tree, cat: Categories) {
    Misaligned(tree, cat) == {}
  }

  lemma SettledMeans(tree: Tree, cat: Categories, id: nat)
    requires Settled(tree, cat)
    ensures cat(Source(tree, id)) == cat(id)
  {
    assert id !in Misaligned(tree, cat);
  }

  ghost predicate SettlesIn(tree: Tree, k: nat) {
    forall cat :: Settled(tree, Runs(tree, cat, k))
  }

  ghost predicate AllWithin(tree: Tree, k: nat) {
    forall id | id in tree :: Within(tree, id, k)
  }

  lemma ShallowSettles(tree: Tree, cat: Categories, k: nat)
    requires AllWithin(tree, k)
    ensures Settled(tree, Runs(tree, cat, k))
  {
    forall id | id in tree
      ensures id !in Misaligned(tree, Runs(tree, cat, k))
    {
      RunsFollowAncestors(tree, cat, k, id);
      RunsFollowAncestors(tree, cat, k + 1, id);
      RootsStay(tree, id, k, 1);
    }
  }

  function OwnCategory(): Categories {
    id => Some(id)
  }

  /** With a category of its own for every product, `k` runs leave a product deeper than `k` misaligned. */
  lemma DeepIsMisaligned(tree: Tree, k: nat, id: nat)
    requires NoSelfParent(tree) && id in tree && !Within(tree, id, k)
    ensures id in Misaligned(tree, Runs(tree, OwnCategory(), k))
  {
    RunsFollowAncestors(tree, OwnCategory(), k, id);
    RunsFollowAncestors(tree, OwnCategory(), k + 1, id);
  }

  /**
   `k` runs settle the table whatever the categories were exactly when no product is deeper
   than `k`.  With `k = 1` this is when one run is idempotent, which the migration takes for
   granted: a presentation of a presentation is enough for it to fail.
   */
  lemma SettlesIff(tree: Tree, k: nat)
    requires NoSelfParent(tree)
    ensures SettlesIn(tree, k) <==> AllWithin(tree, k)
  {
    if AllWithin(tree, k) {
      forall cat ensures Settled(tree, Runs(tree, cat, k)) { ShallowSettles(tree, cat, k); }
    } else {
      var id :| id in tree && !Within(tree, id, k);
      DeepIsMisaligned(tree, k, id);
    }
  }

  // ------------------------------------------------------------------------
  // Cycles
  // ------------------------------------------------------------------------

  /** `n` steps up from the product lead back to it. */
  predicate OnCycle(tree: Tree, id: nat, n: nat) {
    n >= 2 && !IsRoot(tree, id) && Ancestor(tree, id, n) == id
  }

  lemma {:induction false} AncestorsCompose(tree: Tree, id: nat, j: nat, k: nat)
    ensures Ancestor(tree, Ancestor(tree, id, j), k) == Ancestor(tree, id, j + k)
  {
    if k > 0 { AncestorsCompose(tree, id, j, k - 1); }
  }

  lemma {:induction false} CycleRepeats(tree: Tree, id: nat, n: nat, j: nat, times: nat)
    requires OnCycle(tree, id, n)
    ensures Ancestor(tree, id, j + n * times) == Ancestor(tree, id, j)
  {
    if times > 0 {
      CycleRepeats(tree, id, n, j, times - 1);
      AncestorsCompose(tree, id, n, j + n * (times - 1));
      assert n * times == n + n * (times - 1);
    }
  }

  /** Categories go round a cycle: every `n` runs each of its products has again the category it had. */
  lemma CycleRotates(tree: Tree, cat: Categories, id: nat, n: nat, k: nat, times: nat)
    requires OnCycle(tree, id, n)
    ensures Runs(tree, cat, k + n * times)(id) == Runs(tree, cat, k)(id)
  {
    RunsFollowAncestors(tree, cat, k, id);
    RunsFollowAncestors(tree, cat, k + n * times, id);
    CycleRepeats(tree, id, n, k, times);
  }

  lemma {:induction false} SettledAlong(tree: Tree, cat: Categories, id: nat, j: nat)
    requires Settled(tree, cat)
    ensures cat(Ancestor(tree, id, j)) == cat(id)
  {
    if j > 0 {
      SettledAlong(tree, cat, id, j - 1);
      SettledMeans(tree, cat, Ancestor(tree, id, j - 1));
    }
  }

  /** A cycle with two categories on it never settles, however often the update runs. */
  lemma MixedCycleNeverSettles(tree: Tree, cat: Categories, id: nat, n: nat, j: nat, k: nat)
    requires OnCycle(tree, id, n) && cat(Ancestor(tree, id, j)) != cat(id)
    ensures !Settled(tree, Runs(tree, cat, k))
  {
    var after := Runs(tree, cat, k);
    if Settled(tree, after) {
      // Far enough round, `k` more steps lead to the product, and to its j-th ancestor, again.
      var far := FarRound(tree, id, n, j, k);
      SettledAlong(tree, after, id, far);
      SettledAlong(tree, after, id, far + j);
      RunsFollowAncestors(tree, cat, k, Ancestor(tree, id, far));
      RunsFollowAncestors(tree, cat, k, Ancestor(tree, id, far + j));
    }
  }

  lemma FarRound(tree: Tree, id: nat, n: nat, j: nat, k: nat) returns (far: nat)
    requires OnCycle(tree, id, n)
    ensures Ancestor(tree, Ancestor(tree, id, far), k) == id
    ensures Ancestor(tree, Ancestor(tree, id, far + j), k) == Ancestor(tree, id, j)
  {
    assert n * k >= k;
    far := n * k - k;
    AncestorsCompose(tree, id, far, k);
    AncestorsCompose(tree, id, far + j, k);
    CycleRepeats(tree, id, n, 0, k);
    CycleRepeats(tree, id, n, j, k);
  }

  lemma CycleHasNoRoot(tree: Tree, id: nat, n: nat, k: nat)
    requires OnCycle(tree, id, n)
    ensures !Within(tree, id, k)
  {
    if Within(tree, id, k) {
      RootsStay(tree, id, k, n * k - k);
      CycleRepeats(tree, id, n, 0, k);
    }
  }

  // ------------------------------------------------------------------------
  // Every table either settles or has a cycle
  // ------------------------------------------------------------------------

  /** The first `k` products on the way up. */
  function Path(tree: Tree, id: nat, k: nat): set<nat> {
    if k == 0 then {} else Path(tree, id, k - 1) + {Ancestor(tree, id, k - 1)}
  }

  lemma {:induction false} OnPath(tree: Tree, id: nat, k: nat, a: nat)
    requires a in Path(tree, id, k)
    ensures exists j: nat :: j < k && Ancestor(tree, id, j) == a
  {
    if a != Ancestor(tree, id, k - 1) { OnPath(tree, id, k - 1, a); }
  }

  ghost predicate Distinct(tree: Tree, id: nat, k: nat) {
    forall i: nat, j: nat :: i < j < k ==> Ancestor(tree, id, i) != Ancestor(tree, id, j)
  }

  lemma {:induction false} PathGrows(tree: Tree, id: nat, k: nat)
    requires id in tree && Distinct(tree, id, k)
    ensures |Path(tree, id, k)| == k && Path(tree, id, k) <= tree.Keys
  {
    if k > 0 {
      PathGrows(tree, id, k - 1);
      AncestorInCompany(tree, id, k - 1);
      if Ancestor(tree, id, k - 1) in Path(tree, id, k - 1) { OnPath(tree, id, k - 1, Ancestor(tree, id, k - 1)); }
    }
  }

  lemma PathFits(tree: Tree, id: nat)
    requires id in tree
    ensures !Distinct(tree, id, |tree| + 1)
  {
    if Distinct(tree, id, |tree| + 1) {
      PathGrows(tree, id, |tree| + 1);
      SubsetSize(Path(tree, id, |tree| + 1), tree.Keys);
    }
  }

  /** A product that is deeper than there are products runs into a cycle. */
  lemma DeepMeetsCycle(tree: Tree, id: nat) returns (a: nat, n: nat)
    requires NoSelfParent(tree) && id in tree && !Within(tree, id, |tree|)
    ensures a in tree && OnCycle(tree, a, n)
  {
    PathFits(tree, id);
    var i: nat, j: nat :| i < j < |tree| + 1 && Ancestor(tree, id, i) == Ancestor(tree, id, j);
    a, n := Ancestor(tree, id, i), j - i;
    AncestorInCompany(tree, id, i);
    AncestorsCompose(tree, id, i, n);
    AncestorsCompose(tree, id, i, 1);
    if IsRoot(tree, a) { RootsStay(tree, id, i, |tree| - i); }
  }

  ghost predicate HasCycle(tree: Tree) {
    exists id, n :: id in tree && OnCycle(tree, id, n)
  }

  /** Some number of runs settles every assignment of categories exactly when no parents form a cycle. */
  lemma SettlesEventuallyIff(tree: Tree)
    requires NoSelfParent(tree)
    ensures (exists k: nat :: SettlesIn(tree, k)) <==> !HasCycle(tree)
    ensures !HasCycle(tree) ==> SettlesIn(tree, |tree|)
  {
    if HasCycle(tree) {
      var id, n :| id in tree && OnCycle(tree, id, n);
      forall k: nat
        ensures !SettlesIn(tree, k)
      {
        SettlesIff(tree, k);
        CycleHasNoRoot(tree, id, n, k);
      }
    } else {
      forall id | id in tree
        ensures Within(tree, id, |tree|)
      {
        if !Within(tree, id, |tree|) { var a, n := DeepMeetsCycle(tree, id); }
      }
      SettlesIff(tree, |tree|);
    }
  }
}
