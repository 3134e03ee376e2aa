/** Pruning as the code does it, down the lists of children: a child dropped for its slot leaves the map of
    nodes but not its parent's list, and what such an entry does to a later pruning. */
module ForkChoicePrune {
  import opened Common
  import opened ForkChoiceStore

  /** An entry of a list of children.  A stale one is a node that is no longer in the map; a block inserted
      again is another node, with an entry of its own. */
  datatype Child = Child(root: Root, stale: bool)

  type Lists = map<Root, seq<Child>>

  /** The list of every node holds its children, each a later block, and perhaps stale entries. */
  ghost predicate ListsOk(b: Blocks, s: Store, lists: Lists) {
    && IsTree(b, s) && lists.Keys == s.nodes
    && (forall u, c :: u in lists && c in lists[u] ==> EntryOk(b, s, u, c))
    && (forall r :: r in s.nodes && s.treeRoot != Some(r) ==> Child(r, false) in lists[b.all[r].parent])
  }

  ghost predicate EntryOk(b: Blocks, s: Store, u: Root, c: Child)
    requires b.Valid()
  {
    && c.root in b.all && u in b.all && b.all[c.root].parent == u
    && (!c.stale ==> c.root in s.nodes && s.treeRoot != Some(c.root))
  }

  ghost predicate Bounded(b: Blocks, top: nat) {
    forall r :: r in b.all ==> b.all[r].slot < top
  }

  /** The roots deleted from the map by descending from a node, but not into f. */
  ghost function Gone(b: Blocks, s: Store, lists: Lists, u: Root, f: Root, top: nat): set<Root>
    requires ListsOk(b, s, lists) && Bounded(b, top) && u in s.nodes
    decreases top - b.all[u].slot, 1
  {
    if u == f then {} else {u} + GoneIn(b, s, lists, u, f, top, |lists[u]|)
  }

  /** ... by its first n children. */
  ghost function GoneIn(b: Blocks, s: Store, lists: Lists, u: Root, f: Root, top: nat, n: nat): set<Root>
    requires ListsOk(b, s, lists) && Bounded(b, top) && u in s.nodes && n <= |lists[u]|
    decreases top - b.all[u].slot, 0, n
  {
    if n == 0 then {}
    else
      var c := lists[u][n - 1];
      assert EntryOk(b, s, u, c);
      GoneIn(b, s, lists, u, f, top, n - 1) + (if c.stale then {c.root} else Gone(b, s, lists, c.root, f, top))
  }

  /** The way up from r reaches u without meeting f. */
  ghost predicate Avoids(b: Blocks, s: Store, r: Root, u: Root, f: Root)
    requires IsTree(b, s) && r in s.nodes
    decreases b.all[r].slot
  {
    r != f && (r == u || (s.treeRoot != Some(r) && Avoids(b, s, b.all[r].parent, u, f)))
  }

  /** A stale entry of that root is in the list of a node so reached. */
  ghost predicate StaleOn(b: Blocks, s: Store, lists: Lists, x: Root, u: Root, f: Root)
    requires ListsOk(b, s, lists)
  {
    exists w :: w in s.nodes && Avoids(b, s, w, u, f) && Child(x, true) in lists[w]
  }

  ghost predicate GoneFor(b: Blocks, s: Store, lists: Lists, x: Root, u: Root, f: Root)
    requires ListsOk(b, s, lists)
  {
    (x in s.nodes && Avoids(b, s, x, u, f)) || StaleOn(b, s, lists, x, u, f)
  }

  lemma {:induction false} AvoidsDown(b: Blocks, s: Store, r: Root, c: Root, u: Root, f: Root)
    requires IsTree(b, s) && r in s.nodes && c in s.nodes && s.treeRoot != Some(c) && b.all[c].parent == u
    requires u != f && Avoids(b, s, r, c, f)
    ensures Avoids(b, s, r, u, f)
    decreases b.all[r].slot
  {
    if r != c { AvoidsDown(b, s, b.all[r].parent, c, u, f); }
  }

  /** Whatever is reached from u, other than u, is reached from a child of u. */
  lemma {:induction false} AvoidsThroughChild(b: Blocks, s: Store, r: Root, u: Root, f: Root) returns (c: Root)
    requires IsTree(b, s) && r in s.nodes && r != u && Avoids(b, s, r, u, f)
    ensures c in s.nodes && s.treeRoot != Some(c) && b.all[c].parent == u && Avoids(b, s, r, c, f)
    decreases b.all[r].slot
  {
    if b.all[r].parent == u {
      c := r;
    } else {
      c := AvoidsThroughChild(b, s, b.all[r].parent, u, f);
    }
  }

  /** The descent deletes exactly the nodes it reaches, and the roots of the stale entries in their lists. */
  lemma {:induction false} GoneIs(b: Blocks, s: Store, lists: Lists, x: Root, u: Root, f: Root, top: nat)
    requires ListsOk(b, s, lists) && Bounded(b, top) && u in s.nodes
    ensures x in Gone(b, s, lists, u, f, top) <==> GoneFor(b, s, lists, x, u, f)
    decreases top - b.all[u].slot, 1
  {
    if u == f {
      NothingReachedFrom(b, s, lists, x, u);
    } else {
      GoneInIs(b, s, lists, x, u, f, top, |lists[u]|);
      if GoneFor(b, s, lists, x, u, f) && x != u {
        GoneHasEntry(b, s, lists, x, u, f);
      }
    }
  }

  lemma {:induction false} AvoidsNotFrom(b: Blocks, s: Store, r: Root, f: Root)
    requires IsTree(b, s) && r in s.nodes
    ensures !Avoids(b, s, r, f, f)
    decreases b.all[r].slot
  {
    if r != f && s.treeRoot != Some(r) { AvoidsNotFrom(b, s, b.all[r].parent, f); }
  }

  lemma NothingReachedFrom(b: Blocks, s: Store, lists: Lists, x: Root, f: Root)
    requires ListsOk(b, s, lists)
    ensures !GoneFor(b, s, lists, x, f, f)
  {
    forall r | r in s.nodes
      ensures !Avoids(b, s, r, f, f)
    {
      AvoidsNotFrom(b, s, r, f);
    }
  }

  /** Entry k of u's list accounts for x. */
  ghost predicate EntryTakes(b: Blocks, s: Store, lists: Lists, x: Root, u: Root, f: Root, k: nat)
    requires ListsOk(b, s, lists) && u in s.nodes && k < |lists[u]|
  {
    var c := lists[u][k];
    assert EntryOk(b, s, u, c);
    if c.stale then x == c.root else GoneFor(b, s, lists, x, c.root, f)
  }

  lemma {:induction false} GoneInIs(b: Blocks, s: Store, lists: Lists, x: Root, u: Root, f: Root, top: nat, n: nat)
    requires ListsOk(b, s, lists) && Bounded(b, top) && u in s.nodes && u != f && n <= |lists[u]|
    ensures x in GoneIn(b, s, lists, u, f, top, n) <==> exists k: nat :: k < n && EntryTakes(b, s, lists, x, u, f, k)
    ensures x in GoneIn(b, s, lists, u, f, top, n) ==> GoneFor(b, s, lists, x, u, f)
    decreases top - b.all[u].slot, 0, n
  {
    if n > 0 {
      var c := lists[u][n - 1];
      assert EntryOk(b, s, u, c);
      GoneInIs(b, s, lists, x, u, f, top, n - 1);
      if c.stale {
        assert c == Child(c.root, true) && Avoids(b, s, u, u, f);
      } else {
        GoneIs(b, s, lists, x, c.root, f, top);
        if GoneFor(b, s, lists, x, c.root, f) { GoneForParent(b, s, lists, x, c.root, u, f); }
      }
      assert EntryTakes(b, s, lists, x, u, f, n - 1) <==>
               (if c.stale then x == c.root else x in Gone(b, s, lists, c.root, f, top));
    }
  }

  lemma GoneForParent(b: Blocks, s: Store, lists: Lists, x: Root, c: Root, u: Root, f: Root)
    requires ListsOk(b, s, lists) && c in s.nodes && s.treeRoot != Some(c) && b.all[c].parent == u && u != f
    requires GoneFor(b, s, lists, x, c, f)
    ensures GoneFor(b, s, lists, x, u, f)
  {
    if x in s.nodes && Avoids(b, s, x, c, f) {
      AvoidsDown(b, s, x, c, u, f);
    } else {
      var w :| w in s.nodes && Avoids(b, s, w, c, f) && Child(x, true) in lists[w];
      AvoidsDown(b, s, w, c, u, f);
    }
  }

  lemma GoneHasEntry(b: Blocks, s: Store, lists: Lists, x: Root, u: Root, f: Root)
    requires ListsOk(b, s, lists) && u in s.nodes && u != f && x != u && GoneFor(b, s, lists, x, u, f)
    ensures exists k: nat :: k < |lists[u]| && EntryTakes(b, s, lists, x, u, f, k)
  {
    if x in s.nodes && Avoids(b, s, x, u, f) {
      var c := AvoidsThroughChild(b, s, x, u, f);
      LiveEntryTakes(b, s, lists, x, c, u, f);
    } else {
      var w :| w in s.nodes && Avoids(b, s, w, u, f) && Child(x, true) in lists[w];
      if w == u {
        var k :| 0 <= k < |lists[u]| && lists[u][k] == Child(x, true);
        assert EntryTakes(b, s, lists, x, u, f, k);
      } else {
        var c := AvoidsThroughChild(b, s, w, u, f);
        LiveEntryTakes(b, s, lists, x, c, u, f);
      }
    }
  }

  lemma LiveEntryTakes(b: Blocks, s: Store, lists: Lists, x: Root, c: Root, u: Root, f: Root)
    requires ListsOk(b, s, lists) && c in s.nodes && s.treeRoot != Some(c) && b.all[c].parent == u && u in s.nodes
    requires GoneFor(b, s, lists, x, c, f)
    ensures exists k: nat :: k < |lists[u]| && EntryTakes(b, s, lists, x, u, f, k)
  {
    assert Child(c, false) in lists[u];
    var k :| 0 <= k < |lists[u]| && lists[u][k] == Child(c, false);
    assert EntryTakes(b, s, lists, x, u, f, k);
  }

  // ---------------------------------------------------------------- against what pruning should keep

  /** From the tree root the descent reaches just what does not descend from f. */
  lemma {:induction false} ReachedIffNotBelow(b: Blocks, s: Store, r: Root, f: Root)
    requires IsTree(b, s) && r in s.nodes
    ensures Avoids(b, s, r, s.treeRoot.value, f) <==> !Survives(b, s, r, f, -1)
    decreases b.all[r].slot
  {
    if r != f && s.treeRoot != Some(r) { ReachedIffNotBelow(b, s, b.all[r].parent, f); }
  }

  /** A child of f that is not after the slot. */
  ghost predicate EarlyChild(b: Blocks, s: Store, c: Root, f: Root, after: int)
    requires IsTree(b, s)
  {
    c in s.nodes && s.treeRoot != Some(c) && b.all[c].parent == f && b.all[c].slot <= after
  }

  /** What survives is what descends from f and is not reached from such a child. */
  lemma {:induction false} SurvivesIffNotReached(b: Blocks, s: Store, r: Root, f: Root, after: int)
    requires IsTree(b, s) && r in s.nodes
    ensures Survives(b, s, r, f, after) <==>
            Survives(b, s, r, f, -1) && !exists c :: EarlyChild(b, s, c, f, after) && Avoids(b, s, r, c, f)
    decreases b.all[r].slot
  {
    if r != f && s.treeRoot != Some(r) {
      var parent := b.all[r].parent;
      if parent == f {
        assert forall c :: EarlyChild(b, s, c, f, after) && Avoids(b, s, r, c, f) ==> c == r;
        assert EarlyChild(b, s, r, f, after) ==> Avoids(b, s, r, r, f);
      } else {
        SurvivesIffNotReached(b, s, parent, f, after);
        assert forall c :: EarlyChild(b, s, c, f, after) ==>
                 (Avoids(b, s, r, c, f) <==> Avoids(b, s, parent, c, f));
      }
    }
  }

  /** Only the tree root's list has stale entries. */
  ghost predicate OnlyRootStale(s: Store, lists: Lists) {
    forall u, c :: u in lists && c in lists[u] && c.stale ==> s.treeRoot == Some(u)
  }

  /** Blocks whose entry in the tree root's list is stale. */
  ghost predicate StaleRoot(s: Store, lists: Lists, x: Root) {
    s.treeRoot.Some? && s.treeRoot.value in lists && Child(x, true) in lists[s.treeRoot.value]
  }

  lemma {:induction false} GoneFromRoot(b: Blocks, s: Store, lists: Lists, x: Root, f: Root, top: nat)
    requires ListsOk(b, s, lists) && OnlyRootStale(s, lists) && Bounded(b, top)
    requires f in s.nodes && s.treeRoot.Some? && s.treeRoot != Some(f)
    ensures x in Gone(b, s, lists, s.treeRoot.value, f, top) <==>
              (x in s.nodes && !Survives(b, s, x, f, -1)) || StaleRoot(s, lists, x)
  {
    var t := s.treeRoot.value;
    GoneIs(b, s, lists, x, t, f, top);
    if x in s.nodes { ReachedIffNotBelow(b, s, x, f); }
    assert Avoids(b, s, t, t, f);
    assert StaleOn(b, s, lists, x, t, f) <==> StaleRoot(s, lists, x);
  }

  lemma {:induction false} GoneFromChild(b: Blocks, s: Store, lists: Lists, x: Root, c: Root, f: Root, top: nat)
    requires ListsOk(b, s, lists) && OnlyRootStale(s, lists) && Bounded(b, top)
    requires c in s.nodes && s.treeRoot != Some(c)
    ensures x in Gone(b, s, lists, c, f, top) <==> x in s.nodes && Avoids(b, s, x, c, f)
  {
    GoneIs(b, s, lists, x, c, f, top);
    assert !StaleOn(b, s, lists, x, c, f);
  }

  /** Of all that pruning keeps, only the finalized block itself can be a stale child of the old tree root. */
  lemma {:induction false} OnlyFinalizedCanBeStale(b: Blocks, s: Store, lists: Lists, x: Root, f: Root, after: int)
    requires ListsOk(b, s, lists) && f in s.nodes && s.treeRoot.Some? && s.treeRoot != Some(f)
    requires x in s.nodes && Survives(b, s, x, f, after) && StaleRoot(s, lists, x)
    ensures x == f
  {
    assert EntryOk(b, s, s.treeRoot.value, Child(x, true));
  }

  /** The roots deleted from the map through one entry. */
  ghost function GoneOf(b: Blocks, s: Store, lists: Lists, c: Child, f: Root, top: nat): set<Root>
    requires ListsOk(b, s, lists) && Bounded(b, top) && (!c.stale ==> c.root in s.nodes)
  {
    if c.stale then {c.root} else Gone(b, s, lists, c.root, f, top)
  }

  /** ... through the entries, among the first n of f's list, that are not after the slot. */
  ghost function EarlyGone(b: Blocks, s: Store, lists: Lists, f: Root, after: int, top: nat, n: nat): set<Root>
    requires ListsOk(b, s, lists) && Bounded(b, top) && f in s.nodes && n <= |lists[f]|
  {
    if n == 0 then {}
    else
      var c := lists[f][n - 1];
      assert EntryOk(b, s, f, c);
      EarlyGone(b, s, lists, f, after, top, n - 1) +
      (if b.all[c.root].slot <= after then GoneOf(b, s, lists, c, f, top) else {})
  }

  ghost predicate ReachedEarly(b: Blocks, s: Store, x: Root, f: Root, after: int)
    requires IsTree(b, s) && x in s.nodes
  {
    exists c :: EarlyChild(b, s, c, f, after) && Avoids(b, s, x, c, f)
  }

  lemma {:induction false} EarlyGoneOnly(b: Blocks, s: Store, lists: Lists, x: Root, f: Root, after: int,
                                         top: nat, n: nat)
    requires ListsOk(b, s, lists) && OnlyRootStale(s, lists) && Bounded(b, top)
    requires f in s.nodes && s.treeRoot != Some(f) && n <= |lists[f]|
    ensures x in EarlyGone(b, s, lists, f, after, top, n) ==> x in s.nodes && ReachedEarly(b, s, x, f, after)
  {
    if n > 0 {
      var c := lists[f][n - 1];
      assert EntryOk(b, s, f, c);
      assert !c.stale;
      GoneFromChild(b, s, lists, x, c.root, f, top);
      EarlyGoneOnly(b, s, lists, x, f, after, top, n - 1);
      assert b.all[c.root].slot <= after ==> EarlyChild(b, s, c.root, f, after);
    }
  }

  lemma {:induction false} EarlyGoneAll(b: Blocks, s: Store, lists: Lists, x: Root, c: Root, f: Root, after: int,
                                        top: nat, n: nat)
    requires ListsOk(b, s, lists) && OnlyRootStale(s, lists) && Bounded(b, top)
    requires f in s.nodes && s.treeRoot != Some(f) && n <= |lists[f]|
    requires EarlyChild(b, s, c, f, after) && x in s.nodes && Avoids(b, s, x, c, f)
    requires Child(c, false) in lists[f][..n]
    ensures x in EarlyGone(b, s, lists, f, after, top, n)
  {
    assert lists[f][..n] == lists[f][..n - 1] + [lists[f][n - 1]];
    if lists[f][n - 1] == Child(c, false) {
      GoneFromChild(b, s, lists, x, c, f, top);
    } else {
      EarlyGoneAll(b, s, lists, x, c, f, after, top, n - 1);
    }
  }

  /** What the second round deletes. */
  lemma {:induction false} EarlyGoneIs(b: Blocks, s: Store, lists: Lists, x: Root, f: Root, after: int, top: nat)
    requires ListsOk(b, s, lists) && OnlyRootStale(s, lists) && Bounded(b, top)
    requires f in s.nodes && s.treeRoot != Some(f)
    ensures x in EarlyGone(b, s, lists, f, after, top, |lists[f]|) <==>
              x in s.nodes && ReachedEarly(b, s, x, f, after)
  {
    EarlyGoneOnly(b, s, lists, x, f, after, top, |lists[f]|);
    if x in s.nodes && ReachedEarly(b, s, x, f, after) {
      var c :| EarlyChild(b, s, c, f, after) && Avoids(b, s, x, c, f);
      assert lists[f][..|lists[f]|] == lists[f];
      EarlyGoneAll(b, s, lists, x, c, f, after, top, |lists[f]|);
    }
  }

  // ---------------------------------------------------------------- the tree with its lists, as it changes

  datatype Tree = Tree(store: Store, lists: Lists)

  ghost predicate IsListed(b: Blocks, t: Tree) {
    ListsOk(b, t.store, t.lists) && OnlyRootStale(t.store, t.lists)
  }

  /** Insert, and the new node joins its parent's list. */
  ghost function InsertAt(b: Blocks, t: Tree, r: Root): Tree
    requires IsListed(b, t) && r in b.all
  {
    var s := Insert(b, t.store, r).0;
    var parent := b.all[r].parent;
    if s == t.store then t
    else if parent in t.store.nodes
    then Tree(s, t.lists[parent := t.lists[parent] + [Child(r, false)]][r := []])
    else Tree(s, t.lists[r := []])
  }

  lemma InsertKeepsListed(b: Blocks, t: Tree, r: Root)
    requires IsListed(b, t) && r in b.all
    ensures IsListed(b, InsertAt(b, t, r))
  {
    var t1 := InsertAt(b, t, r);
    if t1 != t {
      forall u, c | u in t1.lists && c in t1.lists[u]
        ensures EntryOk(b, t1.store, u, c) && (c.stale ==> t1.store.treeRoot == Some(u))
      {
        assert c == Child(r, false) || (u in t.lists && c in t.lists[u]);
        assert u in t.lists && c in t.lists[u] ==> EntryOk(b, t.store, u, c);
      }
      forall x | x in t1.store.nodes && t1.store.treeRoot != Some(x)
        ensures Child(x, false) in t1.lists[b.all[x].parent]
      {
        assert b.all[x].parent != r;
      }
    }
  }

  function Marked(b: Blocks, c: Child, after: int): Child {
    if c.root in b.all && b.all[c.root].slot <= after then Child(c.root, true) else c
  }

  /** The lists of the remaining nodes; in f's, the children dropped for their slot have become stale. */
  function Trimmed(b: Blocks, lists: Lists, nodes: set<Root>, f: Root, after: int): (trimmed: Lists) {
    map u | u in lists && u in nodes ::
      if u == f then seq(|lists[u]|, i requires 0 <= i < |lists[u]| => Marked(b, lists[u][i], after)) else lists[u]
  }

  ghost predicate Moves(s: Store) {
    s.finalized.root in s.nodes && s.treeRoot != Some(s.finalized.root)
  }

  /** The slot up to which the finalized block's children go. */
  function DropUpTo(finalized: Checkpoint): int {
    if EpochStartFits(finalized.epoch) then SLOTS_PER_EPOCH * finalized.epoch else -1
  }

  /** Prune, but the finalized block itself goes if it also has a stale entry. */
  ghost function PruneAt(b: Blocks, t: Tree): Tree
    requires IsListed(b, t)
  {
    var (s, f) := (Prune(b, t.store).0, t.store.finalized.root);
    if !Moves(t.store) then t
    else
      var nodes := if StaleRoot(t.store, t.lists, f) then s.nodes - {f} else s.nodes;
      Tree(s.(nodes := nodes), Trimmed(b, t.lists, nodes, f, DropUpTo(t.store.finalized)))
  }

  lemma {:induction false} SurvivorIsLater(b: Blocks, s: Store, r: Root, f: Root, after: int)
    requires IsTree(b, s) && r in s.nodes && f in s.nodes && Survives(b, s, r, f, after)
    ensures r == f || b.all[r].slot > b.all[f].slot
    decreases b.all[r].slot
  {
    if r != f && b.all[r].parent != f { SurvivorIsLater(b, s, b.all[r].parent, f, after); }
  }

  lemma TrimmedEntries(b: Blocks, t: Tree, f: Root, after: int, u: Root, c: Child)
    requires IsListed(b, t) && f in t.store.nodes && t.store.treeRoot != Some(f)
    requires u in Keep(b, t.store, f, after).nodes
    requires c in Trimmed(b, t.lists, Keep(b, t.store, f, after).nodes, f, after)[u]
    ensures EntryOk(b, Keep(b, t.store, f, after), u, c)
    ensures c.stale ==> u == f && b.all[c.root].slot <= after && c.root !in Keep(b, t.store, f, after).nodes
  {
    var k :| 0 <= k < |t.lists[u]| && c == (if u == f then Marked(b, t.lists[u][k], after) else t.lists[u][k]);
    assert EntryOk(b, t.store, u, t.lists[u][k]);
    assert !t.lists[u][k].stale;
    SurvivorIsLater(b, t.store, u, f, after);
  }

  lemma TrimmedHas(b: Blocks, t: Tree, f: Root, after: int, r: Root)
    requires IsListed(b, t) && f in t.store.nodes && t.store.treeRoot != Some(f)
    requires r in Keep(b, t.store, f, after).nodes && r != f
    ensures b.all[r].parent in Keep(b, t.store, f, after).nodes
    ensures Child(r, false) in Trimmed(b, t.lists, Keep(b, t.store, f, after).nodes, f, after)[b.all[r].parent]
  {
    var parent := b.all[r].parent;
    var trimmed := Trimmed(b, t.lists, Keep(b, t.store, f, after).nodes, f, after);
    var k :| 0 <= k < |t.lists[parent]| && t.lists[parent][k] == Child(r, false);
    assert trimmed[parent][k] == Child(r, false);
  }

  lemma KeepIsListed(b: Blocks, t: Tree, f: Root, after: int)
    requires IsListed(b, t) && f in t.store.nodes && t.store.treeRoot != Some(f)
    ensures var s := Keep(b, t.store, f, after); IsListed(b, Tree(s, Trimmed(b, t.lists, s.nodes, f, after)))
  {
    var s := Keep(b, t.store, f, after);
    var trimmed := Trimmed(b, t.lists, s.nodes, f, after);
    forall u, c | u in trimmed && c in trimmed[u]
      ensures EntryOk(b, s, u, c) && (c.stale ==> s.treeRoot == Some(u))
    {
      TrimmedEntries(b, t, f, after, u, c);
    }
    forall r | r in s.nodes && s.treeRoot != Some(r)
      ensures Child(r, false) in trimmed[b.all[r].parent]
    {
      TrimmedHas(b, t, f, after, r);
    }
  }

  /** What both rounds of the descent leave. */
  ghost function Left(b: Blocks, t: Tree, top: nat): set<Root>
    requires IsListed(b, t) && Moves(t.store) && Bounded(b, top)
  {
    var (s, f) := (t.store, t.store.finalized.root);
    s.nodes - Gone(b, s, t.lists, s.treeRoot.value, f, top)
    - EarlyGone(b, s, t.lists, f, DropUpTo(s.finalized), top, |t.lists[f]|)
  }

  lemma LeftHas(b: Blocks, t: Tree, top: nat, x: Root)
    requires IsListed(b, t) && Moves(t.store) && Bounded(b, top)
    ensures x in Left(b, t, top) <==>
              x in Prune(b, t.store).0.nodes && !(x == t.store.finalized.root && StaleRoot(t.store, t.lists, x))
  {
    var (s, f, after) := (t.store, t.store.finalized.root, DropUpTo(t.store.finalized));
    assert Prune(b, s).0 == Keep(b, s, f, after);
    GoneFromRoot(b, s, t.lists, x, f, top);
    EarlyGoneIs(b, s, t.lists, x, f, after, top);
    if x in s.nodes {
      SurvivesIffNotReached(b, s, x, f, after);
      if Survives(b, s, x, f, after) && StaleRoot(s, t.lists, x) {
        OnlyFinalizedCanBeStale(b, s, t.lists, x, f, after);
      }
    }
  }

  /** The descent leaves what pruning is to leave if and only if the finalized block has no stale entry. */
  lemma DescentPrunesIff(b: Blocks, t: Tree, top: nat)
    requires IsListed(b, t) && Moves(t.store) && Bounded(b, top)
    ensures Left(b, t, top) == PruneAt(b, t).store.nodes
    ensures Left(b, t, top) == Prune(b, t.store).0.nodes <==> !StaleRoot(t.store, t.lists, t.store.finalized.root)
  {
    forall x
      ensures x in Left(b, t, top) <==>
                x in Prune(b, t.store).0.nodes && !(x == t.store.finalized.root && StaleRoot(t.store, t.lists, x))
    {
      LeftHas(b, t, top, x);
    }
    assert t.store.finalized.root in Prune(b, t.store).0.nodes;
  }

  lemma {:induction false} NothingEarly(b: Blocks, t: Tree, f: Root, after: int, top: nat)
    requires IsListed(b, t) && Bounded(b, top) && f in t.store.nodes && t.store.treeRoot != Some(f)
    requires b.all[f].slot >= after
    ensures EarlyGone(b, t.store, t.lists, f, after, top, |t.lists[f]|) == {}
  {
    forall x
      ensures x !in EarlyGone(b, t.store, t.lists, f, after, top, |t.lists[f]|)
    {
      EarlyGoneIs(b, t.store, t.lists, x, f, after, top);
    }
  }

  // ---------------------------------------------------------------- every run

  datatype Op = AddBlock(root: Root) | Finalize(checkpoint: Checkpoint)

  /** A new checkpoint that agrees with the last one is not at a child of the tree root that the last one
      left out of its chain. */
  ghost predicate Agrees(b: Blocks, s: Store, cp: Checkpoint) {
    cp.root in b.all && s.treeRoot == Some(b.all[cp.root].parent) ==>
      b.all[cp.root].slot > SLOTS_PER_EPOCH * s.finalized.epoch
  }

  /** Finalized epochs rise.  In a checked run blocks are added only after the start of the finalized epoch, in
      any other each new checkpoint agrees with the last. */
  ghost predicate Allowed(b: Blocks, s: Store, op: Op, checked: bool) {
    match op
    case AddBlock(r) =>
      r in b.all && (checked ==> s.nodes == {} || b.all[r].slot > SLOTS_PER_EPOCH * s.finalized.epoch)
    case Finalize(cp) =>
      cp.epoch > s.finalized.epoch && (!checked ==> Agrees(b, s, cp))
  }

  ghost predicate Possible(b: Blocks, op: Op) {
    op.AddBlock? ==> op.root in b.all
  }

  /** The step on the nodes alone. */
  function Plain(b: Blocks, s: Store, op: Op): (s1: Store)
    requires IsTree(b, s) && Possible(b, op)
    ensures IsTree(b, s1)
  {
    match op
    case AddBlock(r) => Insert(b, s, r).0
    case Finalize(cp) => Prune(b, s.(finalized := cp)).0
  }

  function Finalizing(t: Tree, cp: Checkpoint): Tree {
    t.(store := t.store.(finalized := cp))
  }

  /** The step down the lists. */
  ghost function Listed(b: Blocks, t: Tree, op: Op): Tree
    requires IsListed(b, t) && Possible(b, op)
  {
    match op
    case AddBlock(r) => InsertAt(b, t, r)
    case Finalize(cp) => PruneAt(b, Finalizing(t, cp))
  }

  /** A stale entry is of a block not after the start of the finalized epoch, and in a checked run that block
      is no node. */
  ghost predicate Good(b: Blocks, t: Tree, checked: bool) {
    && IsListed(b, t)
    && (forall x :: StaleRoot(t.store, t.lists, x) ==>
          && x in b.all && b.all[x].slot <= SLOTS_PER_EPOCH * t.store.finalized.epoch
          && (checked ==> x !in t.store.nodes))
  }

  lemma InsertAddsNoStale(b: Blocks, t: Tree, r: Root, x: Root)
    requires IsListed(b, t) && r in b.all
    ensures StaleRoot(InsertAt(b, t, r).store, InsertAt(b, t, r).lists, x) ==> StaleRoot(t.store, t.lists, x)
  {
    var t1 := InsertAt(b, t, r);
    if StaleRoot(t1.store, t1.lists, x) && t1 != t {
      assert t1.store.treeRoot.value != r ==> t.store.treeRoot == t1.store.treeRoot;
    }
  }

  lemma GoodInsert(b: Blocks, t: Tree, r: Root, checked: bool)
    requires Good(b, t, checked) && Allowed(b, t.store, AddBlock(r), checked)
    ensures Good(b, InsertAt(b, t, r), checked) && InsertAt(b, t, r).store == Insert(b, t.store, r).0
  {
    var t1 := InsertAt(b, t, r);
    InsertKeepsListed(b, t, r);
    forall x | StaleRoot(t1.store, t1.lists, x)
      ensures StaleRoot(t.store, t.lists, x) && (checked ==> x != r)
    {
      InsertAddsNoStale(b, t, r, x);
    }
  }

  lemma GoodPrune(b: Blocks, t: Tree, checked: bool)
    requires Good(b, t, checked) && !(Moves(t.store) && StaleRoot(t.store, t.lists, t.store.finalized.root))
    ensures Good(b, PruneAt(b, t), checked) && PruneAt(b, t).store == Prune(b, t.store).0
  {
    if Moves(t.store) {
      var (f, after) := (t.store.finalized.root, DropUpTo(t.store.finalized));
      KeepIsListed(b, t, f, after);
      var t1 := PruneAt(b, t);
      forall x | StaleRoot(t1.store, t1.lists, x)
        ensures x in b.all && b.all[x].slot <= SLOTS_PER_EPOCH * t1.store.finalized.epoch && x !in t1.store.nodes
      {
        TrimmedEntries(b, t, f, after, f, Child(x, true));
      }
    }
  }

  lemma FinalizedIsNotStale(b: Blocks, t: Tree, cp: Checkpoint, checked: bool)
    requires Good(b, t, checked) && Allowed(b, t.store, Finalize(cp), checked) && cp.root in t.store.nodes
    ensures !StaleRoot(t.store, t.lists, cp.root)
  {
    assert StaleRoot(t.store, t.lists, cp.root) ==> EntryOk(b, t.store, t.store.treeRoot.value, Child(cp.root, true));
  }

  lemma GoodStep(b: Blocks, t: Tree, op: Op, checked: bool)
    requires Good(b, t, checked) && Allowed(b, t.store, op, checked)
    ensures Good(b, Listed(b, t, op), checked) && Listed(b, t, op).store == Plain(b, t.store, op)
  {
    match op
    case AddBlock(r) =>
      GoodInsert(b, t, r, checked);
    case Finalize(cp) =>
      if cp.root in t.store.nodes { FinalizedIsNotStale(b, t, cp, checked); }
      GoodPrune(b, Finalizing(t, cp), checked);
  }

  ghost predicate AllowedRun(b: Blocks, s: Store, ops: seq<Op>, checked: bool)
    requires IsTree(b, s)
    decreases |ops|
  {
    ops == [] || (Allowed(b, s, ops[0], checked) && AllowedRun(b, Plain(b, s, ops[0]), ops[1..], checked))
  }

  ghost function RunPlain(b: Blocks, s: Store, ops: seq<Op>, checked: bool): Store
    requires IsTree(b, s) && AllowedRun(b, s, ops, checked)
    decreases |ops|
  {
    if ops == [] then s else RunPlain(b, Plain(b, s, ops[0]), ops[1..], checked)
  }

  ghost function RunListed(b: Blocks, t: Tree, ops: seq<Op>, checked: bool): Tree
    requires Good(b, t, checked) && AllowedRun(b, t.store, ops, checked)
    decreases |ops|
  {
    if ops == [] then t else
      GoodStep(b, t, ops[0], checked);
      RunListed(b, Listed(b, t, ops[0]), ops[1..], checked)
  }

  /** In every such run, pruning down the lists leaves exactly the nodes it is to leave. */
  lemma {:induction false} RunPrunes(b: Blocks, t: Tree, ops: seq<Op>, checked: bool)
    requires Good(b, t, checked) && AllowedRun(b, t.store, ops, checked)
    ensures Good(b, RunListed(b, t, ops, checked), checked)
    ensures RunListed(b, t, ops, checked).store == RunPlain(b, t.store, ops, checked)
    decreases |ops|
  {
    if ops != [] {
      GoodStep(b, t, ops[0], checked);
      RunPrunes(b, Listed(b, t, ops[0]), ops[1..], checked);
    }
  }

  // ---------------------------------------------------------------- a block that comes back

  /** Block 1 is the tree root, 2 its child, and 3 the child of 2, before the start of epoch 1. */
  const LineBlocks := map[1 := Block(0, 0), 2 := Block(1, 1), 3 := Block(20, 2)]

  const Line := Blocks(LineBlocks, map r | r in LineBlocks :: Some(LineBlocks[r]), map[])

  function LineStore(nodes: set<Root>, root: Root, finalized: Checkpoint): Store {
    Store(nodes, Some(root), Checkpoint(0, 1), Checkpoint(0, 1), finalized)
  }

  lemma LineIsValid()
    ensures Line.Valid()
  {
    forall r | Line.Lookup(r).Some?
      ensures r in Line.all && Line.all[r] == Line.Lookup(r).value
    {
    }
    forall r | r in Line.all && Line.all[r].parent in Line.all
      ensures Line.all[Line.all[r].parent].slot < Line.all[r].slot
    {
      assert r in {1, 2, 3};
    }
  }

  const LineTree := Tree(LineStore({1, 2, 3}, 1, Checkpoint(1, 2)),
                         map[1 := [Child(2, false)], 2 := [Child(3, false)], 3 := []])

  const DroppedTree := Tree(LineStore({2}, 2, Checkpoint(1, 2)), map[2 := [Child(3, true)]])

  const BackTree := Tree(LineStore({2, 3}, 2, Checkpoint(1, 2)),
                         map[2 := [Child(3, true), Child(3, false)], 3 := []])

  lemma LineIsListed()
    ensures IsListed(Line, LineTree)
  {
    LineIsValid();
    var (s, lists) := (LineTree.store, LineTree.lists);
    forall u, c | u in lists && c in lists[u]
      ensures EntryOk(Line, s, u, c) && !c.stale
    {
      assert (u, c) in {(1, Child(2, false)), (2, Child(3, false))};
    }
    forall r | r in s.nodes && s.treeRoot != Some(r)
      ensures Child(r, false) in lists[Line.all[r].parent]
    {
      assert r in {2, 3};
    }
  }

  lemma OnlyTwoIsKept()
    ensures IsTree(Line, LineTree.store) && Keep(Line, LineTree.store, 2, 32).nodes == {2}
  {
    LineIsListed();
    var s := LineTree.store;
    assert !Survives(Line, s, 1, 2, 32) && Survives(Line, s, 2, 2, 32) && !Survives(Line, s, 3, 2, 32);
  }

  lemma ThreeIsMarked()
    ensures Trimmed(Line, LineTree.lists, {2}, 2, 32) == map[2 := [Child(3, true)]]
  {
    assert Trimmed(Line, LineTree.lists, {2}, 2, 32)[2] == [Child(3, true)];
  }

  /** Finalizing 2 drops 3 for its slot. */
  lemma ChildIsDropped()
    ensures IsListed(Line, LineTree) && PruneAt(Line, LineTree) == DroppedTree
  {
    LineIsListed();
    OnlyTwoIsKept();
    ThreeIsMarked();
    assert DropUpTo(Checkpoint(1, 2)) == 32;
    assert !StaleRoot(LineTree.store, LineTree.lists, 2);
  }

  /** A check on slots keeps 3 out; without it 3 becomes a second entry of the list. */
  lemma ChildComesBack()
    ensures IsListed(Line, DroppedTree) && InsertAt(Line, DroppedTree, 3) == BackTree
    ensures !Allowed(Line, DroppedTree.store, AddBlock(3), true)
  {
    LineIsValid();
    assert DroppedTree.lists[2] + [Child(3, false)] == [Child(3, true), Child(3, false)];
    assert {2} + {3} == {2, 3};
  }

  /** Finalized then, against the last checkpoint, 3 is deleted through the stale entry: the new tree root is
      not a node. */
  lemma ChildInsertedAgainIsLost()
    ensures var t := Finalizing(BackTree, Checkpoint(2, 3));
            && IsListed(Line, t) && Prune(Line, t.store).0.nodes == {3}
            && PruneAt(Line, t).store.nodes == {} && PruneAt(Line, t).store.treeRoot == Some(3)
    ensures !Allowed(Line, BackTree.store, Finalize(Checkpoint(2, 3)), false)
  {
    LineIsValid();
    var t := Finalizing(BackTree, Checkpoint(2, 3));
    assert Keep(Line, t.store, 3, 64).nodes == {3} by {
      assert !Survives(Line, t.store, 2, 3, 64) && Survives(Line, t.store, 3, 3, 64);
    }
    assert t.lists[2][0] == Child(3, true);
  }

  // ---------------------------------------------------------------- the code

  lemma {:induction false} BoundOn(m: map<Root, Block>) returns (top: nat)
    ensures forall r :: r in m ==> m[r].slot < top
    decreases |m|
  {
    if m.Keys == {} {
      top := 0;
    } else {
      var r :| r in m;
      var rest := m - {r};
      assert rest.Keys == m.Keys - {r};
      var t := BoundOn(rest);
      top := if m[r].slot < t then t else m[r].slot + 1;
      assert forall x :: x in m && x != r ==> x in rest && rest[x] == m[x];
    }
  }

  class NodeMap {
    const blocks: Blocks
    var nodes: set<Root>
    var children: Lists
    var treeRoot: Option<Root>

    /** These are the nodes and lists of the given tree. */
    ghost predicate Shows(t: Tree)
      reads this
    {
      nodes == t.store.nodes && treeRoot == t.store.treeRoot && children == t.lists
    }

    constructor (blocks: Blocks)
      ensures this.blocks == blocks && nodes == {} && children == map[] && treeRoot == None
    {
      this.blocks := blocks;
      nodes, children, treeRoot := {}, map[], None;
    }

    method InsertNode(r: Root, ghost t: Tree) returns (o: Outcome)
      requires IsListed(blocks, t) && Shows(t) && r in blocks.all
      modifies this`nodes, this`children, this`treeRoot
      ensures Shows(InsertAt(blocks, t, r)) && o == Insert(blocks, t.store, r).1
      ensures IsListed(blocks, InsertAt(blocks, t, r))
    {
      InsertKeepsListed(blocks, t, r);
      if r in nodes {
        return Ok;
      }
      var parent := blocks.all[r].parent;
      if parent !in nodes {
        if treeRoot.Some? {
          return InvalidParentRoot;
        }
        treeRoot := Some(r);
      } else {
        children := children[parent := children[parent] + [Child(r, false)]];
      }
      nodes := nodes + {r};
      children := children[r := []];
      return Ok;
    }

    /** Deletes a node and what is below it from the map, but does not descend into f. */
    method PruneBelow(u: Root, f: Root, ghost s: Store, ghost top: nat)
      requires ListsOk(blocks, s, children) && Bounded(blocks, top) && u in s.nodes
      modifies this`nodes
      ensures nodes == old(nodes) - Gone(blocks, s, children, u, f, top)
      decreases top - blocks.all[u].slot, 0
    {
      if u == f {
        return;
      }
      for i := 0 to |children[u]|
        invariant nodes == old(nodes) - GoneIn(blocks, s, children, u, f, top, i)
      {
        assert EntryOk(blocks, s, u, children[u][i]);
        PruneEntry(children[u][i], f, s, top);
      }
      nodes := nodes - {u};
    }

    /** The same for an entry.  The list of a stale node has been cleared. */
    method PruneEntry(c: Child, f: Root, ghost s: Store, ghost top: nat)
      requires ListsOk(blocks, s, children) && Bounded(blocks, top)
      requires c.root in blocks.all && (!c.stale ==> c.root in s.nodes)
      modifies this`nodes
      ensures nodes == old(nodes) - GoneOf(blocks, s, children, c, f, top)
      decreases top - blocks.all[c.root].slot, 1
    {
      if c.stale {
        nodes := nodes - {c.root};
      } else {
        PruneBelow(c.root, f, s, top);
      }
    }

    method PruneEarlyChildren(f: Root, start: int, ghost s: Store, ghost top: nat)
      requires ListsOk(blocks, s, children) && Bounded(blocks, top) && f in s.nodes
      modifies this`nodes
      ensures nodes == old(nodes) - EarlyGone(blocks, s, children, f, start, top, |children[f]|)
    {
      for i := 0 to |children[f]|
        invariant nodes == old(nodes) - EarlyGone(blocks, s, children, f, start, top, i)
      {
        var c := children[f][i];
        assert EntryOk(blocks, s, f, c);
        if blocks.all[c.root].slot <= start {
          PruneEntry(c, f, s, top);
        }
      }
    }

    /** prune. */
    method PruneTree(finalized: Checkpoint, ghost t: Tree) returns (o: Outcome)
      requires IsListed(blocks, t) && Shows(t) && t.store.finalized == finalized
      modifies this`nodes, this`children, this`treeRoot
      ensures Shows(PruneAt(blocks, t)) && o == Prune(blocks, t.store).1
      ensures nodes == Prune(blocks, t.store).0.nodes <==>
              !(Moves(t.store) && StaleRoot(t.store, t.lists, finalized.root))
    {
      var f := finalized.root;
      if f !in nodes {
        return UnknownFinalizedRoot;
      }
      if treeRoot == Some(f) {
        return Ok;
      }
      ghost var top := BoundOn(blocks.all);
      DescentPrunesIff(blocks, t, top);
      PruneBelow(treeRoot.value, f, t.store, top);
      treeRoot := Some(f);
      var start := DropUpTo(finalized);
      if !EpochStartFits(finalized.epoch) {
        NothingEarly(blocks, t, f, start, top);
        o := EpochOverflow;
      } else if blocks.all[f].slot == start {
        NothingEarly(blocks, t, f, start, top);
        o := Ok;
      } else {
        PruneEarlyChildren(f, start, t.store, top);
        o := Ok;
      }
      children := Trimmed(blocks, children, nodes, f, start);
    }
  }
}
