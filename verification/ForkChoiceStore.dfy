/** The part of the fork choice store that inserting a chain of blocks touches: the tree of nodes, the
    justified and finalized checkpoints, and the pruning that a newer finalized checkpoint brings. */
module ForkChoiceStore {
  import opened Common

  type Root = nat

  const ZERO_ROOT: Root := 0

  const SLOTS_PER_EPOCH: nat := 32

  datatype Block = Block(slot: nat, parent: Root)

  datatype Checkpoint = Checkpoint(epoch: nat, root: Root)

  /** All the blocks there are, of which those stored can be looked up: in a database in which a block
      may be present but unreadable, and in the cache of initial sync, which is looked at first. */
  datatype Blocks = Blocks(all: map<Root, Block>, db: map<Root, Option<Block>>, initSync: map<Root, Block>) {

    function Lookup(r: Root): Option<Block> {
      if r in initSync then Some(initSync[r])
      else if r in db then db[r]
      else None
    }

    /** A root stands for one block, and a block's slot is after its parent's. */
    ghost predicate Valid() {
      && (forall r :: Lookup(r).Some? ==> r in all && all[r] == Lookup(r).value)
      && (forall r :: r in all && all[r].parent in all ==> all[all[r].parent].slot < all[r].slot)
    }

    ghost function Height(r: Root): nat {
      if r in all then all[r].slot + 1 else 0
    }
  }

  // ---------------------------------------------------------------- the store

  /** Nodes are named by their roots; a node's slot and parent are its block's.  Only the tree root has
      no parent node. */
  datatype Store = Store(
    nodes: set<Root>,
    treeRoot: Option<Root>,
    justified: Checkpoint,
    prevJustified: Checkpoint,
    finalized: Checkpoint)

  ghost predicate IsTree(b: Blocks, s: Store) {
    && b.Valid()
    && (s.treeRoot.None? <==> s.nodes == {})
    && (s.treeRoot.Some? ==> s.treeRoot.value in s.nodes)
    && (forall r :: r in s.nodes ==> r in b.all && (s.treeRoot == Some(r) || b.all[r].parent in s.nodes))
  }

  datatype Outcome = Ok | InvalidParentRoot | BalancesFailed | UnknownFinalizedRoot | EpochOverflow

  /** A known block is left alone; one whose parent is unknown is refused unless the tree is empty. */
  function Insert(b: Blocks, s: Store, r: Root): (res: (Store, Outcome))
    requires IsTree(b, s) && r in b.all
    ensures IsTree(b, res.0)
  {
    if r in s.nodes then (s, Ok)
    else if b.all[r].parent in s.nodes then (s.(nodes := s.nodes + {r}), Ok)
    else if s.treeRoot.None? then (s.(nodes := s.nodes + {r}, treeRoot := Some(r)), Ok)
    else (s, InvalidParentRoot)
  }

  /** r is f, or descends from it through a child of f later than the given slot. */
  predicate Survives(b: Blocks, s: Store, r: Root, f: Root, after: int)
    requires IsTree(b, s) && r in s.nodes
    decreases b.all[r].slot
  {
    || r == f
    || (s.treeRoot != Some(r) &&
        if b.all[r].parent == f then b.all[r].slot > after else Survives(b, s, b.all[r].parent, f, after))
  }

  /** Each root of the path is the parent of the next, and the second is later than the given slot. */
  ghost predicate DownPath(b: Blocks, nodes: set<Root>, path: seq<Root>, after: int) {
    && path != []
    && (forall k :: 0 <= k < |path| ==> path[k] in nodes && path[k] in b.all)
    && (forall k :: 1 <= k < |path| ==> b.all[path[k]].parent == path[k - 1])
    && (|path| > 1 ==> b.all[path[1]].slot > after)
  }

  /** What survives is exactly what such a path from f leads to. */
  lemma {:induction false} SurvivesHasPath(b: Blocks, s: Store, r: Root, f: Root, after: int) returns (path: seq<Root>)
    requires IsTree(b, s) && r in s.nodes && f in s.nodes && Survives(b, s, r, f, after)
    ensures DownPath(b, s.nodes, path, after) && path[0] == f && path[|path| - 1] == r
    decreases b.all[r].slot
  {
    if r == f {
      path := [r];
    } else if b.all[r].parent == f {
      path := [f, r];
    } else {
      var up := SurvivesHasPath(b, s, b.all[r].parent, f, after);
      PathExtends(b, s.nodes, up, r, after);
      path := up + [r];
    }
  }

  lemma PathExtends(b: Blocks, nodes: set<Root>, up: seq<Root>, r: Root, after: int)
    requires DownPath(b, nodes, up, after) && |up| > 1
    requires r in nodes && r in b.all && b.all[r].parent == up[|up| - 1]
    ensures DownPath(b, nodes, up + [r], after)
  {
    var path := up + [r];
    assert path[1] == up[1];
    assert forall k :: 0 <= k < |up| ==> path[k] == up[k];
  }

  /** No node is below the tree root. */
  lemma {:induction false} TreeRootIsLowest(b: Blocks, s: Store, r: Root)
    requires IsTree(b, s) && r in s.nodes
    ensures s.treeRoot.Some? && b.all[s.treeRoot.value].slot <= b.all[r].slot
    decreases b.all[r].slot
  {
    if s.treeRoot != Some(r) { TreeRootIsLowest(b, s, b.all[r].parent); }
  }

  lemma {:induction false} PathSurvives(b: Blocks, s: Store, path: seq<Root>, after: int)
    requires IsTree(b, s) && DownPath(b, s.nodes, path, after)
    ensures Survives(b, s, path[|path| - 1], path[0], after)
    decreases |path|
  {
    if |path| > 1 {
      var n := |path| - 1;
      assert b.all[path[n]].parent == path[n - 1];
      TreeRootIsLowest(b, s, path[n - 1]);
      PathSurvives(b, s, path[..n], after);
      if n > 1 { PathRises(b, s.nodes, path, after, 0, n - 1); }
    }
  }

  lemma {:induction false} PathRises(b: Blocks, nodes: set<Root>, path: seq<Root>, after: int, i: nat, j: nat)
    requires b.Valid() && DownPath(b, nodes, path, after) && i < j < |path|
    ensures b.all[path[i]].slot < b.all[path[j]].slot
    decreases j
  {
    assert b.all[path[j]].parent == path[j - 1];
    if i < j - 1 { PathRises(b, nodes, path, after, i, j - 1); }
  }

  /** Everything but the survivors goes, and f becomes the tree root. */
  function Keep(b: Blocks, s: Store, f: Root, after: int): (res: Store)
    requires IsTree(b, s) && f in s.nodes
    ensures IsTree(b, res) && f in res.nodes && res.nodes <= s.nodes
  {
    var kept := set r | r in s.nodes && Survives(b, s, r, f, after);
    assert f in kept;
    s.(nodes := kept, treeRoot := Some(f))
  }

  lemma {:induction false} SurvivesTwice(b: Blocks, s: Store, r: Root, f: Root, after: int)
    requires IsTree(b, s) && f in s.nodes && r in Keep(b, s, f, -1).nodes
    ensures Survives(b, Keep(b, s, f, -1), r, f, after) == Survives(b, s, r, f, after)
    decreases b.all[r].slot
  {
    if r != f && b.all[r].parent != f { SurvivesTwice(b, s, b.all[r].parent, f, after); }
  }

  lemma {:induction false} SurvivesWeaker(b: Blocks, s: Store, r: Root, f: Root, after: int)
    requires IsTree(b, s) && r in s.nodes && f in s.nodes
    ensures Survives(b, s, r, f, after) ==> Survives(b, s, r, f, -1)
    ensures b.all[f].slot >= after ==> Survives(b, s, r, f, after) == Survives(b, s, r, f, -1)
    decreases b.all[r].slot
  {
    if r != f && s.treeRoot != Some(r) && b.all[r].parent != f { SurvivesWeaker(b, s, b.all[r].parent, f, after); }
  }

  /** Pruning in two rounds, as the code does, is pruning in one. */
  lemma KeepTwice(b: Blocks, s: Store, f: Root, after: int)
    requires IsTree(b, s) && f in s.nodes
    ensures Keep(b, Keep(b, s, f, -1), f, after) == Keep(b, s, f, after)
  {
    var once := Keep(b, s, f, -1);
    forall r | r in once.nodes
      ensures Survives(b, once, r, f, after) == Survives(b, s, r, f, after)
    {
      SurvivesTwice(b, s, r, f, after);
    }
    forall r | r in s.nodes
      ensures Survives(b, s, r, f, after) ==> r in once.nodes
    {
      SurvivesWeaker(b, s, r, f, after);
    }
    assert Keep(b, once, f, after).nodes == Keep(b, s, f, after).nodes;
  }

  /** The second round has nothing to do when the finalized block is at the start of its epoch. */
  lemma KeepAtStart(b: Blocks, s: Store, f: Root, after: int)
    requires IsTree(b, s) && f in s.nodes && b.all[f].slot >= after
    ensures Keep(b, s, f, -1) == Keep(b, s, f, after)
  {
    forall r | r in s.nodes
      ensures Survives(b, s, r, f, after) == Survives(b, s, r, f, -1)
    {
      SurvivesWeaker(b, s, r, f, after);
    }
    assert Keep(b, s, f, -1).nodes == Keep(b, s, f, after).nodes;
  }

  predicate EpochStartFits(epoch: nat) {
    SLOTS_PER_EPOCH * epoch < TWO_TO_THE_64
  }

  /** The 64-bit product is the product. */
  lemma EpochStartFitsIff(epoch: nat)
    ensures EpochStartFits(epoch) <==> (SLOTS_PER_EPOCH * epoch) % TWO_TO_THE_64 == SLOTS_PER_EPOCH * epoch
  {
  }

  /** Pruning at the finalized checkpoint.  All that does not descend from the finalized node goes, and
      then what descends from it through a child that is not after the start of the finalized epoch. */
  function Prune(b: Blocks, s: Store): (res: (Store, Outcome))
    requires IsTree(b, s)
    ensures IsTree(b, res.0) && res.0.nodes <= s.nodes
  {
    var f := s.finalized.root;
    if f !in s.nodes then (s, UnknownFinalizedRoot)
    else if s.treeRoot == Some(f) then (s, Ok)
    else if !EpochStartFits(s.finalized.epoch) then (Keep(b, s, f, -1), EpochOverflow)
    else (Keep(b, s, f, SLOTS_PER_EPOCH * s.finalized.epoch), Ok)
  }

  ghost predicate LeadsTo(b: Blocks, s: Store, f: Root, after: int, r: Root, path: seq<Root>) {
    DownPath(b, s.nodes, path, after) && path[0] == f && path[|path| - 1] == r
  }

  /** What pruning leaves, in the tree as it was: an unknown finalized root is an error and the tree root nothing to
      do; otherwise the finalized block becomes the tree root, and what stays is what a path of children leads to
      from it, the first of them after the start of the finalized epoch. */
  lemma {:induction false} PruneKeepsPaths(b: Blocks, s: Store, r: Root)
    requires IsTree(b, s)
    ensures var (s1, o, f) := (Prune(b, s).0, Prune(b, s).1, s.finalized.root);
            && (f !in s.nodes ==> s1 == s && o == UnknownFinalizedRoot)
            && (f in s.nodes && s.treeRoot == Some(f) ==> s1 == s && o == Ok)
            && (f in s.nodes && s.treeRoot != Some(f) ==>
                  && s1 == s.(nodes := s1.nodes, treeRoot := Some(f))
                  && o == (if EpochStartFits(s.finalized.epoch) then Ok else EpochOverflow)
                  && var after := if EpochStartFits(s.finalized.epoch) then SLOTS_PER_EPOCH * s.finalized.epoch else -1;
                  (r in s1.nodes <==> exists path :: LeadsTo(b, s, f, after, r, path)))
  {
    var f := s.finalized.root;
    if f in s.nodes && s.treeRoot != Some(f) {
      var after := if EpochStartFits(s.finalized.epoch) then SLOTS_PER_EPOCH * s.finalized.epoch else -1;
      if r in Keep(b, s, f, after).nodes {
        var path := SurvivesHasPath(b, s, r, f, after);
        assert LeadsTo(b, s, f, after, r, path);
      }
      if path :| LeadsTo(b, s, f, after, r, path) {
        PathSurvives(b, s, path, after);
      }
    }
  }

  /** `readable` are the roots whose balances can be read. */
  function UpdateCheckpoints(b: Blocks, s: Store, j: Checkpoint, f: Checkpoint, readable: set<Root>)
    : (res: (Store, Outcome))
    requires IsTree(b, s)
    ensures IsTree(b, res.0) && res.0.nodes <= s.nodes && (res.1.Ok? && s.nodes != {} ==> res.0.nodes != {})
  {
    var newer := j.epoch > s.justified.epoch;
    var s1 := if newer then s.(prevJustified := s.justified, justified := j) else s;
    if newer && j.root !in readable then (s1, BalancesFailed)
    else if f.epoch <= s.finalized.epoch then (s1, Ok)
    else Prune(b, s1.(finalized := f))
  }

  /** Each checkpoint moves to a later epoch only, and the justified one that was left behind is remembered; the nodes
      change only with the finalized checkpoint. */
  lemma CheckpointsAfter(b: Blocks, s: Store, j: Checkpoint, f: Checkpoint, readable: set<Root>)
    requires IsTree(b, s)
    ensures var (s1, o) := UpdateCheckpoints(b, s, j, f, readable);
            var (newer, later) := (j.epoch > s.justified.epoch, f.epoch > s.finalized.epoch);
            && s1.justified == (if newer then j else s.justified)
            && s1.prevJustified == (if newer then s.justified else s.prevJustified)
            && (o == BalancesFailed <==> newer && j.root !in readable)
            && s1.finalized == (if later && o != BalancesFailed then f else s.finalized)
            && (!later || o == BalancesFailed ==> s1.nodes == s.nodes && s1.treeRoot == s.treeRoot)
            && (!later ==> o == Ok || o == BalancesFailed)
            && (later && o != BalancesFailed ==>
                  var pruned := Prune(b, s.(finalized := f));
                  s1.nodes == pruned.0.nodes && s1.treeRoot == pruned.0.treeRoot && o == pruned.1)
  {
    var s0 := s.(prevJustified := s.justified, justified := j);
    PruneIgnoresJustified(b, s0.(finalized := f), s.(finalized := f));
  }

  lemma PruneIgnoresJustified(b: Blocks, s: Store, t: Store)
    requires IsTree(b, s) && IsTree(b, t)
    requires s.nodes == t.nodes && s.treeRoot == t.treeRoot && s.finalized == t.finalized
    ensures Prune(b, s).0.nodes == Prune(b, t).0.nodes && Prune(b, s).0.treeRoot == Prune(b, t).0.treeRoot
    ensures Prune(b, s).1 == Prune(b, t).1
  {
    forall r | r in s.nodes
      ensures forall f, after :: Survives(b, s, r, f, after) == Survives(b, t, r, f, after)
    {
      forall f, after
        ensures Survives(b, s, r, f, after) == Survives(b, t, r, f, after)
      {
        SurvivesIgnoresJustified(b, s, t, r, f, after);
      }
    }
  }

  lemma {:induction false} SurvivesIgnoresJustified(b: Blocks, s: Store, t: Store, r: Root, f: Root, after: int)
    requires IsTree(b, s) && IsTree(b, t) && s.nodes == t.nodes && s.treeRoot == t.treeRoot && r in s.nodes
    ensures Survives(b, s, r, f, after) == Survives(b, t, r, f, after)
    decreases b.all[r].slot
  {
    if r != f && s.treeRoot != Some(r) && b.all[r].parent != f {
      SurvivesIgnoresJustified(b, s, t, b.all[r].parent, f, after);
    }
  }

  function InsertOne(b: Blocks, s: Store, r: Root, j: Checkpoint, f: Checkpoint, readable: set<Root>)
    : (res: (Store, Outcome))
    requires IsTree(b, s) && r in b.all
    ensures IsTree(b, res.0)
  {
    var (s1, o1) := Insert(b, s, r);
    if o1.Ok? then UpdateCheckpoints(b, s1, j, f, readable) else (s1, o1)
  }

  /** A chain with one pair of checkpoints, block by block, up to the first error. */
  function InsertAll(b: Blocks, s: Store, chain: seq<Root>, j: Checkpoint, f: Checkpoint, readable: set<Root>)
    : (res: (Store, Outcome))
    requires IsTree(b, s) && forall k :: 0 <= k < |chain| ==> chain[k] in b.all
    ensures IsTree(b, res.0)
    decreases |chain|
  {
    if chain == [] then (s, Ok)
    else
      var (s1, o1) := InsertOne(b, s, chain[0], j, f, readable);
      if o1.Ok? then InsertAll(b, s1, chain[1..], j, f, readable) else (s1, o1)
  }

  // ---------------------------------------------------------------- what inserting a chain comes to

  ghost function Elements(chain: seq<Root>): set<Root> {
    set r | r in chain
  }

  /** Oldest first: every root is the parent of the next. */
  ghost predicate Linked(b: Blocks, chain: seq<Root>) {
    && (forall k :: 0 <= k < |chain| ==> chain[k] in b.all)
    && (forall k :: 1 <= k < |chain| ==> b.all[chain[k]].parent == chain[k - 1])
  }

  ghost predicate AllUnknown(s: Store, chain: seq<Root>) {
    forall k :: 0 <= k < |chain| ==> chain[k] !in s.nodes
  }

  /** The checkpoints have nothing left to change. */
  ghost predicate Settled(s: Store, j: Checkpoint, f: Checkpoint) {
    j.epoch <= s.justified.epoch && f.epoch <= s.finalized.epoch
  }

  lemma UpdateSettles(b: Blocks, s: Store, j: Checkpoint, f: Checkpoint, readable: set<Root>)
    requires IsTree(b, s)
    ensures var (s1, o1) := UpdateCheckpoints(b, s, j, f, readable);
            o1.Ok? ==> Settled(s1, j, f)
    ensures Settled(s, j, f) ==> UpdateCheckpoints(b, s, j, f, readable) == (s, Ok)
  {
  }

  /** Once the checkpoints are settled a chain on a known node is added whole. */
  lemma {:induction false} SettledChainIsAdded(b: Blocks, s: Store, chain: seq<Root>, j: Checkpoint, f: Checkpoint,
                                               readable: set<Root>)
    requires IsTree(b, s) && Linked(b, chain) && Settled(s, j, f)
    requires chain != [] ==> b.all[chain[0]].parent in s.nodes
    ensures InsertAll(b, s, chain, j, f, readable) == (s.(nodes := s.nodes + Elements(chain)), Ok)
    decreases |chain|
  {
    if chain == [] {
      assert s.nodes + Elements(chain) == s.nodes;
    } else {
      var (s1, o1) := InsertOne(b, s, chain[0], j, f, readable);
      assert s1.nodes == s.nodes + {chain[0]};
      SettledChainIsAdded(b, s1, chain[1..], j, f, readable);
      assert s1.nodes + Elements(chain[1..]) == s.nodes + Elements(chain);
    }
  }

  /** Everything is decided at the first block: it needs a known parent or an empty tree, and then it
      alone is inserted before the checkpoints move.  The others follow unless the pruning has taken
      the first one away. */
  lemma {:induction false} FirstBlockDecides(b: Blocks, s: Store, chain: seq<Root>, j: Checkpoint, f: Checkpoint,
                                             readable: set<Root>)
    requires IsTree(b, s) && Linked(b, chain) && chain != []
    requires AllUnknown(s, chain)
    ensures var (s1, o1) := InsertOne(b, s, chain[0], j, f, readable);
            InsertAll(b, s, chain, j, f, readable) ==
              if !o1.Ok? then (s1, o1)
              else if |chain| > 1 && chain[0] !in s1.nodes then (s1, InvalidParentRoot)
              else (s1.(nodes := s1.nodes + Elements(chain[1..])), Ok)
  {
    var (s1, o1) := InsertOne(b, s, chain[0], j, f, readable);
    if o1.Ok? {
      UpdateSettles(b, Insert(b, s, chain[0]).0, j, f, readable);
      if |chain| == 1 || chain[0] in s1.nodes {
        SettledChainIsAdded(b, s1, chain[1..], j, f, readable);
      } else {
        NothingNewBut(b, s, chain[0], j, f, readable);
        assert chain[1] != chain[0];
      }
    }
  }

  lemma NothingNewBut(b: Blocks, s: Store, r: Root, j: Checkpoint, f: Checkpoint, readable: set<Root>)
    requires IsTree(b, s) && r in b.all
    ensures var (s1, o1) := InsertOne(b, s, r, j, f, readable);
            s1.nodes <= s.nodes + {r} && (o1.Ok? ==> s1.nodes != {})
  {
    var (s1, o1) := Insert(b, s, r);
    assert o1.Ok? ==> s1.nodes <= s.nodes + {r} && r in s1.nodes;
  }

  // ---------------------------------------------------------------- exactly when it succeeds

  ghost predicate Attached(b: Blocks, s: Store, r: Root)
    requires r in b.all
  {
    b.all[r].parent in s.nodes || s.nodes == {}
  }

  /** A newer justified checkpoint has readable balances. */
  ghost predicate BalancesFine(s: Store, j: Checkpoint, readable: set<Root>) {
    j.epoch > s.justified.epoch ==> j.root in readable
  }

  /** The first block would not be pruned: it is f's block, or hangs on what would not be pruned. */
  ghost predicate FirstStays(b: Blocks, s: Store, r: Root, f: Checkpoint)
    requires IsTree(b, s) && r in b.all
  {
    var parent := b.all[r].parent;
    var start := SLOTS_PER_EPOCH * f.epoch;
    || f.root == r
    || (parent == f.root && b.all[r].slot > start)
    || (parent != f.root && parent in s.nodes && Survives(b, s, parent, f.root, start))
  }

  /** A newer finalized checkpoint is known once the first block is in, and pruning there keeps what the
      chain needs.  Nothing is pruned when its block is the tree root. */
  ghost predicate FinalizedFine(b: Blocks, s: Store, chain: seq<Root>, f: Checkpoint)
    requires IsTree(b, s) && chain != [] && chain[0] in b.all
  {
    f.epoch > s.finalized.epoch ==>
      && (f.root in s.nodes || f.root == chain[0])
      && (s.nodes == {} || s.treeRoot == Some(f.root) ||
          (EpochStartFits(f.epoch) && (|chain| == 1 || FirstStays(b, s, chain[0], f))))
  }

  lemma {:induction false} SurvivesAfterInsert(b: Blocks, s: Store, s1: Store, r: Root, added: Root, f: Root,
                                               after: int)
    requires IsTree(b, s) && IsTree(b, s1) && r in s.nodes && added !in s.nodes
    requires s1.nodes == s.nodes + {added} && s1.treeRoot == s.treeRoot
    ensures Survives(b, s1, r, f, after) == Survives(b, s, r, f, after)
    decreases b.all[r].slot
  {
    if r != f && s.treeRoot != Some(r) && b.all[r].parent != f {
      SurvivesAfterInsert(b, s, s1, b.all[r].parent, added, f, after);
    }
  }

  /** The chain is inserted if and only if it hangs on a known node or the tree is empty, the justified
      balances can be read, and a newer finalized block is known and keeps the chain's first block. */
  lemma {:induction false} InsertAllSucceedsIff(b: Blocks, s: Store, chain: seq<Root>, j: Checkpoint, f: Checkpoint,
                                                readable: set<Root>)
    requires IsTree(b, s) && Linked(b, chain) && chain != []
    requires AllUnknown(s, chain)
    ensures InsertAll(b, s, chain, j, f, readable).1.Ok? <==>
              Attached(b, s, chain[0]) && BalancesFine(s, j, readable) && FinalizedFine(b, s, chain, f)
  {
    FirstBlockDecides(b, s, chain, j, f, readable);
    var (s0, o0) := Insert(b, s, chain[0]);
    var (s1, o1) := InsertOne(b, s, chain[0], j, f, readable);
    if Attached(b, s, chain[0]) && BalancesFine(s, j, readable) && f.epoch > s.finalized.epoch {
      var s0' := if j.epoch > s.justified.epoch then s0.(prevJustified := s0.justified, justified := j) else s0;
      if s.nodes != {} && f.root in s0.nodes && EpochStartFits(f.epoch) {
        FirstStaysIff(b, s, s0'.(finalized := f), chain[0], f);
      }
    }
  }

  /** Each error has its exact condition. */
  lemma {:induction false} InsertAllErrors(b: Blocks, s: Store, chain: seq<Root>, j: Checkpoint, f: Checkpoint,
                                           readable: set<Root>)
    requires IsTree(b, s) && Linked(b, chain) && chain != []
    requires AllUnknown(s, chain)
    ensures var o := InsertAll(b, s, chain, j, f, readable).1;
            var attached := Attached(b, s, chain[0]);
            var moves := attached && BalancesFine(s, j, readable) && f.epoch > s.finalized.epoch;
            var known := f.root in s.nodes || f.root == chain[0];
            var prunes := moves && known && s.nodes != {} && s.treeRoot != Some(f.root);
            && (o.BalancesFailed? <==> attached && !BalancesFine(s, j, readable))
            && (o.UnknownFinalizedRoot? <==> moves && !known)
            && (o.EpochOverflow? <==> prunes && !EpochStartFits(f.epoch))
            && (o.InvalidParentRoot? <==>
                  !attached || (prunes && EpochStartFits(f.epoch) && |chain| > 1 && !FirstStays(b, s, chain[0], f)))
  {
    InsertAllSucceedsIff(b, s, chain, j, f, readable);
    FirstBlockDecides(b, s, chain, j, f, readable);
  }

  lemma {:induction false} FirstStaysIff(b: Blocks, s: Store, s0: Store, r: Root, f: Checkpoint)
    requires IsTree(b, s) && IsTree(b, s0) && r in b.all && r !in s.nodes && s.nodes != {} && b.all[r].parent in s.nodes
    requires s0.nodes == s.nodes + {r} && s0.treeRoot == s.treeRoot && f.root in s0.nodes
    ensures FirstStays(b, s, r, f) <==> Survives(b, s0, r, f.root, SLOTS_PER_EPOCH * f.epoch)
  {
    SurvivesAfterInsert(b, s, s0, b.all[r].parent, r, f.root, SLOTS_PER_EPOCH * f.epoch);
  }

  /** After a success the newest block of the chain is a node, unless it is the only one and a newer
      finalized checkpoint on another branch, or too close before it, has it pruned at once. */
  lemma {:induction false} NewestIsNodeIff(b: Blocks, s: Store, chain: seq<Root>, j: Checkpoint, f: Checkpoint,
                                           readable: set<Root>)
    requires IsTree(b, s) && Linked(b, chain) && chain != []
    requires AllUnknown(s, chain)
    requires InsertAll(b, s, chain, j, f, readable).1.Ok?
    ensures chain[|chain| - 1] !in InsertAll(b, s, chain, j, f, readable).0.nodes <==>
              && |chain| == 1 && f.epoch > s.finalized.epoch
              && s.nodes != {} && s.treeRoot != Some(f.root) && !FirstStays(b, s, chain[0], f)
  {
    FirstBlockDecides(b, s, chain, j, f, readable);
    InsertAllSucceedsIff(b, s, chain, j, f, readable);
    var (s0, o0) := Insert(b, s, chain[0]);
    if |chain| > 1 {
      assert chain[1..][|chain| - 2] == chain[|chain| - 1];
    } else if f.epoch > s.finalized.epoch && s.nodes != {} && s.treeRoot != Some(f.root) {
      var s0' := if j.epoch > s.justified.epoch then s0.(prevJustified := s0.justified, justified := j) else s0;
      FirstStaysIff(b, s, s0'.(finalized := f), chain[0], f);
    }
  }

  /** A path down from the finalized block to r, through a child after the start of the finalized epoch: the
      checkpoint is one of r's own chain. */
  ghost predicate OwnCheckpoint(b: Blocks, s: Store, r: Root, f: Checkpoint, path: seq<Root>) {
    DownPath(b, s.nodes + {r}, path, SLOTS_PER_EPOCH * f.epoch) && path[0] == f.root && path[|path| - 1] == r
  }

  lemma OwnCheckpointKeepsFirst(b: Blocks, s: Store, r: Root, f: Checkpoint, path: seq<Root>)
    requires IsTree(b, s) && r in b.all && r !in s.nodes && OwnCheckpoint(b, s, r, f, path)
    ensures FirstStays(b, s, r, f) && (f.root in s.nodes || f.root == r)
  {
    var n, start := |path| - 1, SLOTS_PER_EPOCH * f.epoch;
    if n > 0 {
      var up := path[..n];
      assert b.all[path[n]].parent == path[n - 1];
      forall k | 0 <= k < n
        ensures path[k] in s.nodes
      {
        PathRises(b, s.nodes + {r}, path, start, k, n);
      }
      assert DownPath(b, s.nodes, up, start);
      PathSurvives(b, s, up, start);
      if n > 1 { PathRises(b, s.nodes, up, start, 0, n - 1); }
    }
  }

  /** With a finalized checkpoint of the chain's own, which is what callers pass, a chain on a known node is
      inserted whenever the balances can be read and the epoch fits, and its newest block is then a node. */
  lemma {:induction false} OwnCheckpointKeepsNewest(b: Blocks, s: Store, chain: seq<Root>, j: Checkpoint, f: Checkpoint,
                                                    readable: set<Root>, path: seq<Root>)
    requires IsTree(b, s) && Linked(b, chain) && chain != [] && AllUnknown(s, chain)
    requires OwnCheckpoint(b, s, chain[0], f, path)
    ensures var (s1, o) := InsertAll(b, s, chain, j, f, readable);
            && (Attached(b, s, chain[0]) && BalancesFine(s, j, readable) && EpochStartFits(f.epoch) ==> o.Ok?)
            && (o.Ok? ==> chain[|chain| - 1] in s1.nodes)
  {
    OwnCheckpointKeepsFirst(b, s, chain[0], f, path);
    InsertAllSucceedsIff(b, s, chain, j, f, readable);
    if InsertAll(b, s, chain, j, f, readable).1.Ok? {
      NewestIsNodeIff(b, s, chain, j, f, readable);
    }
  }

  // ---------------------------------------------------------------- failing inputs

  /** Block 1 is the tree root; 2 and 3 follow it, and 4 much later; 5 is a sibling of 2. */
  const SampleBlocks := map[1 := Block(1, 0), 2 := Block(2, 1), 3 := Block(3, 2), 4 := Block(40, 3), 5 := Block(2, 1)]

  const Sample := Blocks(SampleBlocks, map r | r in SampleBlocks :: Some(SampleBlocks[r]), map[])

  lemma SampleIsValid()
    ensures Sample.Valid()
  {
    forall r | Sample.Lookup(r).Some?
      ensures r in Sample.all && Sample.all[r] == Sample.Lookup(r).value
    {
    }
    forall r | r in Sample.all && Sample.all[r].parent in Sample.all
      ensures Sample.all[Sample.all[r].parent].slot < Sample.all[r].slot
    {
      assert r in {1, 2, 3, 4, 5};
    }
  }

  lemma SampleTree(s: Store)
    requires s.treeRoot == Some(1) && 1 in s.nodes && s.nodes <= {1, 2, 3, 5} && (3 in s.nodes ==> 2 in s.nodes)
    ensures IsTree(Sample, s)
  {
    SampleIsValid();
    forall r | r in s.nodes
      ensures r in Sample.all && (s.treeRoot == Some(r) || Sample.all[r].parent in s.nodes)
    {
      assert r in {1, 2, 3, 5};
    }
  }

  /** A finalized block inside the chain, but not first in it: the call fails on a chain that hangs on a
      known node, the first block stays inserted and both checkpoints have moved. */
  lemma {:induction false} FinalizedInsideChainFails(s: Store)
    requires s == Store({1}, Some(1), Checkpoint(0, 1), Checkpoint(0, 1), Checkpoint(0, 1))
    ensures IsTree(Sample, s)
    ensures InsertAll(Sample, s, [2, 3], Checkpoint(1, 1), Checkpoint(1, 3), {1}) ==
              (Store({1, 2}, Some(1), Checkpoint(1, 1), Checkpoint(0, 1), Checkpoint(1, 3)), UnknownFinalizedRoot)
  {
    SampleTree(s);
    var s0 := s.(nodes := {1, 2});
    SampleTree(s0);
    assert Insert(Sample, s, 2) == (s0, Ok) by { assert s.nodes + {2} == s0.nodes; }
    assert [2, 3][0] == 2;
  }

  /** What NewestIsNodeIff leaves for a checkpoint that is not the chain's own: with a finalized block on
      another branch, block 2 is inserted and pruned again, without an error. */
  lemma {:induction false} SuccessWithoutTheBlock(s: Store)
    requires s == Store({1, 5}, Some(1), Checkpoint(1, 1), Checkpoint(1, 1), Checkpoint(0, 1))
    ensures IsTree(Sample, s)
    ensures InsertAll(Sample, s, [2], Checkpoint(1, 1), Checkpoint(1, 5), {}) ==
              (Store({5}, Some(5), Checkpoint(1, 1), Checkpoint(1, 1), Checkpoint(1, 5)), Ok)
  {
    SampleTree(s);
    var s0 := s.(nodes := {1, 2, 5});
    SampleTree(s0);
    assert Insert(Sample, s, 2) == (s0, Ok) by { assert s.nodes + {2} == s0.nodes; }
    var s1 := s0.(finalized := Checkpoint(1, 5));
    assert Keep(Sample, s1, 5, 32).nodes == {5} by {
      assert !Survives(Sample, s1, 1, 5, 32) && Survives(Sample, s1, 5, 5, 32) && !Survives(Sample, s1, 2, 5, 32);
    }
    assert Prune(Sample, s1) == (s1.(nodes := {5}, treeRoot := Some(5)), Ok);
    assert [2][1..] == [];
  }

  // ---------------------------------------------------------------- the store as it is updated

  class ForkChoice {
    const blocks: Blocks
    /** Roots of states whose balances can be read. */
    const readable: set<Root>
    var nodes: set<Root>
    var treeRoot: Option<Root>
    var justified: Checkpoint
    var prevJustified: Checkpoint
    var finalized: Checkpoint

    ghost function Abs(): Store
      reads this
    {
      Store(nodes, treeRoot, justified, prevJustified, finalized)
    }

    /** The nodes form a tree: only the tree root may have an unknown parent. */
    ghost predicate Valid()
      reads this
    {
      IsTree(blocks, Abs())
    }

    constructor (blocks: Blocks, readable: set<Root>, justified: Checkpoint, finalized: Checkpoint)
      requires blocks.Valid()
      ensures Valid() && this.blocks == blocks && this.readable == readable
      ensures Abs() == Store({}, None, justified, justified, finalized)
    {
      this.blocks, this.readable := blocks, readable;
      nodes, treeRoot := {}, None;
      this.justified, this.prevJustified, this.finalized := justified, justified, finalized;
    }

    method InsertNode(r: Root) returns (o: Outcome)
      requires Valid() && r in blocks.all
      modifies this`nodes, this`treeRoot
      ensures Valid() && (Abs(), o) == Insert(blocks, old(Abs()), r)
    {
      if r in nodes {
        return Ok;
      }
      if blocks.all[r].parent !in nodes {
        if treeRoot.Some? {
          return InvalidParentRoot;
        }
        treeRoot := Some(r);
      }
      nodes := nodes + {r};
      return Ok;
    }

    method PruneNodes() returns (o: Outcome)
      requires Valid()
      modifies this`nodes, this`treeRoot
      ensures Valid() && (Abs(), o) == Prune(blocks, old(Abs()))
    {
      var f := finalized.root;
      if f !in nodes {
        return UnknownFinalizedRoot;
      }
      if treeRoot == Some(f) {
        return Ok;
      }
      ghost var s := Abs();
      var start := SLOTS_PER_EPOCH * finalized.epoch;
      KeepTwice(blocks, s, f, start);
      DropAllBut(f, -1);
      if !EpochStartFits(finalized.epoch) {
        return EpochOverflow;
      }
      if blocks.all[f].slot == start {
        KeepAtStart(blocks, s, f, start);
        return Ok;
      }
      DropAllBut(f, start);
      return Ok;
    }

    method DropAllBut(f: Root, after: int)
      requires Valid() && f in nodes
      modifies this`nodes, this`treeRoot
      ensures Abs() == Keep(blocks, old(Abs()), f, after)
    {
      var s := Store(nodes, treeRoot, justified, prevJustified, finalized);
      nodes := set r | r in nodes && Survives(blocks, s, r, f, after);
      treeRoot := Some(f);
    }

    method AdvanceCheckpoints(j: Checkpoint, f: Checkpoint) returns (o: Outcome)
      requires Valid()
      modifies this
      ensures Valid() && (Abs(), o) == UpdateCheckpoints(blocks, old(Abs()), j, f, readable)
    {
      if j.epoch > justified.epoch {
        prevJustified := justified;
        justified := j;
        if j.root !in readable {
          return BalancesFailed;
        }
      }
      if f.epoch <= finalized.epoch {
        return Ok;
      }
      finalized := f;
      o := PruneNodes();
    }

    /** Inserts a linked, oldest-first chain.  The store is left as the block-by-block definition says,
        errors included.  If none of the blocks is known yet, which outcome it is and what it leaves
        are decided at the first block, and success has its exact condition. */
    method InsertChain(chain: seq<Root>, j: Checkpoint, f: Checkpoint) returns (o: Outcome)
      requires Valid() && Linked(blocks, chain)
      modifies this
      ensures Valid() && (Abs(), o) == InsertAll(blocks, old(Abs()), chain, j, f, readable)
      ensures chain == [] ==> o.Ok? && Abs() == old(Abs())
      ensures chain != [] && AllUnknown(old(Abs()), chain) ==>
                (o.Ok? <==> && Attached(blocks, old(Abs()), chain[0])
                            && BalancesFine(old(Abs()), j, readable)
                            && FinalizedFine(blocks, old(Abs()), chain, f))
      ensures chain != [] && AllUnknown(old(Abs()), chain) && !Attached(blocks, old(Abs()), chain[0]) ==>
                Abs() == old(Abs())
    {
      ghost var s := Abs();
      for i := 0 to |chain|
        invariant Valid()
        invariant InsertAll(blocks, s, chain, j, f, readable) == InsertAll(blocks, Abs(), chain[i..], j, f, readable)
      {
        assert chain[i..][0] == chain[i] && chain[i..][1..] == chain[i + 1..];
        o := InsertNode(chain[i]);
        if o.Ok? {
          o := AdvanceCheckpoints(j, f);
        }
        if !o.Ok? {
          Decided(s, chain, j, f);
          return;
        }
      }
      o := Ok;
      Decided(s, chain, j, f);
    }

    lemma {:induction false} Decided(s: Store, chain: seq<Root>, j: Checkpoint, f: Checkpoint)
      requires IsTree(blocks, s) && Linked(blocks, chain)
      ensures chain != [] && AllUnknown(s, chain) ==>
                (InsertAll(blocks, s, chain, j, f, readable).1.Ok? <==>
                   && Attached(blocks, s, chain[0])
                   && BalancesFine(s, j, readable)
                   && FinalizedFine(blocks, s, chain, f))
      ensures chain != [] && AllUnknown(s, chain) && !Attached(blocks, s, chain[0]) ==>
                InsertAll(blocks, s, chain, j, f, readable).0 == s
    {
      if chain != [] && AllUnknown(s, chain) { InsertAllSucceedsIff(blocks, s, chain, j, f, readable); }
    }
  }
}
