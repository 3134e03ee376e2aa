/** Inserting a batch of blocks, each with the checkpoints of its own state, as initial sync does. */
module ForkChoiceBatch {
  import opened Common
  import opened ForkChoiceStore

  datatype Entry = Entry(root: Root, justified: Checkpoint, finalized: Checkpoint)

  ghost predicate KnownRoots(b: Blocks, batch: seq<Entry>) {
    forall i :: 0 <= i < |batch| ==> batch[i].root in b.all
  }

  /** Block by block, up to the first error. */
  function InsertBatch(b: Blocks, s: Store, batch: seq<Entry>, readable: set<Root>): (res: (Store, Outcome))
    requires IsTree(b, s) && KnownRoots(b, batch)
    ensures IsTree(b, res.0)
    decreases |batch|
  {
    if batch == [] then (s, Ok)
    else
      var e := batch[0];
      var (s1, o1) := InsertOne(b, s, e.root, e.justified, e.finalized, readable);
      if o1.Ok? then InsertBatch(b, s1, batch[1..], readable) else (s1, o1)
  }

  ghost function Uniform(chain: seq<Root>, j: Checkpoint, f: Checkpoint): (batch: seq<Entry>)
    ensures |batch| == |chain| && forall i :: 0 <= i < |chain| ==> batch[i] == Entry(chain[i], j, f)
  {
    seq(|chain|, i requires 0 <= i < |chain| => Entry(chain[i], j, f))
  }

  /** A chain with one pair of checkpoints is a batch in which every block has that pair. */
  lemma {:induction false} ChainIsUniformBatch(b: Blocks, s: Store, chain: seq<Root>, j: Checkpoint, f: Checkpoint,
                                               readable: set<Root>)
    requires IsTree(b, s) && forall k :: 0 <= k < |chain| ==> chain[k] in b.all
    ensures InsertBatch(b, s, Uniform(chain, j, f), readable) == InsertAll(b, s, chain, j, f, readable)
    decreases |chain|
  {
    if chain != [] {
      var (s1, o1) := InsertOne(b, s, chain[0], j, f, readable);
      assert Uniform(chain, j, f)[1..] == Uniform(chain[1..], j, f);
      if o1.Ok? { ChainIsUniformBatch(b, s1, chain[1..], j, f, readable); }
    }
  }

  // ---------------------------------------------------------------- a batch with its own checkpoints

  /** The blocks of the line from lo on, before hi, are nodes. */
  ghost predicate Holds(s: Store, line: seq<Root>, lo: nat, hi: nat) {
    hi <= |line| && forall k :: lo <= k < hi ==> line[k] in s.nodes
  }

  /** A checkpoint at place `at` of the line, for the block at place n: the next block of the line is after the
      start of the finalized epoch. */
  ghost predicate AtPlace(b: Blocks, line: seq<Root>, n: nat, f: Checkpoint, at: nat)
    requires Linked(b, line) && n < |line|
  {
    && at <= n && line[at] == f.root && EpochStartFits(f.epoch)
    && (at < n ==> b.all[line[at + 1]].slot > SLOTS_PER_EPOCH * f.epoch)
  }

  /** A checkpoint on the line prunes none of the line from its place on. */
  lemma {:induction false} LineSurvives(b: Blocks, s: Store, line: seq<Root>, n: nat, f: Checkpoint, at: nat, k: nat)
    requires IsTree(b, s) && Linked(b, line) && n < |line| && AtPlace(b, line, n, f, at) && at <= k <= n
    requires Holds(s, line, at, n + 1)
    ensures Survives(b, s, line[k], f.root, SLOTS_PER_EPOCH * f.epoch)
  {
    var path := line[at..k + 1];
    assert forall i :: 0 <= i < |path| ==> path[i] == line[at + i];
    PathSurvives(b, s, path, SLOTS_PER_EPOCH * f.epoch);
  }

  lemma PruneKeepsLine(b: Blocks, s: Store, line: seq<Root>, n: nat, at: nat)
    requires IsTree(b, s) && Linked(b, line) && n < |line| && AtPlace(b, line, n, s.finalized, at)
    requires Holds(s, line, at, n + 1)
    ensures var (s1, o) := Prune(b, s);
            o.Ok? && Holds(s1, line, at, n + 1) && s1.justified == s.justified && s1.finalized == s.finalized
  {
    forall k | at <= k <= n
      ensures Survives(b, s, line[k], s.finalized.root, SLOTS_PER_EPOCH * s.finalized.epoch)
    {
      LineSurvives(b, s, line, n, s.finalized, at, k);
    }
  }

  /** One block of the line, whose newer finalized checkpoint, if any, is on the line. */
  lemma BlockIsInserted(b: Blocks, s: Store, line: seq<Root>, lo: nat, n: nat, e: Entry, at: nat, readable: set<Root>)
    requires IsTree(b, s) && Linked(b, line) && lo < n < |line| && Holds(s, line, lo, n)
    requires OwnEntry(b, s, line, lo, n, e, at, readable)
    ensures var (s1, o) := InsertOne(b, s, e.root, e.justified, e.finalized, readable);
            && o.Ok? && Holds(s1, line, at, n + 1)
            && s1.justified.epoch >= s.justified.epoch && s1.finalized.epoch >= s.finalized.epoch
  {
    assert b.all[line[n]].parent == line[n - 1];
    var s0 := Insert(b, s, e.root).0;
    assert Holds(s0, line, lo, n + 1);
    if e.finalized.epoch > s.finalized.epoch {
      var moved := if e.justified.epoch > s0.justified.epoch
                   then s0.(prevJustified := s0.justified, justified := e.justified) else s0;
      PruneKeepsLine(b, moved.(finalized := e.finalized), line, n, at);
    }
  }

  /** A block whose newer checkpoint, if any, is on the line, not before place lo, and whose newer justified
      balances can be read. */
  ghost predicate OwnEntry(b: Blocks, s: Store, line: seq<Root>, lo: nat, n: nat, e: Entry, at: nat,
                           readable: set<Root>)
    requires Linked(b, line) && n < |line|
  {
    && e.root == line[n] && BalancesFine(s, e.justified, readable) && lo <= at <= n
    && (e.finalized.epoch > s.finalized.epoch ==> AtPlace(b, line, n, e.finalized, at))
  }

  /** The batch is the line from place n on, and the places of its checkpoints do not go back. */
  ghost predicate OwnBatch(b: Blocks, s: Store, line: seq<Root>, lo: nat, n: nat, batch: seq<Entry>, places: seq<nat>,
                           readable: set<Root>)
    decreases |batch|
  {
    && Linked(b, line) && |line| == n + |batch| && |places| == |batch|
    && (batch != [] ==>
          && OwnEntry(b, s, line, lo, n, batch[0], places[0], readable)
          && OwnBatch(b, s, line, places[0], n + 1, batch[1..], places[1..], readable))
  }

  /** A store whose checkpoints have only moved on asks no more. */
  lemma {:induction false} StillOwn(b: Blocks, s: Store, s1: Store, line: seq<Root>, lo: nat, n: nat,
                                    batch: seq<Entry>, places: seq<nat>, readable: set<Root>)
    requires OwnBatch(b, s, line, lo, n, batch, places, readable)
    requires s1.justified.epoch >= s.justified.epoch && s1.finalized.epoch >= s.finalized.epoch
    ensures OwnBatch(b, s1, line, lo, n, batch, places, readable)
    decreases |batch|
  {
    if batch != [] { StillOwn(b, s, s1, line, places[0], n + 1, batch[1..], places[1..], readable); }
  }

  lemma {:induction false} OwnRoots(b: Blocks, s: Store, line: seq<Root>, lo: nat, n: nat, batch: seq<Entry>,
                                    places: seq<nat>, readable: set<Root>)
    requires OwnBatch(b, s, line, lo, n, batch, places, readable)
    ensures KnownRoots(b, batch)
    decreases |batch|
  {
    if batch != [] {
      OwnRoots(b, s, line, places[0], n + 1, batch[1..], places[1..], readable);
      assert forall i :: 1 <= i < |batch| ==> batch[i] == batch[1..][i - 1];
    }
  }

  /** Such a batch on a known block is inserted without an error, whatever is pruned on the way, and its newest
      block is then a node. */
  lemma {:induction false} OwnBatchIsInserted(b: Blocks, s: Store, line: seq<Root>, lo: nat, n: nat, batch: seq<Entry>,
                                              places: seq<nat>, readable: set<Root>)
    requires IsTree(b, s) && OwnBatch(b, s, line, lo, n, batch, places, readable) && lo < n && Holds(s, line, lo, n)
    ensures KnownRoots(b, batch)
    ensures var (s1, o) := InsertBatch(b, s, batch, readable); o.Ok? && line[|line| - 1] in s1.nodes
    decreases |batch|
  {
    OwnRoots(b, s, line, lo, n, batch, places, readable);
    if batch != [] {
      var e := batch[0];
      BlockIsInserted(b, s, line, lo, n, e, places[0], readable);
      var s1 := InsertOne(b, s, e.root, e.justified, e.finalized, readable).0;
      StillOwn(b, s, s1, line, places[0], n + 1, batch[1..], places[1..], readable);
      OwnBatchIsInserted(b, s1, line, places[0], n + 1, batch[1..], places[1..], readable);
    }
  }

  /** InsertChain over a batch. */
  method InsertEach(forkChoice: ForkChoice, batch: seq<Entry>) returns (o: Outcome)
    requires forkChoice.Valid() && KnownRoots(forkChoice.blocks, batch)
    modifies forkChoice
    ensures forkChoice.Valid()
    ensures (forkChoice.Abs(), o) ==
              InsertBatch(forkChoice.blocks, old(forkChoice.Abs()), batch, forkChoice.readable)
  {
    ghost var s := forkChoice.Abs();
    for i := 0 to |batch|
      invariant forkChoice.Valid()
      invariant InsertBatch(forkChoice.blocks, s, batch, forkChoice.readable) ==
                InsertBatch(forkChoice.blocks, forkChoice.Abs(), batch[i..], forkChoice.readable)
    {
      assert batch[i..][0] == batch[i] && batch[i..][1..] == batch[i + 1..];
      o := forkChoice.InsertNode(batch[i].root);
      if o.Ok? {
        o := forkChoice.AdvanceCheckpoints(batch[i].justified, batch[i].finalized);
      }
      if !o.Ok? {
        return;
      }
    }
    o := Ok;
  }
}
