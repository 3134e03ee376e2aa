/** Filling in blocks that fork choice is missing: a walk back through stored blocks, and the insertion
    of what it found. */
module ForkChoiceFill {
  import opened Common
  import opened ForkChoiceStore

  // ---------------------------------------------------------------- ancestors

  /** The first block at or before the slot, going back from r; None when a block cannot be read. */
  function AncestorByDB(blocks: Blocks, r: Root, slot: nat): Option<Root>
    requires blocks.Valid()
    decreases blocks.Height(r)
  {
    var b := blocks.Lookup(r);
    if b.None? then None
    else if b.value.slot <= slot then Some(r)
    else AncestorByDB(blocks, b.value.parent, slot)
  }

  /** Each root of the path is the parent of the one before it, and all but the last are after the slot. */
  ghost predicate AncestorPath(blocks: Blocks, path: seq<Root>, slot: nat) {
    && path != []
    && forall k :: 0 <= k < |path| - 1 ==>
         && blocks.Lookup(path[k]).Some?
         && blocks.Lookup(path[k]).value.slot > slot
         && blocks.Lookup(path[k]).value.parent == path[k + 1]
  }

  /** The path ends at a block at or before the slot. */
  ghost predicate Reaches(blocks: Blocks, path: seq<Root>, slot: nat)
    requires path != []
  {
    var b := blocks.Lookup(path[|path| - 1]);
    b.Some? && b.value.slot <= slot
  }

  /** Any path back to a block at or before the slot, with only later blocks before it, ends at the
      answer. */
  lemma {:induction false} AncestorIsEndOfPath(blocks: Blocks, path: seq<Root>, slot: nat)
    requires blocks.Valid() && AncestorPath(blocks, path, slot) && Reaches(blocks, path, slot)
    ensures AncestorByDB(blocks, path[0], slot) == Some(path[|path| - 1])
    decreases |path|
  {
    if |path| > 1 {
      assert forall k :: 0 <= k < |path[1..]| ==> path[1..][k] == path[k + 1];
      AncestorIsEndOfPath(blocks, path[1..], slot);
    }
  }

  /** There is such a path exactly when there is an answer; without one, the way back is broken. */
  lemma {:induction false} AncestorHasPath(blocks: Blocks, r: Root, slot: nat) returns (path: seq<Root>)
    requires blocks.Valid()
    ensures AncestorPath(blocks, path, slot) && path[0] == r
    ensures AncestorByDB(blocks, r, slot).Some? <==> Reaches(blocks, path, slot)
    ensures AncestorByDB(blocks, r, slot).None? <==> blocks.Lookup(path[|path| - 1]).None?
    decreases blocks.Height(r)
  {
    var b := blocks.Lookup(r);
    if b.None? || b.value.slot <= slot {
      path := [r];
    } else {
      var rest := AncestorHasPath(blocks, b.value.parent, slot);
      path := [r] + rest;
    }
  }

  /** Going back in two steps is going back in one. */
  lemma {:induction false} AncestorOfAncestor(blocks: Blocks, r: Root, near: nat, far: nat)
    requires blocks.Valid() && far <= near
    ensures AncestorByDB(blocks, r, near).None? ==> AncestorByDB(blocks, r, far).None?
    ensures AncestorByDB(blocks, r, near).Some? ==>
              AncestorByDB(blocks, AncestorByDB(blocks, r, near).value, far) == AncestorByDB(blocks, r, far)
    decreases blocks.Height(r)
  {
    var b := blocks.Lookup(r);
    if b.Some? && b.value.slot > near {
      AncestorOfAncestor(blocks, b.value.parent, near, far);
    }
  }

  // ---------------------------------------------------------------- the missing chain

  /** Oldest first: every root is the parent of the next, the last is the incoming block's parent, and
      the first is a child of the base. */
  ghost predicate LinkedTo(blocks: Blocks, chain: seq<Root>, from: Root, base: Root) {
    && (forall k :: 0 <= k < |chain| ==> blocks.Lookup(chain[k]).Some?)
    && (forall k :: 1 <= k < |chain| ==> blocks.Lookup(chain[k]).value.parent == chain[k - 1])
    && (if chain == [] then base == from
        else chain[|chain| - 1] == from && blocks.Lookup(chain[0]).value.parent == base)
  }

  /** The walk takes this block: unknown to fork choice, in the database, after the finalized slot. */
  ghost predicate Taken(blocks: Blocks, known: set<Root>, r: Root, fSlot: nat) {
    r !in known && r in blocks.db && blocks.Lookup(r).Some? && blocks.Lookup(r).value.slot > fSlot
  }

  ghost predicate MissingChain(blocks: Blocks, known: set<Root>, chain: seq<Root>, from: Root, base: Root, fSlot: nat) {
    && LinkedTo(blocks, chain, from, base)
    && (forall k :: 0 <= k < |chain| ==> Taken(blocks, known, chain[k], fSlot))
    && !Taken(blocks, known, base, fSlot)
  }

  lemma EmptyUnlessTaken(blocks: Blocks, known: set<Root>, chain: seq<Root>, from: Root, base: Root, fSlot: nat)
    requires MissingChain(blocks, known, chain, from, base, fSlot)
    ensures chain != [] <==> Taken(blocks, known, from, fSlot)
  {
    if chain != [] {
      assert Taken(blocks, known, chain[|chain| - 1], fSlot);
    }
  }

  /** The chain and its base are determined by where the walk starts. */
  lemma {:induction false} MissingChainIsUnique(blocks: Blocks, known: set<Root>, chain: seq<Root>, chain': seq<Root>,
                                                from: Root, base: Root, base': Root, fSlot: nat)
    requires MissingChain(blocks, known, chain, from, base, fSlot)
    requires MissingChain(blocks, known, chain', from, base', fSlot)
    ensures chain == chain' && base == base'
    decreases |chain|
  {
    EmptyUnlessTaken(blocks, known, chain, from, base, fSlot);
    EmptyUnlessTaken(blocks, known, chain', from, base', fSlot);
    if chain != [] {
      var n, n' := |chain|, |chain'|;
      var parent := blocks.Lookup(from).value.parent;
      assert MissingChain(blocks, known, chain[..n - 1], parent, base, fSlot);
      assert MissingChain(blocks, known, chain'[..n' - 1], parent, base', fSlot);
      MissingChainIsUnique(blocks, known, chain[..n - 1], chain'[..n' - 1], parent, base, base', fSlot);
      assert chain == chain[..n - 1] + [from] && chain' == chain'[..n' - 1] + [from];
    }
  }

  /** Slots rise along the chain, so no root comes twice. */
  lemma {:induction false} SlotsRise(blocks: Blocks, chain: seq<Root>, from: Root, base: Root, i: nat, j: nat)
    requires blocks.Valid() && LinkedTo(blocks, chain, from, base) && i < j < |chain|
    ensures blocks.Lookup(chain[i]).value.slot < blocks.Lookup(chain[j]).value.slot && chain[i] != chain[j]
    decreases j - i
  {
    assert blocks.Lookup(chain[j]).value.parent == chain[j - 1];
    if i < j - 1 {
      SlotsRise(blocks, chain, from, base, i, j - 1);
    }
  }

  ghost function Reversed(s: seq<Root>): seq<Root> {
    if s == [] then [] else [s[|s| - 1]] + Reversed(s[..|s| - 1])
  }

  lemma {:induction false} ReversedAppend(s: seq<Root>, r: Root)
    ensures Reversed(s + [r]) == [r] + Reversed(s)
  {
    assert (s + [r])[..|s|] == s;
  }

  lemma {:induction false} ReversedAt(s: seq<Root>)
    ensures |Reversed(s)| == |s| && forall k :: 0 <= k < |s| ==> Reversed(s)[k] == s[|s| - 1 - k]
  {
    if s != [] {
      ReversedAt(s[..|s| - 1]);
    }
  }

  method Reverse(a: array<Root>)
    modifies a
    ensures a[..] == Reversed(old(a[..]))
  {
    ghost var s := a[..];
    var i, j := 0, a.Length - 1;
    while i < j
      invariant 0 <= i <= a.Length && j == a.Length - 1 - i && i <= j + 2
      invariant forall k :: i <= k <= j ==> a[k] == s[k]
      invariant forall k :: 0 <= k < i ==> a[k] == s[a.Length - 1 - k] && a[a.Length - 1 - k] == s[k]
    {
      a[i], a[j] := a[j], a[i];
      i, j := i + 1, j - 1;
    }
    ReversedAt(s);
    forall k | 0 <= k < a.Length
      ensures a[k] == s[a.Length - 1 - k]
    {
      if k > j {
        assert a[a.Length - 1 - (a.Length - 1 - k)] == s[a.Length - 1 - k];
      }
    }
  }

  // ---------------------------------------------------------------- filling in

  datatype FillOutcome =
    | InvalidCheckpointArgs
    | FinalizedEpochOverflow
    | ReadFailed
    | NotDescendantOfFinalized
    | Filled(o: Outcome)

  class Service {
    const originRoot: Root
    const store: ForkChoice

    constructor (originRoot: Root, store: ForkChoice)
      ensures this.originRoot == originRoot && this.store == store
    {
      this.originRoot, this.store := originRoot, store;
    }

    function EnsureRootNotZeros(r: Root): Root {
      if r == ZERO_ROOT then originRoot else r
    }

    /** The walk: newest first, as the loop gathers it. */
    method WalkBack(from: Root, fSlot: nat) returns (ok: bool, pending: seq<Root>, base: Root)
      requires store.Valid()
      ensures MissingChain(store.blocks, store.nodes, Reversed(pending), from, base, fSlot)
      ensures !ok <==> base !in store.nodes && base in store.blocks.db && store.blocks.Lookup(base).None?
    {
      pending, base := [], from;
      while base !in store.nodes && base in store.blocks.db
        invariant LinkedTo(store.blocks, Reversed(pending), from, base)
        invariant forall k :: 0 <= k < |Reversed(pending)| ==>
                    Taken(store.blocks, store.nodes, Reversed(pending)[k], fSlot)
        decreases store.blocks.Height(base)
      {
        var b := store.blocks.Lookup(base);
        if b.None? {
          return false, pending, base;
        }
        if b.value.slot <= fSlot {
          break;
        }
        ReversedAppend(pending, base);
        pending := pending + [base];
        base := b.value.parent;
      }
      ok := true;
    }

    /** The walk ends at a block that is stored but cannot be read. */
    ghost predicate Unreadable(base: Root)
      reads store
    {
      base !in store.nodes && base in store.blocks.db && store.blocks.Lookup(base).None?
    }

    /** The chain hangs neither on a known node nor on the finalized root. */
    ghost predicate Adrift(base: Root)
      reads store
    {
      base !in store.nodes && base != EnsureRootNotZeros(store.finalized.root)
    }

    /** Hands fork choice the missing chain: oldest first, parent-linked, after the finalized slot, from a
        child of the base up to the incoming block's parent.  Before that happens an error has its exact
        condition and leaves fork choice as it was; from then on InsertAll says what happens. */
    method FillInMissingBlocks(parent: Root, f: Checkpoint, j: Checkpoint)
      returns (r: FillOutcome, chain: seq<Root>, base: Root)
      requires store.Valid()
      modifies store
      ensures store.Valid()
      ensures r.InvalidCheckpointArgs? <==> f.epoch > j.epoch
      ensures r.FinalizedEpochOverflow? <==> f.epoch <= j.epoch && !EpochStartFits(old(store.finalized).epoch)
      ensures !r.InvalidCheckpointArgs? && !r.FinalizedEpochOverflow? ==>
                && MissingChain(store.blocks, old(store.nodes), chain, parent, base,
                                SLOTS_PER_EPOCH * old(store.finalized).epoch)
                && (r.ReadFailed? <==> old(Unreadable(base)))
                && (r.NotDescendantOfFinalized? <==> !old(Unreadable(base)) && chain != [] && old(Adrift(base)))
      ensures r.Filled? ==>
                && Linked(store.blocks, chain)
                && (store.Abs(), r.o) == InsertAll(store.blocks, old(store.Abs()), chain, j, f, store.readable)
                && (chain == [] ==> r.o.Ok?)
                && (chain != [] ==>
                      (r.o.Ok? <==> && Attached(store.blocks, old(store.Abs()), chain[0])
                                    && BalancesFine(old(store.Abs()), j, store.readable)
                                    && FinalizedFine(store.blocks, old(store.Abs()), chain, f)))
      ensures !r.Filled? ==> store.Abs() == old(store.Abs())
    {
      chain, base := [], parent;
      if f.epoch > j.epoch {
        return InvalidCheckpointArgs, chain, base;
      }
      if !EpochStartFits(store.finalized.epoch) {
        return FinalizedEpochOverflow, chain, base;
      }
      var fSlot := SLOTS_PER_EPOCH * store.finalized.epoch;
      var ok, pending;
      ok, pending, base := WalkBack(parent, fSlot);
      ReversedAt(pending);
      chain := InOrder(pending);
      if !ok {
        return ReadFailed, chain, base;
      }
      if |pending| == 0 {
        return Filled(Ok), chain, base;
      }
      if base != EnsureRootNotZeros(store.finalized.root) && base !in store.nodes {
        return NotDescendantOfFinalized, chain, base;
      }
      var o := store.InsertChain(chain, j, f);
      r := Filled(o);
    }

    static method InOrder(pending: seq<Root>) returns (chain: seq<Root>)
      ensures chain == Reversed(pending)
    {
      var a := new Root[|pending|](i requires 0 <= i < |pending| => pending[i]);
      assert a[..] == pending;
      Reverse(a);
      chain := a[..];
    }
  }

  lemma SampleChains()
    ensures Sample.Valid()
    ensures MissingChain(Sample, {1}, [2, 3], 3, 1, 0)
    ensures MissingChain(Sample, {1, 2}, [4], 4, 3, 32)
  {
    assert Taken(Sample, {1}, 2, 0) && Taken(Sample, {1}, 3, 0);
  }

  /** How a chain can hang on a finalized root that is not a node: the first call finalizes block 3 before
      inserting it and fails, so that the second one, for block 4 on top of block 3, passes the descent
      check and is then refused for its unknown parent. */
  method FinalizedRootWithoutNode() returns (service: Service, r1: FillOutcome, r2: FillOutcome)
    ensures r1 == Filled(UnknownFinalizedRoot) && r2 == Filled(InvalidParentRoot)
    ensures service.store.nodes == {1, 2} && service.store.finalized == Checkpoint(1, 3)
  {
    SampleChains();
    var store := new ForkChoice(Sample, {1}, Checkpoint(0, 1), Checkpoint(0, 1));
    var o := store.InsertNode(1);
    assert store.nodes == {1};
    service := new Service(1, store);
    FinalizedInsideChainFails(store.Abs());
    var chain, base;
    r1, chain, base := service.FillInMissingBlocks(3, Checkpoint(1, 3), Checkpoint(1, 1));
    MissingChainIsUnique(Sample, {1}, chain, [2, 3], 3, base, 1, 0);
    r2, chain, base := service.FillInMissingBlocks(4, Checkpoint(1, 3), Checkpoint(1, 1));
    MissingChainIsUnique(Sample, {1, 2}, chain, [4], 4, base, 3, 32);
  }
}
