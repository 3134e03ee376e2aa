/** blobNotifierMap and missingBlobIndices as the source writes them, tied step by step to the
    interleaving model of blob availability. */
module BlobNotifiers {
  import opened Common
  import opened BlobAvailability

  ghost function Marked(flags: seq<bool>): set<Idx> {
    set i: Idx | i < |flags| && flags[i]
  }

  ghost function MarkedIn(seenIndex: map<Root, seq<bool>>): map<Root, set<Idx>> {
    map r | r in seenIndex :: Marked(seenIndex[r])
  }

  /** The two maps, and the channels made so far. */
  class NotifierMap {
    const blocks: Blocks
    var notifiers: map<Root, ChanId>
    var seenIndex: map<Root, seq<bool>>
    var chans: seq<Chan>

    /** The flags of a root have one entry per blob the root's slot allows. */
    ghost predicate Valid()
      reads this
    {
      forall r :: r in seenIndex ==> |seenIndex[r]| == blocks.maxBlobs(r)
    }

    /** This is the notifier part of the given state. */
    ghost predicate Shows(s: State)
      reads this
    {
      Valid() && s.notifiers == notifiers && s.seen == MarkedIn(seenIndex) && s.chans == chans
    }

    constructor (blocks: Blocks)
      ensures this.blocks == blocks && Shows(Init)
    {
      this.blocks, notifiers, seenIndex, chans := blocks, map[], map[], [];
    }

    /** The part of notifyIndex done under the mutex: it is the step Notify of the model, and returns the
        channel to send to, or None when there is nothing to send. */
    method NotifyIndex(root: Root, idx: Idx, ghost s: State, ghost p: Pid) returns (target: Option<ChanId>)
      requires Shows(s) && p in s.receivers && s.receivers[p] == Notifying(root, idx)
      modifies this`notifiers, this`seenIndex, this`chans
      ensures Shows(Apply(blocks, s, Notify(p)))
      ensures Apply(blocks, s, Notify(p)).receivers[p] == if target.None? then Returned else Sending(target.value, idx)
    {
      if idx >= blocks.maxBlobs(root) {
        return None;
      }
      var first := MarkSeen(root, idx);
      if !first {
        return None;
      }
      var c := Channel(root);
      return Some(c);
    }

    /** Sets the flag of the index; whether it was not set before. */
    method MarkSeen(root: Root, idx: Idx) returns (first: bool)
      requires Valid() && idx < blocks.maxBlobs(root)
      modifies this`seenIndex
      ensures Valid()
      ensures var seen := old(MarkedIn(seenIndex)); var marked := if root in seen then seen[root] else {};
              && (first <==> idx !in marked)
              && MarkedIn(seenIndex) == if first then seen[root := marked + {idx}] else seen
    {
      var seen := if root in seenIndex then seenIndex[root] else seq(blocks.maxBlobs(root), i => false);
      assert root !in seenIndex ==> Marked(seen) == {};
      if seen[idx] {
        assert idx in Marked(seen);
        return false;
      }
      assert Marked(seen[idx := true]) == Marked(seen) + {idx};
      seenIndex := seenIndex[root := seen[idx := true]];
      return true;
    }

    /** The channel for a root, created when it is not there yet. */
    method Channel(root: Root) returns (c: ChanId)
      modifies this`notifiers, this`chans
      ensures root in old(notifiers) ==> notifiers == old(notifiers) && chans == old(chans) && c == notifiers[root]
      ensures root !in old(notifiers) ==>
                && c == |old(chans)| && notifiers == old(notifiers)[root := c]
                && chans == old(chans) + [Chan(blocks.maxBlobs(root), [])]
    {
      if root !in notifiers {
        notifiers := notifiers[root := |chans|];
        chans := chans + [Chan(blocks.maxBlobs(root), [])];
      }
      return notifiers[root];
    }

    /** forRoot is the step ForRoot: the waiter goes on to wait at the channel returned. */
    method ForRootChannel(root: Root, ghost s: State) returns (c: ChanId)
      requires Shows(s) && Enabled(s, ForRoot(root))
      modifies this`notifiers, this`chans
      ensures Shows(Apply(blocks, s, ForRoot(root)))
      ensures Apply(blocks, s, ForRoot(root)).waiters[root] == Waiting(c, s.waiters[root].missing)
    {
      c := Channel(root);
    }

    /** delete is the step DeleteNotifier. */
    method Delete(root: Root, ghost s: State)
      requires Shows(s) && Enabled(s, DeleteNotifier(root))
      modifies this`notifiers, this`seenIndex
      ensures Shows(Apply(blocks, s, DeleteNotifier(root)))
    {
      seenIndex := seenIndex - {root};
      notifiers := notifiers - {root};
      assert MarkedIn(seenIndex) == s.seen - {root};
    }
  }

  /** The indices with a commitment that are not on disk; an error when there are too many commitments. */
  method MissingBlobIndices(b: Blocks, stored: set<(Root, Idx)>, root: Root) returns (r: Option<set<Idx>>)
    ensures r.None? <==> |b.commitments(root)| > 0 && |b.commitments(root)| > b.maxBlobs(root)
    ensures r.Some? ==> r.value == MissingIndices(b, stored, root)
  {
    var expected := b.commitments(root);
    if |expected| == 0 {
      return Some({});
    }
    if |expected| > b.maxBlobs(root) {
      return None;
    }
    var missing: set<Idx> := {};
    for i := 0 to |expected|
      invariant forall k: Idx :: k in missing <==> k < i && expected[k] > 0 && (root, k) !in stored
    {
      if expected[i] > 0 && (root, i) !in stored {
        missing := missing + {i};
      }
    }
    return Some(missing);
  }
}
