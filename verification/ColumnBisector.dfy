/** The bisector the store is given when it backfills: columns are grouped by the peer they came from,
    and each peer's columns are one batch. */
module ColumnBisector {
  import opened Common
  import opened ColumnStore

  type Peer = nat

  /** Which peer each column, by root and index, came from. */
  type Source = map<Root, map<nat, Peer>>

  type Groups = map<Peer, seq<Column>>

  function SourceOf(source: Source, place: Place): Option<Peer> {
    if place.0 in source && place.1 in source[place.0] then Some(source[place.0][place.1]) else None
  }

  predicate Tracked(source: Source, c: Column) {
    SourceOf(source, At(c)).Some?
  }

  ghost predicate AllTracked(source: Source, columns: seq<Column>) {
    forall c :: c in columns ==> Tracked(source, c)
  }

  function PeerOf(source: Source, c: Column): Peer
    requires Tracked(source, c)
  {
    SourceOf(source, At(c)).value
  }

  // ---------------------------------------------------------------- grouping by peer

  function Grow(groups: Groups, p: Peer, c: Column): Groups {
    groups[p := (if p in groups then groups[p] else []) + [c]]
  }

  /** Every column appended to the group of its peer, in order. */
  ghost function Grouped(groups: Groups, source: Source, columns: seq<Column>): Groups
    requires AllTracked(source, columns)
  {
    if columns == [] then groups
    else
      var last := columns[|columns| - 1];
      assert last in columns;
      Grow(Grouped(groups, source, columns[..|columns| - 1]), PeerOf(source, last), last)
  }

  ghost predicate NoneEmpty(groups: Groups) {
    forall p :: p in groups ==> groups[p] != []
  }

  lemma {:induction false} GroupedHolds(groups: Groups, source: Source, columns: seq<Column>)
    requires AllTracked(source, columns)
    ensures forall c :: c in columns ==>
              PeerOf(source, c) in Grouped(groups, source, columns)
              && c in Grouped(groups, source, columns)[PeerOf(source, c)]
    ensures NoneEmpty(groups) ==> NoneEmpty(Grouped(groups, source, columns))
  {
    if columns != [] {
      GroupedHolds(groups, source, columns[..|columns| - 1]);
      assert columns == columns[..|columns| - 1] + [columns[|columns| - 1]];
    }
  }

  /** All columns of all groups. */
  ghost function Bag(groups: Groups): multiset<Column> {
    if groups == map[] then multiset{}
    else
      var p :| p in groups;
      multiset(groups[p]) + Bag(groups - {p})
  }

  lemma {:induction false} BagWithout(groups: Groups, p: Peer)
    requires p in groups
    ensures Bag(groups) == multiset(groups[p]) + Bag(groups - {p})
    decreases |groups|
  {
    var first :| first in groups && Bag(groups) == multiset(groups[first]) + Bag(groups - {first});
    if first != p {
      BagWithout(groups - {first}, p);
      BagWithout(groups - {p}, first);
      assert groups - {first} - {p} == groups - {p} - {first};
    }
  }

  lemma BagOfNew(groups: Groups, p: Peer, columns: seq<Column>)
    requires p !in groups
    ensures Bag(groups[p := columns]) == multiset(columns) + Bag(groups)
  {
    BagWithout(groups[p := columns], p);
    assert groups[p := columns] - {p} == groups;
  }

  lemma BagOfLonger(rest: Groups, p: Peer, columns: seq<Column>, c: Column)
    requires p !in rest
    ensures Bag(rest[p := columns + [c]]) == Bag(rest[p := columns]) + multiset{c}
  {
    BagOfNew(rest, p, columns);
    BagOfNew(rest, p, columns + [c]);
  }

  lemma {:induction false} BagOfGrown(groups: Groups, p: Peer, c: Column)
    ensures Bag(Grow(groups, p, c)) == Bag(groups) + multiset{c}
  {
    if p in groups {
      assert (groups - {p})[p := groups[p]] == groups;
      assert (groups - {p})[p := groups[p] + [c]] == Grow(groups, p, c);
      BagOfLonger(groups - {p}, p, groups[p], c);
    } else {
      assert [] + [c] == [c];
      BagOfNew(groups, p, [c]);
    }
  }

  /** Grouping loses no column and makes none up. */
  lemma {:induction false} BagOfGrouped(groups: Groups, source: Source, columns: seq<Column>)
    requires AllTracked(source, columns)
    ensures Bag(Grouped(groups, source, columns)) == Bag(groups) + multiset(columns)
  {
    if columns != [] {
      var front, last := columns[..|columns| - 1], columns[|columns| - 1];
      assert last in columns && columns == front + [last];
      BagOfGrouped(groups, source, front);
      BagOfGrown(Grouped(groups, source, front), PeerOf(source, last), last);
    }
  }

  // ---------------------------------------------------------------- the batches

  /** A list of the peers with a group, each once, in whatever order the map is walked. */
  ghost predicate Lists(pids: seq<Peer>, groups: Groups) {
    NoDuplicates(pids) && forall p :: p in pids <==> p in groups
  }

  ghost function Batches(groups: Groups, pids: seq<Peer>): (batches: seq<seq<Column>>)
    requires forall p :: p in pids ==> p in groups
    ensures |batches| == |pids| && forall k :: 0 <= k < |pids| ==> batches[k] == groups[pids[k]]
  {
    seq(|pids|, k requires 0 <= k < |pids| => groups[pids[k]])
  }

  ghost function Joined(batches: seq<seq<Column>>): seq<Column> {
    if batches == [] then [] else Joined(batches[..|batches| - 1]) + batches[|batches| - 1]
  }

  lemma LastListed(groups: Groups, pids: seq<Peer>)
    requires Lists(pids, groups) && pids != []
    ensures var n := |pids| - 1;
            && pids[n] in groups
            && Lists(pids[..n], groups - {pids[n]})
            && Batches(groups, pids)[..n] == Batches(groups - {pids[n]}, pids[..n])
  {
    var n := |pids| - 1;
    assert pids == pids[..n] + [pids[n]];
  }

  /** The batches together are the groups. */
  lemma {:induction false} BagOfBatches(groups: Groups, pids: seq<Peer>)
    requires Lists(pids, groups)
    ensures multiset(Joined(Batches(groups, pids))) == Bag(groups)
    decreases |pids|
  {
    if pids == [] {
      assert groups.Keys == {};
      assert groups == map[];
    } else {
      var n := |pids| - 1;
      LastListed(groups, pids);
      BagOfBatches(groups - {pids[n]}, pids[..n]);
      BagWithout(groups, pids[n]);
    }
  }

  /** What the batches of a bisection hold: the columns given, and whatever earlier calls left behind. */
  lemma {:induction false} BatchesHold(leftover: Groups, source: Source, columns: seq<Column>, pids: seq<Peer>)
    requires AllTracked(source, columns) && Lists(pids, Grouped(leftover, source, columns))
    ensures multiset(Joined(Batches(Grouped(leftover, source, columns), pids))) == multiset(columns) + Bag(leftover)
    ensures multiset(Joined(Batches(Grouped(leftover, source, columns), pids))) == multiset(columns) <==>
            Bag(leftover) == multiset{}
  {
    BagOfGrouped(leftover, source, columns);
    BagOfBatches(Grouped(leftover, source, columns), pids);
  }

  // ---------------------------------------------------------------- the iterator it is

  ghost predicate AnyBad(history: seq<Turn>) {
    exists k :: 0 <= k < |history| && history[k].bad
  }

  /** One batch per peer, then the end; an error if any batch went wrong, or one had before. */
  ghost function BisectionOf(batches: seq<seq<Column>>, failedBefore: bool): Bisection {
    Bisection(
      (history: seq<Turn>) =>
        if |history| < |batches| then Next(Some(batches[|history|]), NoError) else Next(None, EndOfFile),
      (history: seq<Turn>) => failedBefore || AnyBad(history),
      |batches|)
  }

  /** It ends, and it honours what the store asks of a bisection, whatever was left from earlier calls. */
  lemma {:induction false} ColumnBisectorHonours(leftover: Groups, source: Source, columns: seq<Column>,
                                                 pids: seq<Peer>, failedBefore: bool)
    requires AllTracked(source, columns) && Lists(pids, Grouped(leftover, source, columns))
    ensures var b := BisectionOf(Batches(Grouped(leftover, source, columns), pids), failedBefore);
            Finite(b) && Honours(b, columns)
  {
    var groups := Grouped(leftover, source, columns);
    var b := BisectionOf(Batches(groups, pids), failedBefore);
    GroupedHolds(leftover, source, columns);
    forall history, c | Ended(b.next(history)) && !b.failed(history) && c in columns
      ensures InGoodBatch(b, history, c)
    {
      var k :| 0 <= k < |pids| && pids[k] == PeerOf(source, c);
      assert |history[..k]| == k && BatchHolds(b, history[..k], c);
    }
  }

  /** What Bisect gives the store: nothing when a column is not tracked.  `walk` is the order in which the
      groups are visited. */
  ghost function Bisected(leftover: Groups, source: Source, walk: Groups -> seq<Peer>, failedBefore: bool,
                          columns: seq<Column>): Option<Bisection>
    requires forall groups :: Lists(walk(groups), groups)
  {
    if !AllTracked(source, columns) then None
    else
      var groups := Grouped(leftover, source, columns);
      assert Lists(walk(groups), groups);
      Some(BisectionOf(Batches(groups, walk(groups)), failedBefore))
  }

  /** With this bisector, in whatever state it is reused, the store's guarantee holds without further
      conditions. */
  lemma StoreCanRely(env: Environment, leftover: Groups, source: Source, walk: Groups -> seq<Peer>, failedBefore: bool)
    requires forall groups :: Lists(walk(groups), groups)
    requires env.bisector.Some? && forall columns ::
               env.bisector.value(columns) == Bisected(leftover, source, walk, failedBefore, columns)
    ensures BisectorHonours(env) && BisectorFinite(env)
  {
    forall columns | env.bisector.value(columns).Some?
      ensures Finite(env.bisector.value(columns).value) && Honours(env.bisector.value(columns).value, columns)
    {
      ColumnBisectorHonours(leftover, source, columns, walk(Grouped(leftover, source, columns)), failedBefore);
    }
  }

  ghost predicate Failing(failures: map<Root, set<nat>>, place: Place) {
    place.0 in failures && place.1 in failures[place.0]
  }

  class Bisector {
    var columnSource: Source
    var bisected: Groups
    var pidIter: seq<Peer>
    var current: nat
    var next: nat
    var errs: nat
    var failures: map<Root, set<nat>>

    constructor ()
      ensures columnSource == map[] && bisected == map[] && pidIter == [] && errs == 0 && failures == map[]
    {
      columnSource, bisected, pidIter, current, next, errs, failures := map[], map[], [], 0, 0, 0, map[];
    }

    method SetColumnSource(root: Root, index: nat, pid: Peer)
      modifies this`columnSource
      ensures forall place :: SourceOf(columnSource, place) ==
                if place == (root, index) then Some(pid) else SourceOf(old(columnSource), place)
    {
      if root !in columnSource {
        columnSource := columnSource[root := map[]];
      }
      var entry: map<nat, Peer> := columnSource[root][index := pid];
      columnSource := columnSource[root := entry];
    }

    /** All the columns are now tracked, as coming from the peer. */
    method AddPeerColumns(pid: Peer, columns: seq<Column>)
      modifies this`columnSource
      ensures forall place :: SourceOf(columnSource, place) ==
                if place in Places(columns) then Some(pid) else SourceOf(old(columnSource), place)
    {
      for i := 0 to |columns|
        invariant forall place :: SourceOf(columnSource, place) ==
                    if place in Places(columns[..i]) then Some(pid) else SourceOf(old(columnSource), place)
      {
        OneMorePlace(columns, i);
        SetColumnSource(columns[i].root, columns[i].index, pid);
      }
      assert columns[..|columns|] == columns;
    }

    lemma OneMorePlace(columns: seq<Column>, i: nat)
      requires i < |columns|
      ensures Places(columns[..i + 1]) == Places(columns[..i]) + {At(columns[i])}
    {
      assert columns[..i + 1] == columns[..i] + [columns[i]];
    }

    /** Groups the columns by peer.  An untracked column is an error, after the columns before it have
        been added; groups of earlier calls are still there. */
    method Bisect(columns: seq<Column>) returns (ok: bool)
      modifies this`bisected, this`pidIter, this`current, this`next
      ensures ok <==> AllTracked(columnSource, columns)
      ensures ok ==> bisected == Grouped(old(bisected), columnSource, columns) && Lists(pidIter, bisected)
      ensures ok ==> current == next == 0
      ensures !ok ==> exists k :: 0 <= k < |columns| && !Tracked(columnSource, columns[k])
                                  && AllTracked(columnSource, columns[..k])
                                  && bisected == Grouped(old(bisected), columnSource, columns[..k])
    {
      for i := 0 to |columns|
        invariant AllTracked(columnSource, columns[..i])
        invariant bisected == Grouped(old(bisected), columnSource, columns[..i])
      {
        var col := columns[i];
        if !Tracked(columnSource, col) {
          assert col in columns;
          return false;
        }
        assert columns[..i + 1][..i] == columns[..i];
        bisected := Grow(bisected, PeerOf(columnSource, col), col);
      }
      assert columns[..|columns|] == columns;
      pidIter := Walk(bisected.Keys);
      current, next := 0, 0;
      return true;
    }

    static method Walk(peers: set<Peer>) returns (pids: seq<Peer>)
      ensures NoDuplicates(pids) && forall p :: p in pids <==> p in peers
    {
      pids := [];
      var rest := peers;
      while rest != {}
        invariant rest <= peers && NoDuplicates(pids)
        invariant forall p :: p in pids <==> p in peers && p !in rest
        decreases |rest|
      {
        var p :| p in rest;
        pids := pids + [p];
        rest := rest - {p};
      }
    }

    /** Before the call of Next: the turns so far went as recorded, and the later batches are untouched. */
    ghost predicate Shows(batches: seq<seq<Column>>, failedBefore: bool, history: seq<Turn>)
      reads this
    {
      && |history| <= |batches| == |pidIter| && next == |history|
      && NoDuplicates(pidIter)
      && (forall k :: 0 <= k < |pidIter| ==>
            pidIter[k] in bisected && bisected[pidIter[k]] == if k < |history| then history[k].left else batches[k])
      && (errs > 0 <==> failedBefore || AnyBad(history))
    }

    /** Between Next and what follows it: the batch of the current peer is with the store. */
    ghost predicate HandedOut(batches: seq<seq<Column>>, failedBefore: bool, history: seq<Turn>, held: seq<Column>)
      reads this
    {
      && |history| < |batches| == |pidIter| && next == |history| + 1 && current == |history|
      && NoDuplicates(pidIter)
      && (forall k :: 0 <= k < |pidIter| ==>
            pidIter[k] in bisected && bisected[pidIter[k]] ==
              if k < |history| then history[k].left else if k == |history| then held else batches[k])
      && (errs > 0 <==> failedBefore || AnyBad(history))
    }

    /** After Bisect the object is the iterator BisectionOf describes. */
    lemma BisectShows(batches: seq<seq<Column>>)
      requires Lists(pidIter, bisected) && next == 0 && batches == Batches(bisected, pidIter)
      ensures Shows(batches, errs > 0, [])
    {
    }

    method Next(ghost batches: seq<seq<Column>>, ghost failedBefore: bool, ghost history: seq<Turn>) returns (n: Next)
      requires Shows(batches, failedBefore, history)
      modifies this`current, this`next
      ensures n == BisectionOf(batches, failedBefore).next(history)
      ensures n.columns.Some? ==> HandedOut(batches, failedBefore, history, n.columns.value)
      ensures n.columns.None? ==> Shows(batches, failedBefore, history)
    {
      if next >= |pidIter| {
        return ColumnStore.Next.Next(None, EndOfFile);
      }
      current := next;
      var pid := pidIter[current];
      var cols := bisected[pid];
      next := next + 1;
      return ColumnStore.Next.Next(Some(cols), NoError);
    }

    /** The store filters the batch in place, and the batch is this object's own slice. */
    method Filter(left: seq<Column>, ghost batches: seq<seq<Column>>, ghost failedBefore: bool,
                  ghost history: seq<Turn>, ghost held: seq<Column>)
      requires HandedOut(batches, failedBefore, history, held)
      modifies this`bisected
      ensures HandedOut(batches, failedBefore, history, left)
      ensures Shows(batches, failedBefore, history + [Turn(false, left)])
    {
      bisected := bisected[pidIter[current] := left];
      SameBadness(history, Turn(false, left));
    }

    lemma SameBadness(history: seq<Turn>, turn: Turn)
      ensures AnyBad(history + [turn]) <==> AnyBad(history) || turn.bad
    {
      var longer := history + [turn];
      assert turn.bad ==> longer[|history|].bad;
      if AnyBad(history) {
        var k :| 0 <= k < |history| && history[k].bad;
        assert longer[k].bad;
      }
    }

    /** Records the current peer's columns, as filtering left them, as failed. */
    method OnError(ghost batches: seq<seq<Column>>, ghost failedBefore: bool, ghost history: seq<Turn>,
                   ghost held: seq<Column>)
      requires HandedOut(batches, failedBefore, history, held)
      modifies this`errs, this`failures
      ensures Shows(batches, failedBefore, history + [Turn(true, held)]) && errs == old(errs) + 1
      ensures forall place :: Failing(failures, place) <==> Failing(old(failures), place) || place in Places(held)
    {
      SameBadness(history, Turn(true, held));
      errs := errs + 1;
      RecordFailures(bisected[pidIter[current]]);
    }

    method RecordFailures(columns: seq<Column>)
      modifies this`failures
      ensures forall place :: Failing(failures, place) <==> Failing(old(failures), place) || place in Places(columns)
    {
      for k := 0 to |columns|
        invariant forall place :: Failing(failures, place) <==>
                    Failing(old(failures), place) || place in Places(columns[..k])
      {
        var col := columns[k];
        OneMorePlace(columns, k);
        if col.root !in failures {
          failures := failures[col.root := {}];
        }
        failures := failures[col.root := failures[col.root] + {col.index}];
      }
      assert columns[..|columns|] == columns;
    }

    method Error(ghost batches: seq<seq<Column>>, ghost failedBefore: bool, ghost history: seq<Turn>)
      returns (failed: bool)
      requires Shows(batches, failedBefore, history)
      ensures failed == BisectionOf(batches, failedBefore).failed(history)
    {
      return errs > 0;
    }

    /** Forgets where the failed columns came from, and that they failed.  What was grouped stays. */
    method Reset()
      modifies this`columnSource, this`failures, this`errs
      ensures errs == 0 && failures == map[] && bisected == old(bisected)
      ensures forall place :: SourceOf(columnSource, place) ==
                if Failing(old(failures), place) then None else SourceOf(old(columnSource), place)
    {
      var roots := failures.Keys;
      while roots != {}
        invariant roots <= failures.Keys && failures == old(failures)
        invariant forall place :: SourceOf(columnSource, place) ==
                    if place.0 !in roots && Failing(old(failures), place) then None
                    else SourceOf(old(columnSource), place)
        decreases |roots|
      {
        var root :| root in roots;
        ClearAll(root, failures[root]);
        roots := roots - {root};
      }
      failures, errs := map[], 0;
    }

    method ClearAll(root: Root, indices: set<nat>)
      modifies this`columnSource
      ensures forall place :: SourceOf(columnSource, place) ==
                if place.0 == root && place.1 in indices then None else SourceOf(old(columnSource), place)
    {
      var rest := indices;
      while rest != {}
        invariant rest <= indices
        invariant forall place :: SourceOf(columnSource, place) ==
                    if place.0 == root && place.1 in indices - rest then None else SourceOf(old(columnSource), place)
        decreases |rest|
      {
        var index :| index in rest;
        ClearColumnSource(root, index);
        rest := rest - {index};
      }
    }

    /** Drops one entry, and its root when none is left. */
    method ClearColumnSource(root: Root, index: nat)
      modifies this`columnSource
      ensures forall place :: SourceOf(columnSource, place) ==
                if place == (root, index) then None else SourceOf(old(columnSource), place)
      ensures root in columnSource ==> |columnSource[root]| > 0
    {
      if root !in columnSource {
        return;
      }
      columnSource := columnSource[root := columnSource[root] - {index}];
      if |columnSource[root]| == 0 {
        columnSource := columnSource - {root};
      }
    }
  }

  // ---------------------------------------------------------------- when a bisection reports no error

  /** What is on disk once the first n batches have gone well. */
  ghost function DiskAfter(disk: set<Place>, batches: seq<seq<Column>>, n: nat): (after: set<Place>)
    requires n <= |batches|
    ensures disk <= after
  {
    if n == 0 then disk else DiskAfter(disk, batches, n - 1) + Places(batches[n - 1])
  }

  /** Of the first n batches, each column verifies, or its place was on disk or in a batch visited before. */
  ghost predicate GoWellTo(env: Environment, disk: set<Place>, batches: seq<seq<Column>>, n: nat)
    requires n <= |batches|
  {
    n > 0 ==>
      GoWellTo(env, disk, batches, n - 1) && GoesWell(env, DiskAfter(disk, batches, n - 1), batches[n - 1])
  }

  lemma {:induction false} GoWellAt(env: Environment, disk: set<Place>, batches: seq<seq<Column>>, n: nat, k: nat)
    requires k < n <= |batches| && GoWellTo(env, disk, batches, n)
    ensures GoWellTo(env, disk, batches, k) && GoesWell(env, DiskAfter(disk, batches, k), batches[k])
  {
    if k < n - 1 { GoWellAt(env, disk, batches, n - 1, k); }
  }

  ghost predicate AllGoWell(env: Environment, disk: set<Place>, batches: seq<seq<Column>>) {
    GoWellTo(env, disk, batches, |batches|)
  }

  /** The iterator hands out these batches in this order, and then none. */
  ghost predicate HandsOut(b: Bisection, batches: seq<seq<Column>>) {
    forall history :: b.next(history).columns == if |history| < |batches| then Some(batches[|history|]) else None
  }

  /** What is known after the first turns: all have gone well, and are on disk, or one has not. */
  ghost predicate KnownSoFar(env: Environment, b: Bisection, batches: seq<seq<Column>>, disk: set<Place>,
                             history: seq<Turn>)
    requires |history| <= |batches|
  {
    if AnyBad(history) then !AllGoWell(env, disk, batches)
    else
      && GoWellTo(env, disk, batches, |history|)
      && DiskAfterTurns(b, disk, history) == DiskAfter(disk, batches, |history|)
  }

  lemma {:induction false} PlayedSoFar(env: Environment, b: Bisection, batches: seq<seq<Column>>, disk: set<Place>,
                                       history: seq<Turn>)
    requires HandsOut(b, batches) && Played(b, env, disk, history)
    ensures |history| <= |batches| && KnownSoFar(env, b, batches, disk, history)
    decreases |history|
  {
    if history != [] {
      var n := |history| - 1;
      PlayedSoFar(env, b, batches, disk, history[..n]);
      assert |history[..n]| == n && BatchAt(b, history[..n]) == batches[n];
      AnyBadInFront(history);
      OneTurnMore(env, b, batches, disk, history, n);
    }
  }

  lemma {:induction false} OneTurnMore(env: Environment, b: Bisection, batches: seq<seq<Column>>, disk: set<Place>,
                                       history: seq<Turn>, n: nat)
    requires n == |history| - 1 && n < |batches| && BatchAt(b, history[..n]) == batches[n]
    requires KnownSoFar(env, b, batches, disk, history[..n])
    requires history[n].bad <==> !GoesWell(env, DiskAfterTurns(b, disk, history[..n]), batches[n])
    requires AnyBad(history) <==> AnyBad(history[..n]) || history[n].bad
    ensures KnownSoFar(env, b, batches, disk, history)
  {
    if !AnyBad(history[..n]) && AllGoWell(env, disk, batches) {
      GoWellAt(env, disk, batches, |batches|, n);
    }
  }

  lemma AnyBadInFront(history: seq<Turn>)
    requires history != []
    ensures AnyBad(history) <==> AnyBad(history[..|history| - 1]) || history[|history| - 1].bad
  {
    var front := history[..|history| - 1];
    if AnyBad(front) {
      var k :| 0 <= k < |front| && front[k].bad;
      assert history[k].bad;
    }
    if AnyBad(history) && !history[|history| - 1].bad {
      var k :| 0 <= k < |history| && history[k].bad;
      assert front[k].bad;
    }
  }

  /** A bisection by peer, played to its end, reports no error if and only if each column that does not
      verify has its place on disk, or in the batch of a peer visited before. */
  lemma {:induction false} NoErrorIff(env: Environment, batches: seq<seq<Column>>, disk: set<Place>,
                                      history: seq<Turn>)
    requires Played(BisectionOf(batches, false), env, disk, history)
    requires Ended(BisectionOf(batches, false).next(history))
    ensures |history| == |batches|
    ensures !BisectionOf(batches, false).failed(history) <==> AllGoWell(env, disk, batches)
    ensures AllGoWell(env, disk, batches) ==>
              DiskAfterTurns(BisectionOf(batches, false), disk, history) == DiskAfter(disk, batches, |batches|)
  {
    PlayedSoFar(env, BisectionOf(batches, false), batches, disk, history);
  }

  /** A column that failed, left in the group of peer p, and its replacement from peer q: the retry goes well
      exactly when q is visited first. */
  lemma {:induction false} RetryGoesWellIff(env: Environment, disk: set<Place>, bad: Column, good: Column, p: Peer,
                                            q: Peer, pids: seq<Peer>)
    requires p != q && At(bad) == At(good) && At(bad) !in disk && !Verifies(env, bad) && Verifies(env, good)
    requires pids == [p, q] || pids == [q, p]
    ensures Lists(pids, map[p := [bad], q := [good]])
    ensures AllGoWell(env, disk, Batches(map[p := [bad], q := [good]], pids)) <==> pids[0] == q
  {
    var groups: Groups := map[p := [bad], q := [good]];
    var batches := Batches(groups, pids);
    assert DiskAfter(disk, batches, 0) == disk && DiskAfter(disk, batches, 1) == disk + Places(batches[0]);
    assert bad in [bad] && good in [good];
    if pids[0] == q {
      assert At(good) in Places([good]);
      assert batches[0] == [good] && GoesWell(env, DiskAfter(disk, batches, 0), batches[0]);
      assert GoWellTo(env, disk, batches, 1);
    } else {
      assert batches[0] == [bad] && batches[0][0] == bad;
      assert !GoesWell(env, DiskAfter(disk, batches, 0), batches[0]);
      assert !GoWellTo(env, disk, batches, 1);
    }
  }

  lemma {:induction false} GroupedOne(groups: Groups, source: Source, c: Column)
    requires Tracked(source, c)
    ensures AllTracked(source, [c]) && Grouped(groups, source, [c]) == Grow(groups, PeerOf(source, c), c)
  {
    assert [c][..0] == [];
    assert Grouped(groups, source, [c][..0]) == groups;
  }

  /** One column of one peer, bisected. */
  method BisectOne(bisector: Bisector, pid: Peer, c: Column)
    modifies bisector
    ensures bisector.bisected == Grow(old(bisector.bisected), pid, c)
    ensures Lists(bisector.pidIter, bisector.bisected) && bisector.next == 0
    ensures bisector.errs == old(bisector.errs)
  {
    bisector.AddPeerColumns(pid, [c]);
    assert c in [c] && At(c) in Places([c]);
    GroupedOne(bisector.bisected, bisector.columnSource, c);
    var ok := bisector.Bisect([c]);
  }

  /** The first batch is handed out and goes wrong, none of its columns being on disk. */
  method FailFirst(b: Bisector)
    requires Lists(b.pidIter, b.bisected) && b.next == 0 && b.pidIter != []
    modifies b`current, b`next, b`errs, b`failures
    ensures b.errs > 0 && forall c :: c in b.bisected[b.pidIter[0]] ==> Failing(b.failures, At(c))
  {
    ghost var batches, failedBefore := Batches(b.bisected, b.pidIter), b.errs > 0;
    b.BisectShows(batches);
    var n := b.Next(batches, failedBefore, []);
    b.OnError(batches, failedBefore, [], n.columns.value);
    b.SameBadness([], Turn(true, n.columns.value));
  }

  /** Groups are never cleared: a column that failed and was fetched again from another peer is bisected
      together with the copy that failed. */
  method FailedColumnComesBack(bad: Column, good: Column) returns (bisector: Bisector)
    ensures bisector.bisected == map[1 := [bad], 2 := [good]]
    ensures Lists(bisector.pidIter, bisector.bisected) && bisector.errs == 0
    ensures Bag(bisector.bisected) == multiset{bad, good}
  {
    bisector := new Bisector();
    BisectOne(bisector, 1, bad);
    assert [] + [bad] == [bad] && bisector.bisected == map[1 := [bad]];
    FailFirst(bisector);
    bisector.Reset();
    BisectOne(bisector, 2, good);
    assert [] + [good] == [good];
    BagOfNew(map[1 := [bad]], 2, [good]);
    BagOfNew(map[], 1, [bad]);
  }
}
