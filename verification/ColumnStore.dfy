/** The lazily persistent data column store: columns fetched for a run of blocks wait in a cache until
    the availability check verifies them, whole or bisected, and saves them. */
module ColumnStore {
  import opened Common

  type Root = nat

  const ZERO_ROOT: Root := 0

  /** A sidecar; `data` stands for everything in it besides its place. */
  datatype Column = Column(slot: nat, root: Root, index: nat, data: nat)

  /** `commitments` is None when the block has no such field to read. */
  datatype Block = Block(slot: nat, root: Root, commitments: Option<nat>)

  datatype Key = Key(slot: nat, root: Root)

  type Place = (Root, nat)

  function At(c: Column): Place {
    (c.root, c.index)
  }

  function Places(columns: seq<Column>): set<Place> {
    set c | c in columns :: At(c)
  }

  // ---------------------------------------------------------------- what is on disk is dropped

  /** The columns whose place is not on disk, in order. */
  ghost function Unstored(s: seq<Column>, disk: set<Place>): seq<Column> {
    if s == [] then []
    else Unstored(s[..|s| - 1], disk) + (if At(s[|s| - 1]) in disk then [] else [s[|s| - 1]])
  }

  ghost predicate AllZeroRoots(s: seq<Column>) {
    forall k :: 0 <= k < |s| ==> s[k].root == ZERO_ROOT
  }

  /** The column is on disk and seen to be: a summary is only fetched when the root differs from the
      previous one, and the first root is compared with the zero root. */
  ghost predicate SeenStored(s: seq<Column>, i: nat, disk: set<Place>)
    requires i < |s|
  {
    At(s[i]) in disk && !AllZeroRoots(s[..i + 1])
  }

  /** What the code keeps: like Unstored, but a leading run of zero roots is kept whole. */
  ghost function Kept(s: seq<Column>, disk: set<Place>): seq<Column> {
    if s == [] then []
    else Kept(s[..|s| - 1], disk) + (if SeenStored(s, |s| - 1, disk) then [] else [s[|s| - 1]])
  }

  /** Some column of the leading run of zero roots is on disk. */
  ghost predicate StoredZeroRootFirst(s: seq<Column>, disk: set<Place>) {
    exists i :: 0 <= i < |s| && At(s[i]) in disk && AllZeroRoots(s[..i + 1])
  }

  lemma {:induction false} StoredZeroRootAtEnd(s: seq<Column>, disk: set<Place>)
    requires s != []
    ensures StoredZeroRootFirst(s, disk) <==>
              || StoredZeroRootFirst(s[..|s| - 1], disk)
              || (At(s[|s| - 1]) in disk && AllZeroRoots(s))
  {
    var front := s[..|s| - 1];
    assert s[..|s|] == s;
    if StoredZeroRootFirst(front, disk) {
      var i :| 0 <= i < |front| && At(front[i]) in disk && AllZeroRoots(front[..i + 1]);
      assert front[..i + 1] == s[..i + 1];
      assert At(s[i]) in disk;
    }
    if StoredZeroRootFirst(s, disk) {
      var i :| 0 <= i < |s| && At(s[i]) in disk && AllZeroRoots(s[..i + 1]);
      if i < |front| {
        assert front[..i + 1] == s[..i + 1];
        assert At(front[i]) in disk;
      }
    }
  }

  lemma {:induction false} KeptIsNoShorter(s: seq<Column>, disk: set<Place>)
    ensures |Kept(s, disk)| >= |Unstored(s, disk)|
    ensures |Kept(s, disk)| == |Unstored(s, disk)| <==> !StoredZeroRootFirst(s, disk)
    ensures !StoredZeroRootFirst(s, disk) ==> Kept(s, disk) == Unstored(s, disk)
  {
    if s != [] {
      KeptIsNoShorter(s[..|s| - 1], disk);
      StoredZeroRootAtEnd(s, disk);
      assert s[..|s| - 1 + 1] == s;
    }
  }

  /** What is kept is the order-preserving filter of unstored columns exactly when no column of a
      leading run of zero roots is on disk. */
  lemma {:induction false} KeepsUnstoredIff(s: seq<Column>, disk: set<Place>)
    ensures Kept(s, disk) == Unstored(s, disk) <==> !StoredZeroRootFirst(s, disk)
  {
    KeptIsNoShorter(s, disk);
  }

  /** With non-zero roots, which is what block roots are, it is always that filter. */
  lemma {:induction false} NonZeroRootsKeepUnstored(s: seq<Column>, disk: set<Place>)
    requires forall c :: c in s ==> c.root != ZERO_ROOT
    ensures Kept(s, disk) == Unstored(s, disk)
  {
    forall i | 0 <= i < |s|
      ensures At(s[i]) in disk ==> !AllZeroRoots(s[..i + 1])
    {
      assert s[..i + 1][i] == s[i] && s[i] in s;
    }
    KeptIsNoShorter(s, disk);
  }

  lemma StoredZeroRootIsKept()
    ensures var s, disk := [Column(0, ZERO_ROOT, 5, 0)], {(ZERO_ROOT, 5)};
            Unstored(s, disk) == [] && Kept(s, disk) == s
  {
    var s, disk := [Column(0, ZERO_ROOT, 5, 0)], {(ZERO_ROOT, 5)};
    assert s[..1] == s && s[..0] == [];
    assert Kept(s[..0], disk) == [] && Unstored(s[..0], disk) == [];
  }

  lemma {:induction false} KeptMembers(s: seq<Column>, disk: set<Place>)
    ensures forall c :: c in Kept(s, disk) ==> c in s
    ensures forall c :: c in s ==> c in Kept(s, disk) || At(c) in disk
    ensures |Kept(s, disk)| <= |s|
  {
    if s != [] {
      KeptMembers(s[..|s| - 1], disk);
      assert s == s[..|s| - 1] + [s[|s| - 1]];
    }
  }

  ghost predicate NoZeroRoots(s: seq<Column>) {
    forall c :: c in s ==> c.root != ZERO_ROOT
  }

  lemma {:induction false} UnstoredMembers(s: seq<Column>, disk: set<Place>)
    ensures forall c :: c in Unstored(s, disk) <==> c in s && At(c) !in disk
  {
    if s != [] {
      UnstoredMembers(s[..|s| - 1], disk);
      assert s == s[..|s| - 1] + [s[|s| - 1]];
    }
  }

  lemma {:induction false} KeptWhenNoZeroRoots(s: seq<Column>, disk: set<Place>)
    requires NoZeroRoots(s)
    ensures forall c :: c in Kept(s, disk) <==> c in s && At(c) !in disk
    ensures disk + Places(Kept(s, disk)) == disk + Places(s)
  {
    NonZeroRootsKeepUnstored(s, disk);
    UnstoredMembers(s, disk);
  }

  ghost predicate AllVerify(env: Environment, columns: seq<Column>) {
    forall c :: c in columns ==> Verifies(env, c)
  }

  /** What the filter keeps verifies just when the batch goes well. */
  lemma {:induction false} KeptGoesWell(env: Environment, s: seq<Column>, disk: set<Place>)
    requires NoZeroRoots(s)
    ensures AllVerify(env, Kept(s, disk)) <==> GoesWell(env, disk, s)
    ensures disk + Places(Kept(s, disk)) == disk + Places(s)
  {
    KeptWhenNoZeroRoots(s, disk);
  }

  lemma {:induction false} NothingSeenTo(s: seq<Column>, disk: set<Place>, n: nat)
    requires n <= |s| && forall i :: 0 <= i < n ==> !SeenStored(s, i, disk)
    ensures Kept(s[..n], disk) == s[..n]
  {
    if n == 0 {
      assert s[..0] == [];
    } else {
      NothingSeenTo(s, disk, n - 1);
      KeptStep(s, n - 1, disk);
      assert s[..n] == s[..n - 1] + [s[n - 1]];
    }
  }

  lemma {:induction false} NothingSeen(s: seq<Column>, disk: set<Place>)
    requires forall i :: 0 <= i < |s| ==> !SeenStored(s, i, disk)
    ensures Kept(s, disk) == s
  {
    NothingSeenTo(s, disk, |s|);
    assert s[..|s|] == s;
  }

  /** A list after it has been filtered in place: what is kept, then whatever the end held before. */
  ghost function Overwritten(s: seq<Column>, disk: set<Place>): (r: seq<Column>)
    ensures |r| == |s|
  {
    KeptMembers(s, disk);
    Kept(s, disk) + s[|Kept(s, disk)|..]
  }

  // ---------------------------------------------------------------- surroundings

  datatype NextError = NoError | EndOfFile | OtherError

  datatype Next = Next(columns: Option<seq<Column>>, error: NextError)

  /** What became of a batch: whether OnError was called for it, and what filtering it in place left in
      the iterator's own slice. */
  datatype Turn = Turn(bad: bool, left: seq<Column>)

  /** A bisection iterator.  What it answers depends on what became of the batches so far. */
  datatype Bisection = Bisection(next: seq<Turn> -> Next, failed: seq<Turn> -> bool, limit: nat)

  /** The iterator gives only finitely many batches. */
  ghost predicate Finite(b: Bisection) {
    forall history :: |history| >= b.limit ==> b.next(history).columns.None?
  }

  /** If the iterator ends without an error to report, every column was in a batch that went well. */
  ghost predicate Honours(b: Bisection, columns: seq<Column>) {
    forall history :: Ended(b.next(history)) && !b.failed(history) ==>
      forall c :: c in columns ==> InGoodBatch(b, history, c)
  }

  predicate Ended(n: Next) {
    n.columns.None? || n.error.EndOfFile?
  }

  ghost predicate InGoodBatch(b: Bisection, history: seq<Turn>, c: Column) {
    exists k :: 0 <= k < |history| && !history[k].bad && BatchHolds(b, history[..k], c)
  }

  ghost predicate BatchHolds(b: Bisection, history: seq<Turn>, c: Column) {
    b.next(history).columns.Some? && c in b.next(history).columns.value
  }

  /** Every column of every batch that went well is on disk. */
  ghost predicate GoodBatchesOnDisk(b: Bisection, history: seq<Turn>, disk: set<Place>) {
    forall k, c :: 0 <= k < |history| && !history[k].bad && BatchHolds(b, history[..k], c) ==> At(c) in disk
  }

  lemma OneMoreBatch(b: Bisection, history: seq<Turn>, turn: Turn, before: set<Place>, after: set<Place>)
    requires GoodBatchesOnDisk(b, history, before) && before <= after
    requires !turn.bad ==> forall c :: BatchHolds(b, history, c) ==> At(c) in after
    ensures GoodBatchesOnDisk(b, history + [turn], after)
  {
    var longer := history + [turn];
    forall k, c | 0 <= k < |longer| && !longer[k].bad && BatchHolds(b, longer[..k], c)
      ensures At(c) in after
    {
      assert longer[..k] == history[..k];
      if k == |history| {
        assert history[..k] == history;
      }
    }
  }

  /** The checks on a column's contents, retention of a slot, the custody columns, and which saves go
      wrong: the n-th save may fail having written only some of its columns. */
  datatype Environment = Environment(
    valid: Column -> bool,
    retain: nat -> bool,
    custody: Option<set<nat>>,
    saveFault: nat -> Option<set<Column>>,
    bisector: Option<seq<Column> -> Option<Bisection>>)

  ghost predicate BisectorHonours(env: Environment) {
    env.bisector.Some? ==> forall columns ::
      var b := env.bisector.value(columns);
      b.Some? ==> Finite(b.value) && Honours(b.value, columns)
  }

  ghost predicate BisectorFinite(env: Environment) {
    env.bisector.Some? ==> forall columns ::
      var b := env.bisector.value(columns);
      b.Some? ==> Finite(b.value)
  }

  /** Verification refuses an index out of range before anything else. */
  predicate Verifies(env: Environment, c: Column) {
    c.index < NUMBER_OF_COLUMNS && env.valid(c)
  }

  ghost predicate NoFaults(env: Environment) {
    forall n :: env.saveFault(n).None?
  }

  /** Every column of the batch verifies or is at a place on disk, where it is not looked at. */
  ghost predicate GoesWell(env: Environment, disk: set<Place>, batch: seq<Column>) {
    forall c :: c in batch ==> At(c) in disk || Verifies(env, c)
  }

  ghost function BatchAt(b: Bisection, history: seq<Turn>): seq<Column> {
    if b.next(history).columns.Some? then b.next(history).columns.value else []
  }

  ghost predicate NonZeroBatches(b: Bisection) {
    forall history :: NoZeroRoots(BatchAt(b, history))
  }

  /** What is on disk after these turns: a batch that went well is. */
  ghost function DiskAfterTurns(b: Bisection, disk: set<Place>, history: seq<Turn>): set<Place> {
    if history == [] then disk
    else
      var front := history[..|history| - 1];
      DiskAfterTurns(b, disk, front) + (if history[|history| - 1].bad then {} else Places(BatchAt(b, front)))
  }

  /** What the batch after these turns deserves, and what filtering it leaves in the iterator's slice. */
  ghost function NextTurn(b: Bisection, env: Environment, disk: set<Place>, history: seq<Turn>): Turn {
    var (batch, before) := (BatchAt(b, history), DiskAfterTurns(b, disk, history));
    Turn(!GoesWell(env, before, batch), Overwritten(batch, before))
  }

  /** The turns are what the batches handed out deserve, one after the other. */
  ghost predicate Played(b: Bisection, env: Environment, disk: set<Place>, history: seq<Turn>) {
    history == [] ||
    var front := history[..|history| - 1];
    && Played(b, env, disk, front) && b.next(front).columns.Some? && b.next(front).error.NoError?
    && history[|history| - 1] == NextTurn(b, env, disk, front)
  }

  lemma {:induction false} OneMoreTurn(b: Bisection, env: Environment, disk: set<Place>, history: seq<Turn>, turn: Turn,
                                       before: set<Place>)
    requires Played(b, env, disk, history) && before == DiskAfterTurns(b, disk, history)
    requires b.next(history).columns.Some? && b.next(history).error.NoError?
    requires turn.bad <==> !GoesWell(env, before, b.next(history).columns.value)
    requires turn.left == Overwritten(b.next(history).columns.value, before)
    ensures Played(b, env, disk, history + [turn])
    ensures DiskAfterTurns(b, disk, history + [turn]) ==
              before + (if turn.bad then {} else Places(b.next(history).columns.value))
  {
    assert (history + [turn])[..|history|] == history;
  }

  lemma {:induction false} PlayedTo(b: Bisection, env: Environment, disk: set<Place>, h: seq<Turn>, n: nat)
    requires Played(b, env, disk, h) && n < |h|
    ensures b.next(h[..n]).columns.Some? && b.next(h[..n]).error.NoError?
    ensures h[n] == NextTurn(b, env, disk, h[..n])
    decreases |h|
  {
    if n < |h| - 1 {
      PlayedTo(b, env, disk, h[..|h| - 1], n);
      assert h[..|h| - 1][..n] == h[..n];
    }
  }

  /** The turn after given ones is always the same. */
  lemma TurnAt(b: Bisection, env: Environment, disk: set<Place>, h: seq<Turn>, n: nat, front: seq<Turn>)
    returns (turn: Turn)
    requires Played(b, env, disk, h) && n < |h| && h[..n] == front
    ensures h[n] == turn == NextTurn(b, env, disk, front)
  {
    PlayedTo(b, env, disk, h, n);
    turn := h[n];
  }

  lemma OneLonger(h: seq<Turn>, k: seq<Turn>, n: nat)
    requires 0 < n <= |h| && n <= |k| && h[..n - 1] == k[..n - 1] && h[n - 1] == k[n - 1]
    ensures h[..n] == k[..n]
  {
    assert h[..n] == h[..n - 1] + [h[n - 1]] && k[..n] == k[..n - 1] + [k[n - 1]];
  }

  /** An iterator can be played in one way only. */
  lemma {:induction false} PlayedInOneWay(b: Bisection, env: Environment, disk: set<Place>, h: seq<Turn>, k: seq<Turn>,
                                          n: nat)
    requires Played(b, env, disk, h) && Played(b, env, disk, k) && n <= |h| && n <= |k|
    ensures h[..n] == k[..n]
  {
    if n > 0 {
      PlayedInOneWay(b, env, disk, h, k, n - 1);
      var x := TurnAt(b, env, disk, h, n - 1, h[..n - 1]);
      var y := TurnAt(b, env, disk, k, n - 1, h[..n - 1]);
      OneLonger(h, k, n);
    }
  }

  ghost predicate IsOver(b: Bisection, history: seq<Turn>) {
    Broken(b.next(history)) || Ended(b.next(history))
  }

  lemma {:induction false} OneEnd(b: Bisection, env: Environment, disk: set<Place>, h: seq<Turn>, k: seq<Turn>)
    requires Played(b, env, disk, h) && Played(b, env, disk, k) && IsOver(b, h) && IsOver(b, k)
    ensures h == k
  {
    var n := if |h| <= |k| then |h| else |k|;
    PlayedInOneWay(b, env, disk, h, k, n);
    if n < |h| { PlayedTo(b, env, disk, h, n); }
    if n < |k| { PlayedTo(b, env, disk, k, n); }
    assert h[..|h|] == h && k[..|k|] == k;
  }

  /** Played to its end, the iterator has no error to report. */
  ghost predicate EndsWell(b: Bisection, env: Environment, disk: set<Place>, history: seq<Turn>) {
    Played(b, env, disk, history) && !Broken(b.next(history)) && Ended(b.next(history)) && !b.failed(history)
  }

  lemma {:induction false} EndsInOneWay(b: Bisection, env: Environment, disk: set<Place>, history: seq<Turn>, ok: bool)
    requires Played(b, env, disk, history) && IsOver(b, history)
    requires ok <==> !Broken(b.next(history)) && !b.failed(history)
    ensures ok <==> exists h :: EndsWell(b, env, disk, h)
  {
    if h :| EndsWell(b, env, disk, h) {
      OneEnd(b, env, disk, h, history);
    }
    assert ok ==> EndsWell(b, env, disk, history);
  }

  /** There is nothing to bisect, or there is a bisector and its iterator ends well. */
  ghost predicate BisectsWell(env: Environment, disk: set<Place>, columns: seq<Column>) {
    || columns == []
    || (&& env.bisector.Some? && env.bisector.value(columns).Some?
        && exists history :: EndsWell(env.bisector.value(columns).value, env, disk, history))
  }

  ghost predicate NonZeroBisector(env: Environment) {
    env.bisector.Some? ==> forall columns :: env.bisector.value(columns).Some? ==>
      NonZeroBatches(env.bisector.value(columns).value)
  }

  /** The iterator gives an error along with a batch. */
  predicate Broken(n: Next) {
    n.columns.Some? && n.error.OtherError?
  }

  /** The columns a block needs: none out of retention or without blobs, else those in custody. */
  function Required(env: Environment, b: Block): Option<set<nat>> {
    if !env.retain(b.slot) then Some({})
    else if b.commitments.None? then None
    else if b.commitments.value == 0 then Some({})
    else env.custody
  }

  /** A block within retention that has blobs needs the columns in custody, and no other block any. */
  ghost predicate Needs(env: Environment, b: Block, i: nat) {
    && env.retain(b.slot) && b.commitments.Some? && b.commitments.value > 0
    && env.custody.Some? && i in env.custody.value
  }

  /** What a block needs cannot be told exactly if it is within retention and its commitments cannot be read, or it
      has some and the custody columns cannot be told. */
  lemma RequiredMeans(env: Environment, b: Block)
    ensures Required(env, b).None? <==>
              env.retain(b.slot) && (b.commitments.None? || (b.commitments.value > 0 && env.custody.None?))
    ensures Required(env, b).Some? ==> forall i :: i in Required(env, b).value <==> Needs(env, b, i)
  {
  }

  /** Column c waits in a cache, is not on disk, and one of the blocks needs it. */
  ghost predicate Wanted(env: Environment, cache: map<Key, map<nat, Column>>, disk: set<Place>, blocks: seq<Block>,
                         c: Column) {
    && Key(c.slot, c.root) in cache && c.index in cache[Key(c.slot, c.root)]
    && cache[Key(c.slot, c.root)][c.index] == c && At(c) !in disk
    && exists b :: b in blocks && b.slot == c.slot && b.root == c.root && Needs(env, b, c.index)
  }

  /** These are the columns the blocks need and the disk lacks, as they wait in the cache. */
  ghost predicate Gathered(env: Environment, cache: map<Key, map<nat, Column>>, disk: set<Place>, blocks: seq<Block>,
                           columns: seq<Column>) {
    forall c :: c in columns <==> Wanted(env, cache, disk, blocks, c)
  }

  /** The outcome is that of verifying, and failing that bisecting, just those columns. */
  ghost predicate DecidedBy(env: Environment, cache: map<Key, map<nat, Column>>, disk: set<Place>, blocks: seq<Block>,
                            ok: bool) {
    exists columns :: Gathered(env, cache, disk, blocks, columns) &&
                      (ok <==> AllVerify(env, columns) || BisectsWell(env, disk, columns))
  }

  ghost predicate EntriesVerify(env: Environment, cache: map<Key, map<nat, Column>>, keys: set<Key>) {
    forall key, i :: key in keys && key in cache && i in cache[key] ==> Verifies(env, cache[key][i])
  }

  lemma GatheredVerify(env: Environment, cache: map<Key, map<nat, Column>>, disk: set<Place>, blocks: seq<Block>,
                       columns: seq<Column>)
    requires Gathered(env, cache, disk, blocks, columns) && EntriesVerify(env, cache, Keys(blocks))
    ensures AllVerify(env, columns)
  {
    forall c | c in columns
      ensures Verifies(env, c)
    {
      assert Wanted(env, cache, disk, blocks, c);
      assert Key(c.slot, c.root) in Keys(blocks);
    }
  }

  lemma DropsTheSame(before: map<Key, map<nat, Column>>, after: map<Key, map<nat, Column>>, keys: set<Key>)
    requires forall key :: key in before ==> key in after && after[key] == before[key]
    requires forall key :: key in after && key !in before ==> key in keys
    ensures after - keys == before - keys
  {
  }

  lemma GatherNext(env: Environment, cache: map<Key, map<nat, Column>>, disk: set<Place>, blocks: seq<Block>, i: nat,
                   columns: seq<Column>, more: seq<Column>)
    requires i < |blocks| && Gathered(env, cache, disk, blocks[..i], columns)
    requires forall c :: c in more <==> c in columns || Wanted(env, cache, disk, [blocks[i]], c)
    ensures Gathered(env, cache, disk, blocks[..i + 1], more)
  {
    assert blocks[..i + 1] == blocks[..i] + [blocks[i]];
    forall c
      ensures Wanted(env, cache, disk, blocks[..i + 1], c) <==>
                Wanted(env, cache, disk, blocks[..i], c) || Wanted(env, cache, disk, [blocks[i]], c)
    {
      assert blocks[i] in blocks[..i + 1] && forall b :: b in blocks[..i] ==> b in blocks[..i + 1];
    }
  }

  datatype Result = Ok | RequiredFailed | MissingSidecar | Unverified

  class Store {
    const env: Environment
    var disk: set<Place>
    var cache: map<Key, map<nat, Column>>
    var saves: nat
    ghost const initial: set<Place>
    ghost var saved: set<Column>

    /** Every cached column is filed under its own slot, root and index.  Whatever was put on disk
        since the start is a column that verified. */
    ghost predicate Valid()
      reads this
    {
      && (forall key :: key in cache ==> EntryOk(key, cache[key]))
      && (forall c :: c in saved ==> Verifies(env, c))
      && (forall p :: p in disk ==> p.1 < NUMBER_OF_COLUMNS)
      && disk == initial + (set c | c in saved :: At(c))
    }

    static ghost predicate EntryOk(key: Key, entry: map<nat, Column>) {
      forall i :: i in entry ==>
        entry[i].slot == key.slot && entry[i].root == key.root && entry[i].index == i && i < NUMBER_OF_COLUMNS
    }

    constructor (env: Environment, onDisk: set<Place>)
      requires forall p :: p in onDisk ==> p.1 < NUMBER_OF_COLUMNS
      ensures Valid() && this.env == env && disk == initial == onDisk && cache == map[] && saved == {}
    {
      this.env := env;
      disk, initial, cache, saves, saved := onDisk, onDisk, map[], 0, {};
    }

    // -------------------------------------------------------------- the cache

    /** The entry for a key, created empty if absent. */
    method Entry(key: Key)
      requires Valid()
      modifies this`cache
      ensures Valid() && key in cache
      ensures cache == if key in old(cache) then old(cache) else old(cache)[key := map[]]
    {
      if key !in cache {
        cache := cache[key := map[]];
      }
    }

    method Stash(c: Column) returns (ok: bool)
      requires Valid()
      modifies this`cache
      ensures Valid() && Key(c.slot, c.root) in cache
      ensures ok <==> c.index < NUMBER_OF_COLUMNS
      ensures ok ==> c.index in cache[Key(c.slot, c.root)] && cache[Key(c.slot, c.root)][c.index] == c
      ensures forall key, i :: Cached(key, i) && !(ok && key == Key(c.slot, c.root) && i == c.index) ==>
                old(Cached(key, i)) && cache[key][i] == old(cache)[key][i]
      ensures forall key, i :: old(Cached(key, i)) ==> Cached(key, i)
    {
      var key := Key(c.slot, c.root);
      Entry(key);
      if c.index >= NUMBER_OF_COLUMNS {
        return false;
      }
      var entry: map<nat, Column> := cache[key][c.index := c];
      cache := cache[key := entry];
      return true;
    }

    /** The column waits in the entry of its own block. */
    ghost predicate InCache(c: Column)
      reads this
    {
      Cached(Key(c.slot, c.root), c.index) && cache[Key(c.slot, c.root)][c.index] == c
    }

    ghost predicate CachedVerify(keys: set<Key>)
      reads this
    {
      EntriesVerify(env, cache, keys)
    }

    ghost predicate Cached(key: Key, i: nat)
      reads this
    {
      key in cache && i in cache[key]
    }

    /** Unsets, in a copy of the indices, those the summary has. */
    static method IndicesNotStored(sum: set<nat>, indices: set<nat>) returns (left: set<nat>)
      ensures left == indices - sum
    {
      left := indices;
      var rest := indices;
      while rest != {}
        invariant rest <= indices && left == (indices - sum) + rest
        decreases |rest|
      {
        var col :| col in rest;
        if col in sum {
          left := left - {col};
        }
        rest := rest - {col};
      }
    }

    /** Adds the wanted columns of an entry to the list, or nothing and an error when one is missing. */
    method Append(columns: seq<Column>, key: Key, wanted: set<nat>) returns (r: Option<seq<Column>>)
      requires Valid() && key in cache
      ensures r.Some? <==> wanted <= cache[key].Keys
      ensures r.Some? ==> columns <= r.value
      ensures r.Some? ==> multiset(r.value) == multiset(columns) + multiset(Picked(cache[key], wanted))
      ensures r.Some? ==> forall c :: c in r.value <==> c in columns || c in Picked(cache[key], wanted)
    {
      if !(wanted <= cache[key].Keys) {
        return None;
      }
      var out := AppendAll(columns, key, cache[key], wanted);
      SumMembers(columns, Picked(cache[key], wanted), out);
      return Some(out);
    }

    static method AppendAll(columns: seq<Column>, ghost key: Key, entry: map<nat, Column>, wanted: set<nat>)
      returns (out: seq<Column>)
      requires EntryOk(key, entry) && wanted <= entry.Keys
      ensures columns <= out && multiset(out) == multiset(columns) + multiset(Picked(entry, wanted))
    {
      var rest := wanted;
      out := columns;
      assert Picked(entry, wanted - rest) == {};
      while rest != {}
        invariant rest <= wanted && columns <= out
        invariant multiset(out) == multiset(columns) + multiset(Picked(entry, wanted - rest))
        decreases |rest|
      {
        var i :| i in rest;
        OneMorePicked(key, entry, wanted - rest, i);
        assert wanted - (rest - {i}) == wanted - rest + {i};
        out := out + [entry[i]];
        rest := rest - {i};
      }
      assert wanted - rest == wanted;
    }

    static lemma SumMembers(columns: seq<Column>, more: set<Column>, out: seq<Column>)
      requires multiset(out) == multiset(columns) + multiset(more)
      ensures forall c :: c in out <==> c in columns || c in more
    {
      assert forall c :: c in out <==> c in multiset(out);
      assert forall c :: c in columns <==> c in multiset(columns);
    }

    /** The columns of an entry at the given indices. */
    static ghost function Picked(entry: map<nat, Column>, indices: set<nat>): set<Column>
      requires indices <= entry.Keys
    {
      set i | i in indices :: entry[i]
    }

    static lemma OneMorePicked(key: Key, entry: map<nat, Column>, indices: set<nat>, i: nat)
      requires EntryOk(key, entry) && indices + {i} <= entry.Keys && i !in indices
      ensures multiset(Picked(entry, indices + {i})) == multiset(Picked(entry, indices)) + multiset{entry[i]}
    {
      assert Picked(entry, indices + {i}) == Picked(entry, indices) + {entry[i]};
      assert entry[i] !in Picked(entry, indices);
    }

    // -------------------------------------------------------------- saving

    /** Saves the columns if they all verify; after a failed save some of them may be on disk. */
    method VerifyAndSave(columns: seq<Column>) returns (ok: bool)
      requires Valid()
      modifies this`disk, this`saves, this`saved
      ensures Valid() && old(disk) <= disk <= old(disk) + Places(columns)
      ensures ok ==> Places(columns) <= disk
      ensures (exists c :: c in columns && !Verifies(env, c)) ==> !ok && disk == old(disk)
      ensures (forall c :: c in columns ==> Verifies(env, c)) && env.saveFault(old(saves)).None? ==> ok
      ensures saves == old(saves) + (if columns != [] && AllVerify(env, columns) then 1 else 0)
      ensures ok && env.saveFault(old(saves)).None? ==> disk == old(disk) + Places(columns)
    {
      if |columns| == 0 {
        return true;
      }
      if exists c :: c in columns && !Verifies(env, c) {
        return false;
      }
      var fault := env.saveFault(saves);
      saves := saves + 1;
      var written := set c | c in columns && (fault.Some? ==> c in fault.value);
      disk := disk + set c | c in written :: At(c);
      saved := saved + written;
      return fault.None?;
    }

    /** Filters the list in place, dropping the columns seen to be on disk, and returns how many of the
        front places the result takes.  The places behind them keep what they held. */
    method ColumnsNotStored(a: array<Column>) returns (n: nat)
      requires Valid()
      modifies a
      ensures n <= a.Length && a[..n] == Kept(old(a[..]), disk) && a[n..] == old(a[n..])
    {
      ghost var s := a[..];
      var marks := MarkStored(a);
      assert forall i: nat :: i < |s| && SeenStored(s, i, disk) ==> i in marks;
      if marks == {} {
        NothingSeen(s, disk);
        assert a[..a.Length] == s;
        return a.Length;
      }
      n := ShiftDown(a, marks);
    }

    /** The second pass: every unmarked column moves down over the marked ones before it. */
    method ShiftDown(a: array<Column>, marks: set<nat>) returns (n: nat)
      requires forall i: nat :: i < a.Length ==> (i in marks <==> SeenStored(a[..], i, disk))
      modifies a
      ensures n <= a.Length && a[..n] == Kept(old(a[..]), disk) && a[n..] == old(a[n..])
    {
      ghost var s := a[..];
      var shift := 0;
      for i := 0 to a.Length
        invariant 0 <= shift <= i
        invariant forall k :: i - shift <= k < a.Length ==> a[k] == s[k]
        invariant a[..i - shift] == Kept(s[..i], disk)
      {
        KeptStep(s, i, disk);
        if i in marks {
          shift := shift + 1;
          continue;
        }
        if shift > 0 {
          a[i - shift] := a[i];
        }
        assert a[..i + 1 - shift] == a[..i - shift] + [s[i]];
      }
      assert s[..a.Length] == s;
      return a.Length - shift;
    }

    /** The first pass: the positions seen to be on disk, with one summary lookup per run of roots. */
    method MarkStored(a: array<Column>) returns (marks: set<nat>)
      requires Valid()
      ensures forall i: nat :: i in marks <==> i < a.Length && SeenStored(a[..], i, disk)
    {
      marks := {};
      var lastRoot, sum := ZERO_ROOT, {};
      for i := 0 to a.Length
        invariant i > 0 ==> lastRoot == a[i - 1].root
        invariant i == 0 ==> lastRoot == ZERO_ROOT
        invariant forall x: nat :: x in sum <==> !AllZeroRoots(a[..i]) && (lastRoot, x) in disk
        invariant forall k: nat :: k in marks <==> k < i && SeenStored(a[..], k, disk)
      {
        RootsSoFar(a[..], i);
        if a[i].root != lastRoot {
          sum := Summary(a[i].root);
          lastRoot := a[i].root;
        }
        if a[i].index in sum {
          marks := marks + {i};
        }
      }
    }

    function Summary(root: Root): (sum: set<nat>)
      reads this
      requires Valid()
      ensures forall x :: x in sum <==> (root, x) in disk
    {
      set p | p in disk && p.0 == root && p.1 < NUMBER_OF_COLUMNS :: p.1
    }

    // -------------------------------------------------------------- bisection

    /** Verifies and saves batch by batch.  If the iterator honours its contract, no error means every
        column is on disk; in any case only columns of its batches that verified are. */
    method BisectVerification(columns: seq<Column>) returns (ok: bool)
      requires Valid() && BisectorFinite(env)
      modifies this`disk, this`saves, this`saved
      ensures Valid() && old(disk) <= disk
      ensures ok && BisectorHonours(env) ==> Places(columns) <= disk
      ensures columns != [] && env.bisector.Some? && env.bisector.value(columns).Some? && NoFaults(env) ==>
                var b := env.bisector.value(columns).value;
                NonZeroBatches(b) ==> exists history ::
                  && Played(b, env, old(disk), history) && disk == DiskAfterTurns(b, old(disk), history)
                  && (Broken(b.next(history)) || Ended(b.next(history)))
                  && (ok <==> !Broken(b.next(history)) && !b.failed(history))
      ensures NoFaults(env) && NonZeroBisector(env) ==> (ok <==> BisectsWell(env, old(disk), columns))
      ensures columns == [] ==> ok && disk == old(disk)
    {
      if |columns| == 0 {
        return true;
      }
      if env.bisector.None? {
        return false;
      }
      var iter := env.bisector.value(columns);
      if iter.None? {
        return false;
      }
      ghost var history;
      ok, history := RunBatches(iter.value);
      if NoFaults(env) && NonZeroBisector(env) {
        EndsInOneWay(iter.value, env, old(disk), history, ok);
      }
      if ok && BisectorHonours(env) {
        forall c | c in columns
          ensures At(c) in disk
        {
          var k :| 0 <= k < |history| && !history[k].bad && BatchHolds(iter.value, history[..k], c);
        }
      }
    }

    method RunBatches(b: Bisection) returns (ok: bool, history: seq<Turn>)
      requires Valid() && Finite(b)
      modifies this`disk, this`saves, this`saved
      ensures Valid() && old(disk) <= disk
      ensures ok ==> Ended(b.next(history)) && !b.failed(history)
      ensures !ok ==> Broken(b.next(history)) || (Ended(b.next(history)) && b.failed(history))
      ensures NoFaults(env) && NonZeroBatches(b) ==>
                Played(b, env, old(disk), history) && disk == DiskAfterTurns(b, old(disk), history)
      ensures GoodBatchesOnDisk(b, history, disk)
    {
      history := [];
      var n := b.next(history);
      while n.columns.Some?
        invariant Valid() && old(disk) <= disk
        invariant n == b.next(history)
        invariant GoodBatchesOnDisk(b, history, disk)
        invariant NoFaults(env) && NonZeroBatches(b) ==>
                    Played(b, env, old(disk), history) && disk == DiskAfterTurns(b, old(disk), history)
        decreases b.limit - |history|
      {
        if n.error.OtherError? {
          return false, history;
        }
        if n.error.EndOfFile? {
          break;
        }
        ghost var before := disk;
        var good, left := SaveBatch(n.columns.value);
        OneMoreBatch(b, history, Turn(!good, left), before, disk);
        if NoFaults(env) && NonZeroBatches(b) {
          assert NoZeroRoots(BatchAt(b, history));
          OneMoreTurn(b, env, old(disk), history, Turn(!good, left), before);
        }
        history := history + [Turn(!good, left)];
        n := b.next(history);
      }
      ok := !b.failed(history);
    }

    /** Filters the batch in place, then verifies and saves what the filter kept. */
    method SaveBatch(columns: seq<Column>) returns (ok: bool, left: seq<Column>)
      requires Valid()
      modifies this`disk, this`saves, this`saved
      ensures Valid() && old(disk) <= disk
      ensures ok ==> Places(columns) <= disk
      ensures left == Overwritten(columns, old(disk))
      ensures NoFaults(env) && NoZeroRoots(columns) ==>
                && (ok <==> GoesWell(env, old(disk), columns))
                && disk == old(disk) + (if ok then Places(columns) else {})
    {
      var a := new Column[|columns|](i requires 0 <= i < |columns| => columns[i]);
      assert a[..] == columns;
      var n := ColumnsNotStored(a);
      KeptMembers(columns, disk);
      left := a[..];
      assert left == a[..n] + a[n..];
      if NoZeroRoots(columns) { KeptGoesWell(env, columns, disk); }
      ok := SaveKept(a[..n]);
    }

    /** With saves that do not fail, all is saved or nothing. */
    method SaveKept(columns: seq<Column>) returns (ok: bool)
      requires Valid()
      modifies this`disk, this`saves, this`saved
      ensures Valid() && old(disk) <= disk
      ensures ok ==> Places(columns) <= disk
      ensures NoFaults(env) ==>
                (ok <==> AllVerify(env, columns)) && disk == old(disk) + (if ok then Places(columns) else {})
    {
      ok := VerifyAndSave(columns);
    }

    // -------------------------------------------------------------- the availability check

    /** All the block needs is on disk or waits in its cache entry. */
    ghost predicate Collectable(b: Block)
      reads this
    {
      var r := Required(env, b);
      r.Some? && forall i :: i in r.value ==> (b.root, i) in disk || Cached(Key(b.slot, b.root), i)
    }

    ghost predicate AllCollectable(blocks: seq<Block>)
      reads this
    {
      forall b :: b in blocks ==> Collectable(b)
    }

    /** Every column the block needs is on disk, apart from those at the given places. */
    ghost predicate AvailableBut(b: Block, places: set<Place>)
      reads this
    {
      var r := Required(env, b);
      r.Some? && forall i :: i in r.value ==> (b.root, i) in disk || (b.root, i) in places
    }

    /** Entries that are created empty change nothing. */
    lemma SameWanted(before: map<Key, map<nat, Column>>, after: map<Key, map<nat, Column>>, b: Block)
      requires forall key :: key in before ==> key in after && after[key] == before[key]
      requires forall key :: key in after && key !in before ==> after[key] == map[]
      ensures forall c :: Wanted(env, after, disk, [b], c) <==> Wanted(env, before, disk, [b], c)
    {
    }

    twostate predicate SameColumns()
      reads this
    {
      disk == old(disk) && saved == old(saved) && SameEntries()
    }

    /** Every entry is as it was, and those created are empty. */
    twostate predicate SameEntries()
      reads this
    {
      && (forall key :: key in old(cache) ==> key in cache && cache[key] == old(cache)[key])
      && (forall key :: key in cache && key !in old(cache) ==> cache[key] == map[])
    }

    /** Gathers from the cache what one block needs and the disk lacks. */
    method CollectFor(b: Block, toVerify: seq<Column>) returns (r: Result, out: seq<Column>)
      requires Valid()
      modifies this`cache
      ensures Valid() && SameColumns()
      ensures cache.Keys <= old(cache).Keys + {Key(b.slot, b.root)}
      ensures r.Ok? <==> old(Collectable(b))
      ensures r.Ok? ==> AvailableBut(b, Places(out)) && toVerify <= out
      ensures forall c :: c in out ==> c in toVerify || (old(InCache(c)) && Key(c.slot, c.root) == Key(b.slot, b.root))
      ensures r.Ok? ==> forall c :: c in out <==> c in toVerify || Wanted(env, old(cache), disk, [b], c)
      ensures !r.Unverified?
    {
      RequiredMeans(env, b);
      out := toVerify;
      var indices := Required(env, b);
      if indices.None? {
        return RequiredFailed, out;
      }
      if indices.value == {} {
        return Ok, out;
      }
      var key := Key(b.slot, b.root);
      Entry(key);
      var wanted := IndicesNotStored(Summary(b.root), indices.value);
      var more := Append(toVerify, key, wanted);
      if more.None? {
        return MissingSidecar, out;
      }
      forall i | i in indices.value && (b.root, i) !in disk
        ensures old(Cached(key, i)) && (b.root, i) in Places(more.value)
      {
        assert i in wanted && cache[key][i] in Picked(cache[key], wanted) && At(cache[key][i]) == (b.root, i);
      }
      return Ok, more.value;
    }

    method Collect(blocks: seq<Block>) returns (r: Result, toVerify: seq<Column>)
      requires Valid()
      modifies this`cache
      ensures Valid() && SameColumns()
      ensures forall key :: key in cache && key !in old(cache) ==> key in Keys(blocks)
      ensures r.Ok? <==> old(AllCollectable(blocks))
      ensures r.Ok? ==> forall b :: b in blocks ==> AvailableBut(b, Places(toVerify))
      ensures forall c :: c in toVerify ==> old(InCache(c)) && Key(c.slot, c.root) in Keys(blocks)
      ensures r.Ok? ==> Gathered(env, old(cache), disk, blocks, toVerify)
      ensures !r.Unverified?
    {
      toVerify := [];
      for i := 0 to |blocks|
        invariant Valid() && SameColumns()
        invariant forall key :: key in cache && key !in old(cache) ==> key in Keys(blocks)
        invariant forall c :: c in toVerify ==> old(InCache(c)) && Key(c.slot, c.root) in Keys(blocks)
        invariant forall k :: 0 <= k < i ==> old(Collectable(blocks[k])) && AvailableBut(blocks[k], Places(toVerify))
        invariant Gathered(env, old(cache), disk, blocks[..i], toVerify)
      {
        ghost var before := toVerify;
        SameWanted(old(cache), cache, blocks[i]);
        assert Collectable(blocks[i]) <==> old(Collectable(blocks[i]));
        assert Key(blocks[i].slot, blocks[i].root) in Keys(blocks);
        r, toVerify := CollectFor(blocks[i], toVerify);
        if !r.Ok? {
          return;
        }
        GatherNext(env, old(cache), disk, blocks, i, before, toVerify);
      }
      assert blocks[..|blocks|] == blocks;
      r := Ok;
    }

    method Cleanup(blocks: seq<Block>)
      requires Valid()
      modifies this`cache
      ensures Valid() && cache == old(cache) - Keys(blocks)
    {
      for i := 0 to |blocks|
        invariant Valid() && cache == old(cache) - Keys(blocks[..i])
      {
        assert blocks[..i + 1] == blocks[..i] + [blocks[i]];
        assert Keys(blocks[..i + 1]) == Keys(blocks[..i]) + {Key(blocks[i].slot, blocks[i].root)};
        cache := cache - {Key(blocks[i].slot, blocks[i].root)};
      }
      assert blocks[..|blocks|] == blocks;
    }

    /** Saves the columns if they all verify, and otherwise batch by batch. */
    method VerifyOrBisect(columns: seq<Column>) returns (ok: bool)
      requires Valid() && BisectorFinite(env)
      modifies this`disk, this`saves, this`saved
      ensures Valid() && old(disk) <= disk
      ensures AllVerify(env, columns) && env.saveFault(old(saves)).None? ==> ok
      ensures ok && BisectorHonours(env) ==> Places(columns) <= disk
      ensures NoFaults(env) && NonZeroBisector(env) ==>
                (ok <==> AllVerify(env, columns) || BisectsWell(env, old(disk), columns))
    {
      ok := VerifyAndSave(columns);
      if !ok {
        ok := BisectVerification(columns);
      }
    }

    lemma NeededIsStored(blocks: seq<Block>, columns: seq<Column>)
      requires Places(columns) <= disk && forall b :: b in blocks ==> AvailableBut(b, Places(columns))
      ensures forall b :: b in blocks ==> AvailableBut(b, {})
      ensures forall b, i: nat :: b in blocks && Needs(env, b, i) ==> (b.root, i) in disk
    {
      forall b | b in blocks
        ensures AvailableBut(b, {}) && forall i: nat :: Needs(env, b, i) ==> (b.root, i) in disk
      {
        RequiredMeans(env, b);
        assert AvailableBut(b, Places(columns));
      }
    }

    /** On success, with a bisector that honours its contract, every required column of every block is
        on disk, and the blocks' cache entries are gone.  Nothing is saved unless every block's columns
        can be collected, and nothing that did not verify is ever saved. */
    method IsDataAvailable(blocks: seq<Block>) returns (r: Result)
      requires Valid() && BisectorFinite(env)
      modifies this`disk, this`cache, this`saves, this`saved
      ensures Valid() && old(disk) <= disk
      ensures r.RequiredFailed? || r.MissingSidecar? <==> !old(AllCollectable(blocks))
      ensures r.RequiredFailed? || r.MissingSidecar? ==> disk == old(disk)
      ensures old(AllCollectable(blocks)) && old(CachedVerify(Keys(blocks))) ==>
                env.saveFault(old(saves)).None? ==> r.Ok?
      ensures old(AllCollectable(blocks)) && NoFaults(env) && NonZeroBisector(env) ==>
                DecidedBy(env, old(cache), old(disk), blocks, r.Ok?)
      ensures r.Ok? && BisectorHonours(env) ==> forall b :: b in blocks ==> AvailableBut(b, {})
      ensures r.Ok? && BisectorHonours(env) ==>
                forall b, i: nat :: b in blocks && Needs(env, b, i) ==> (b.root, i) in disk
      ensures r.Ok? ==> cache == old(cache) - Keys(blocks)
      ensures !r.Ok? ==> SameEntries()
    {
      var toVerify;
      r, toVerify := Collect(blocks);
      if !r.Ok? {
        return;
      }
      ghost var was := disk;
      if old(CachedVerify(Keys(blocks))) { GatheredVerify(env, old(cache), disk, blocks, toVerify); }
      var ok := VerifyOrBisect(toVerify);
      assert NoFaults(env) && NonZeroBisector(env) ==> DecidedBy(env, old(cache), was, blocks, ok);
      if !ok {
        return Unverified;
      }
      if BisectorHonours(env) { NeededIsStored(blocks, toVerify); }
      DropsTheSame(old(cache), cache, Keys(blocks));
      Cleanup(blocks);
      return Ok;
    }
  }

  function Keys(blocks: seq<Block>): set<Key> {
    set b | b in blocks :: Key(b.slot, b.root)
  }

  lemma {:induction false} KeptStep(s: seq<Column>, i: nat, disk: set<Place>)
    requires i < |s|
    ensures Kept(s[..i + 1], disk) == Kept(s[..i], disk) + (if SeenStored(s, i, disk) then [] else [s[i]])
  {
    var t := s[..i + 1];
    assert t[..i] == s[..i] && t[..i + 1] == t;
  }

  lemma RootsSoFar(s: seq<Column>, i: nat)
    requires i < |s|
    ensures AllZeroRoots(s[..i + 1]) <==> AllZeroRoots(s[..i]) && s[i].root == ZERO_ROOT
  {
    assert s[..i + 1] == s[..i] + [s[i]];
  }
}
