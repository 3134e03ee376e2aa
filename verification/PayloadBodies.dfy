/** Rebuilding full blocks from blinded ones: the bodies are asked for by hash, those the execution
    client does not return are asked for again by ranges of block numbers. */
module PayloadBodies {
  import opened Common

  type Uint64 = n: nat | n < TWO_TO_THE_64

  type Hash = nat

  const ZERO_HASH: Hash := 0

  type Body = nat

  // ---------------------------------------------------------------- ranges of block numbers

  datatype HashNumber = HashNumber(h: Hash, n: Uint64)

  datatype RangeRequest = RangeRequest(start: Uint64, count: Uint64, entries: seq<HashNumber>)

  ghost predicate Sorted(s: seq<HashNumber>) {
    forall i, j :: 0 <= i < j < |s| ==> s[i].n <= s[j].n
  }

  /** Places x before the first entry with a number at least its own. */
  method Insert(s: seq<HashNumber>, x: HashNumber) returns (r: seq<HashNumber>)
    requires Sorted(s)
    ensures Sorted(r) && multiset(r) == multiset(s) + multiset{x}
  {
    var k := 0;
    while k < |s| && s[k].n < x.n
      invariant k <= |s| && forall i :: 0 <= i < k ==> s[i].n < x.n
    {
      k := k + 1;
    }
    r := s[..k] + [x] + s[k..];
    StaysSorted(s, k, x, r);
    assert s == s[..k] + s[k..];
  }

  lemma StaysSorted(s: seq<HashNumber>, k: nat, x: HashNumber, r: seq<HashNumber>)
    requires Sorted(s) && k <= |s| && r == s[..k] + [x] + s[k..]
    requires (forall i :: 0 <= i < k ==> s[i].n < x.n) && (k < |s| ==> x.n <= s[k].n)
    ensures Sorted(r)
  {
    forall i, j | 0 <= i < j < |r|
      ensures r[i].n <= r[j].n
    {
      assert r[i] == if i < k then s[i] else if i == k then x else s[i - 1];
      assert r[j] == if j < k then s[j] else if j == k then x else s[j - 1];
    }
  }

  /** Sorts by block number, in place.  The order of equal numbers is not promised. */
  method SortByNumber(a: array<HashNumber>)
    modifies a
    ensures Sorted(a[..]) && multiset(a[..]) == multiset(old(a[..]))
  {
    var s := [];
    for i := 0 to a.Length
      invariant Sorted(s) && multiset(s) == multiset(a[..i]) && a[..] == old(a[..])
    {
      assert a[..i + 1] == a[..i] + [a[i]];
      s := Insert(s, a[i]);
    }
    assert a[..a.Length] == a[..];
    assert |multiset(s)| == |multiset(a[..])|;
    forall i | 0 <= i < a.Length {
      a[i] := s[i];
    }
    assert a[..] == s;
  }

  ghost function Flatten(ranges: seq<RangeRequest>): seq<HashNumber> {
    if ranges == [] then [] else Flatten(ranges[..|ranges| - 1]) + ranges[|ranges| - 1].entries
  }

  /** The entries carry the consecutive numbers the request names. */
  ghost predicate Consecutive(entries: seq<HashNumber>, start: nat, count: nat) {
    |entries| == count && forall j :: 0 <= j < count ==> entries[j].n == start + j
  }

  /** So do the entries from..to of a list. */
  ghost predicate ConsecutiveIn(s: seq<HashNumber>, from: int, to: int, start: nat) {
    0 <= from <= to <= |s| && forall j :: from <= j < to ==> s[j].n == start + (j - from)
  }

  ghost predicate RangesOk(ranges: seq<RangeRequest>) {
    && (forall k :: 0 <= k < |ranges| ==>
          ranges[k].count > 0 && Consecutive(ranges[k].entries, ranges[k].start, ranges[k].count))
    && (forall k :: 0 <= k < |ranges| - 1 ==> ranges[k + 1].start != ranges[k].start + ranges[k].count)
  }

  lemma {:induction false} FlattenAppend(ranges: seq<RangeRequest>, x: RangeRequest)
    ensures Flatten(ranges + [x]) == Flatten(ranges) + x.entries
  {
    assert (ranges + [x])[..|ranges|] == ranges;
  }

  /** Sorts the entries and cuts them into runs of consecutive numbers: the pieces put end to end are
      the sorted entries, each piece holds exactly the numbers of its request, and no piece could
      have been continued by the next. */
  method ComputeRanges(a: array<HashNumber>) returns (ranges: seq<RangeRequest>)
    requires a.Length < TWO_TO_THE_64
    modifies a
    ensures Sorted(a[..]) && multiset(a[..]) == multiset(old(a[..]))
    ensures Flatten(ranges) == a[..] && RangesOk(ranges)
  {
    ranges := [];
    if a.Length == 0 {
      return;
    }
    SortByNumber(a);
    ranges := CutRuns(a[..]);
  }

  /** The first i entries are cut into the ranges and the run still open. */
  ghost predicate CutTo(s: seq<HashNumber>, i: nat, ranges: seq<RangeRequest>, start: nat, count: nat) {
    && count <= i <= |s| && (i > 0 ==> count > 0)
    && Flatten(ranges) == s[..i - count]
    && ConsecutiveIn(s, i - count, i, start)
    && RangesOk(ranges)
    && (ranges != [] ==> start != ranges[|ranges| - 1].start + ranges[|ranges| - 1].count)
  }

  predicate Continues(n: Uint64, start: Uint64, count: nat) {
    n == (start + count) % TWO_TO_THE_64
  }

  method CutRuns(s: seq<HashNumber>) returns (ranges: seq<RangeRequest>)
    requires Sorted(s) && 0 < |s| < TWO_TO_THE_64
    ensures Flatten(ranges) == s && RangesOk(ranges)
  {
    ranges := [];
    var start: Uint64, count: nat := s[0].n, 0;
    for i := 0 to |s|
      invariant CutTo(s, i, ranges, start, count)
      invariant i == 0 ==> start == s[0].n && ranges == []
    {
      NextNumber(s, i, start, count);
      if Continues(s[i].n, start, count) {
        RunGrows(s, i, ranges, start, count);
        count := count + 1;
        continue;
      }
      ranges := CloseRun(s, i, ranges, start, count);
      RunStarts(s, i, ranges, s[i].n);
      start, count := s[i].n, 1;
    }
    ranges := CloseRun(s, |s|, ranges, start, count);
    assert s[..|s|] == s;
  }

  /** Appends the request for the run still open before entry i. */
  method CloseRun(s: seq<HashNumber>, i: nat, ranges: seq<RangeRequest>, start: Uint64, count: nat)
    returns (closed: seq<RangeRequest>)
    requires CutTo(s, i, ranges, start, count) && 0 < count < TWO_TO_THE_64
    ensures Flatten(closed) == s[..i] && RangesOk(closed)
    ensures |closed| == |ranges| + 1 && closed[|ranges|].start == start && closed[|ranges|].count == count
  {
    var last := RangeRequest(start, count, s[i - count..i]);
    SliceIsConsecutive(s, i - count, i, start);
    FlattenAppend(ranges, last);
    assert s[..i] == s[..i - count] + s[i - count..i];
    RangesStayOk(ranges, last);
    closed := ranges + [last];
  }

  lemma SliceIsConsecutive(s: seq<HashNumber>, from: nat, to: nat, start: nat)
    requires ConsecutiveIn(s, from, to, start)
    ensures Consecutive(s[from..to], start, to - from)
  {
    forall j | 0 <= j < to - from
      ensures s[from..to][j].n == start + j
    {
      assert s[from..to][j] == s[from + j];
    }
  }

  lemma RangesStayOk(ranges: seq<RangeRequest>, last: RangeRequest)
    requires RangesOk(ranges) && last.count > 0 && Consecutive(last.entries, last.start, last.count)
    requires ranges != [] ==> last.start != ranges[|ranges| - 1].start + ranges[|ranges| - 1].count
    ensures RangesOk(ranges + [last])
  {
    var all := ranges + [last];
    forall k | 0 <= k < |all|
      ensures all[k].count > 0 && Consecutive(all[k].entries, all[k].start, all[k].count)
      ensures k < |ranges| ==> all[k + 1].start != all[k].start + all[k].count
    {
      assert k < |ranges| ==> all[k] == ranges[k];
    }
  }

  lemma {:induction false} RunStarts(s: seq<HashNumber>, i: nat, ranges: seq<RangeRequest>, start: nat)
    requires i < |s| && s[i].n == start && Flatten(ranges) == s[..i] && RangesOk(ranges) && ranges != []
    requires start != ranges[|ranges| - 1].start + ranges[|ranges| - 1].count
    ensures CutTo(s, i + 1, ranges, start, 1)
  {
  }

  lemma RunGrows(s: seq<HashNumber>, i: nat, ranges: seq<RangeRequest>, start: nat, count: nat)
    requires CutTo(s, i, ranges, start, count) && i < |s| && s[i].n == start + count
    ensures CutTo(s, i + 1, ranges, start, count + 1)
  {
  }

  /** The 64-bit sum of start and count may wrap, but then no later entry can equal it. */
  lemma NextNumber(s: seq<HashNumber>, i: nat, start: Uint64, count: nat)
    requires Sorted(s) && count <= i < |s|
    requires if i == 0 then start == s[0].n else count > 0 && ConsecutiveIn(s, i - count, i, start)
    ensures Continues(s[i].n, start, count) <==> s[i].n == start + count
  {
    if i > 0 { assert start + count - 1 == s[i - 1].n <= s[i].n; }
  }

  // ---------------------------------------------------------------- blocks and the client

  datatype Header = Header(hash: Hash, number: Uint64)

  /** `header` is None when reading it fails or gives nil. */
  datatype Block = NilBlock | Block(blinded: bool, header: Option<Header>)

  predicate WellFormed(b: Block) {
    b.Block? && b.blinded && b.header.Some?
  }

  datatype Payload = EmptyPayload | FullPayload(header: Header, body: Body)

  datatype FullBlock = FullBlock(block: Block, payload: Payload)

  /** The execution client's answers; None is a failed call, and a None body inside an answer is a nil
      body. `builds` says whether a payload can be put into a block. */
  datatype Client = Client(
    byHash: seq<Hash> -> Option<seq<Option<Body>>>,
    byRange: (Uint64, Uint64) -> Option<seq<Option<Body>>>,
    builds: (Block, Payload) -> bool)

  /** The answer at place i of the request by hash, when it has the right length. */
  ghost function HashAnswer(client: Client, hashes: seq<Hash>, i: nat): Option<Option<Body>> {
    var r := client.byHash(hashes);
    if r.Some? && |r.value| == |hashes| && i < |hashes| then Some(r.value[i]) else None
  }

  ghost function RangeAnswer(client: Client, start: Uint64, count: Uint64, j: nat): Option<Body> {
    var r := client.byRange(start, count);
    if r.Some? && |r.value| == count && j < count then r.value[j] else None
  }

  ghost predicate FromHash(client: Client, hashes: seq<Hash>, h: Hash, body: Option<Body>) {
    exists i: nat :: i < |hashes| && hashes[i] == h && HashAnswer(client, hashes, i) == Some(body)
  }

  ghost predicate FromRange(client: Client, n: nat, body: Body) {
    exists start: Uint64, count: Uint64, j: nat :: RangeAnswer(client, start, count, j) == Some(body) && start + j == n
  }

  /** The body came back for this hash, or nil came back for it and the body for this block number. */
  ghost predicate Sourced(client: Client, hashes: seq<Hash>, h: Hash, n: nat, body: Body) {
    || FromHash(client, hashes, h, Some(body))
    || (FromHash(client, hashes, h, None) && FromRange(client, n, body))
  }

  /** The request by hash is answered with as many bodies, nil or not, as asked. */
  ghost predicate HashesInFull(client: Client, hashes: seq<Hash>) {
    client.byHash(hashes).Some? && |client.byHash(hashes).value| == |hashes|
  }

  /** The request for a range is answered with as many bodies as asked, none of them nil. */
  ghost predicate RangeInFull(client: Client, start: Uint64, count: Uint64) {
    && client.byRange(start, count).Some?
    && |client.byRange(start, count).value| == count
    && None !in client.byRange(start, count).value
  }

  /** The ranges ask for exactly the hashes of the batch that came back nil, each by its number, in maximal runs of
      consecutive numbers. */
  ghost predicate AskedFor(client: Client, hashes: seq<Hash>, batch: map<Hash, Uint64>, reqs: seq<RangeRequest>) {
    && RangesOk(reqs) && Sorted(Flatten(reqs))
    && forall x :: x in Flatten(reqs) <==> x.h in batch && batch[x.h] == x.n && FromHash(client, hashes, x.h, None)
  }

  /** Every request that is made is answered in full. */
  ghost predicate RequestsInFull(client: Client, hashes: seq<Hash>, reqs: seq<RangeRequest>) {
    && (hashes == [] || HashesInFull(client, hashes))
    && forall req :: req in reqs ==> RangeInFull(client, req.start, req.count)
  }

  ghost predicate AnswersInFull(client: Client) {
    && (forall hashes :: HashesInFull(client, hashes))
    && (forall start: Uint64, count: Uint64 :: RangeInFull(client, start, count))
  }

  // ---------------------------------------------------------------- the batch

  function Record(batch: map<Hash, Uint64>, header: Header): map<Hash, Uint64> {
    if header.hash == ZERO_HASH then batch else batch[header.hash := header.number]
  }

  ghost predicate AllWellFormed(blocks: seq<Block>) {
    forall i :: 0 <= i < |blocks| ==> WellFormed(blocks[i])
  }

  ghost function Batch(blocks: seq<Block>): map<Hash, Uint64>
    requires AllWellFormed(blocks)
  {
    if blocks == [] then map[]
    else Record(Batch(blocks[..|blocks| - 1]), blocks[|blocks| - 1].header.value)
  }

  /** Block i is the last one with its hash. */
  ghost predicate LastWithHash(blocks: seq<Block>, i: nat)
    requires AllWellFormed(blocks) && i < |blocks|
  {
    forall k :: i < k < |blocks| ==> blocks[k].header.value.hash != blocks[i].header.value.hash
  }

  lemma {:induction false} BatchHoldsHashes(blocks: seq<Block>)
    requires AllWellFormed(blocks)
    ensures forall h :: h in Batch(blocks) ==>
              h != ZERO_HASH && exists i :: 0 <= i < |blocks| && blocks[i].header.value.hash == h
    ensures forall i :: 0 <= i < |blocks| && blocks[i].header.value.hash != ZERO_HASH ==>
              blocks[i].header.value.hash in Batch(blocks)
  {
    if blocks != [] { BatchHoldsHashes(blocks[..|blocks| - 1]); }
  }

  lemma {:induction false} BatchHoldsNumberOf(blocks: seq<Block>, i: nat)
    requires AllWellFormed(blocks) && i < |blocks| && LastWithHash(blocks, i)
    requires blocks[i].header.value.hash != ZERO_HASH
    ensures blocks[i].header.value.hash in Batch(blocks)
    ensures Batch(blocks)[blocks[i].header.value.hash] == blocks[i].header.value.number
  {
    if i < |blocks| - 1 {
      var front := blocks[..|blocks| - 1];
      assert LastWithHash(front, i);
      BatchHoldsNumberOf(front, i);
    }
  }

  /** The batch holds exactly the non-zero hashes of the blocks, each with the number of the last
      block that has it. */
  lemma {:induction false} BatchHoldsLastNumber(blocks: seq<Block>)
    requires AllWellFormed(blocks)
    ensures forall h :: h in Batch(blocks) ==>
              h != ZERO_HASH && exists i :: 0 <= i < |blocks| && blocks[i].header.value.hash == h
    ensures forall i :: 0 <= i < |blocks| && blocks[i].header.value.hash != ZERO_HASH ==>
              && blocks[i].header.value.hash in Batch(blocks)
              && (LastWithHash(blocks, i) ==>
                    Batch(blocks)[blocks[i].header.value.hash] == blocks[i].header.value.number)
  {
    BatchHoldsHashes(blocks);
    forall i: nat | i < |blocks| && blocks[i].header.value.hash != ZERO_HASH && LastWithHash(blocks, i)
      ensures Batch(blocks)[blocks[i].header.value.hash] == blocks[i].header.value.number
    {
      BatchHoldsNumberOf(blocks, i);
    }
  }

  datatype Error = BadBlock | ClientFailed | NoBody | BuildFailed

  datatype Outcome = Done(blocks: seq<FullBlock>) | Failed(error: Error)

  class Reconstructor {
    var orderedBlocks: seq<Block>
    var bodies: map<Hash, Body>
    var batch: map<Hash, Uint64>

    constructor ()
      ensures orderedBlocks == [] && bodies == map[] && batch == map[]
    {
      orderedBlocks, bodies, batch := [], map[], map[];
    }

    /** The blocks taken so far, and the batch that belongs to them. */
    ghost predicate Loaded(blocks: seq<Block>)
      reads this
    {
      AllWellFormed(blocks) && orderedBlocks == blocks && batch == Batch(blocks)
    }

    method AddToBatch(b: Block) returns (ok: bool)
      requires Loaded(orderedBlocks)
      modifies this`orderedBlocks, this`batch
      ensures ok <==> WellFormed(b)
      ensures Loaded(if ok then old(orderedBlocks) + [b] else old(orderedBlocks))
    {
      if !WellFormed(b) {
        return false;
      }
      assert (orderedBlocks + [b])[..|orderedBlocks|] == orderedBlocks;
      orderedBlocks := orderedBlocks + [b];
      batch := Record(batch, b.header.value);
      return true;
    }

    method Load(blocks: seq<Block>) returns (ok: bool)
      requires orderedBlocks == [] && batch == map[]
      modifies this`orderedBlocks, this`batch
      ensures ok <==> AllWellFormed(blocks)
      ensures ok ==> Loaded(blocks)
    {
      for i := 0 to |blocks|
        invariant Loaded(blocks[..i])
      {
        assert blocks[..i + 1] == blocks[..i] + [blocks[i]];
        ok := AddToBatch(blocks[i]);
        if !ok {
          return false;
        }
      }
      assert blocks[..|blocks|] == blocks;
      return true;
    }

    /** Every body held is for a hash of the batch and came from the client for that hash or number. */
    ghost predicate AllSourced(client: Client, hashes: seq<Hash>)
      reads this
    {
      forall h :: h in bodies ==> h in batch && Sourced(client, hashes, h, batch[h], bodies[h])
    }

    /** The hashes of the batch, each once, in no particular order. */
    method Hashes() returns (hashes: seq<Hash>)
      requires ZERO_HASH !in batch
      ensures multiset(hashes) == multiset(batch.Keys)
    {
      hashes := [];
      var rest := batch.Keys;
      while rest != {}
        invariant rest <= batch.Keys
        invariant multiset(hashes) == multiset(batch.Keys - rest)
        decreases |rest|
      {
        var h :| h in rest;
        rest := rest - {h};
        if h != ZERO_HASH {
          hashes := hashes + [h];
        }
        assert batch.Keys - rest == (batch.Keys - rest - {h}) + {h};
      }
      assert batch.Keys - rest == batch.Keys;
    }

    /** Asks for the whole batch by hash; what came back nil is returned. */
    method RequestBodiesByHash(client: Client) returns (ok: bool, nils: seq<Hash>, ghost hashes: seq<Hash>)
      requires bodies == map[] && ZERO_HASH !in batch
      modifies this`bodies
      ensures multiset(hashes) == multiset(batch.Keys)
      ensures ok <==> |batch| == 0 || HashesInFull(client, hashes)
      ensures ok ==> AllSourced(client, hashes) && |nils| <= |batch|
      ensures ok ==> forall h :: h in nils <==> h in batch && FromHash(client, hashes, h, None)
      ensures ok ==> forall h :: h in batch ==> h in bodies || h in nils
    {
      var asked := Hashes();
      hashes := asked;
      nils := [];
      assert |multiset(asked)| == |multiset(batch.Keys)|;
      if |batch| == 0 {
        return true, nils, hashes;
      }
      var result := client.byHash(asked);
      if result.None? || |result.value| != |asked| {
        return false, nils, hashes;
      }
      for i := 0 to |asked|
        invariant |nils| <= i
        invariant AllSourced(client, hashes)
        invariant forall h :: h in nils ==> h in batch && FromHash(client, hashes, h, None)
        invariant forall k :: 0 <= k < i ==> asked[k] in bodies || asked[k] in nils
        invariant forall k :: 0 <= k < i && result.value[k].None? ==> asked[k] in nils
      {
        assert asked[i] in multiset(asked);
        assert HashAnswer(client, asked, i) == Some(result.value[i]);
        if result.value[i].None? {
          nils := nils + [asked[i]];
        } else {
          bodies := bodies[asked[i] := result.value[i].value];
        }
      }
      forall h | h in batch
        ensures h in bodies || h in nils
      {
        assert h in multiset(asked);
      }
      return true, nils, hashes;
    }

    /** Asks for one range and files each body under the hash its place stands for. */
    method RequestBodiesByRange(client: Client, req: RangeRequest, ghost hashes: seq<Hash>) returns (ok: bool)
      requires Consecutive(req.entries, req.start, req.count)
      requires forall x :: x in req.entries ==> x.h in batch && batch[x.h] == x.n && FromHash(client, hashes, x.h, None)
      requires AllSourced(client, hashes)
      modifies this`bodies
      ensures AllSourced(client, hashes) && old(bodies).Keys <= bodies.Keys
      ensures ok <==> RangeInFull(client, req.start, req.count)
      ensures ok ==> forall x :: x in req.entries ==> x.h in bodies
    {
      var result := client.byRange(req.start, req.count);
      if result.None? || |result.value| != req.count {
        return false;
      }
      for i := 0 to |result.value|
        invariant AllSourced(client, hashes) && old(bodies).Keys <= bodies.Keys
        invariant forall k :: 0 <= k < i ==> req.entries[k].h in bodies && result.value[k].Some?
      {
        if result.value[i].None? {
          assert None in result.value;
          return false;
        }
        assert req.entries[i] in req.entries;
        assert RangeAnswer(client, req.start, req.count, i) == Some(result.value[i].value);
        assert FromRange(client, req.entries[i].n, result.value[i].value);
        bodies := bodies[req.entries[i].h := result.value[i].value];
      }
      return true;
    }

    /** Asks by number for every hash that came back nil; afterwards no hash of the batch lacks a body. */
    method HandleNilResults(client: Client, nils: seq<Hash>, ghost hashes: seq<Hash>)
      returns (ok: bool, ghost reqs: seq<RangeRequest>)
      requires AllSourced(client, hashes) && |nils| < TWO_TO_THE_64
      requires forall h :: h in nils <==> h in batch && FromHash(client, hashes, h, None)
      modifies this`bodies
      ensures AllSourced(client, hashes) && old(bodies).Keys <= bodies.Keys
      ensures AskedFor(client, hashes, batch, reqs)
      ensures ok <==> forall req :: req in reqs ==> RangeInFull(client, req.start, req.count)
      ensures ok ==> forall h :: h in nils ==> h in bodies
    {
      if |nils| == 0 {
        return true, [];
      }
      var entries := new HashNumber[|nils|](i requires 0 <= i < |nils| && nils[i] in batch reads this =>
                                              HashNumber(nils[i], batch[nils[i]]));
      ghost var unsorted := entries[..];
      assert forall i :: 0 <= i < |nils| ==> unsorted[i] == HashNumber(nils[i], batch[nils[i]]);
      var ranges := ComputeRanges(entries);
      reqs := ranges;
      SameMembers(unsorted, Flatten(ranges));
      ok := RequestRanges(client, ranges, hashes);
      if ok {
        forall h | h in nils
          ensures h in bodies
        {
          var i :| 0 <= i < |nils| && nils[i] == h;
          assert unsorted[i] in Flatten(reqs);
        }
      }
    }

    method RequestRanges(client: Client, reqs: seq<RangeRequest>, ghost hashes: seq<Hash>) returns (ok: bool)
      requires AllSourced(client, hashes) && RangesOk(reqs)
      requires forall x :: x in Flatten(reqs) ==>
                 x.h in batch && batch[x.h] == x.n && FromHash(client, hashes, x.h, None)
      modifies this`bodies
      ensures AllSourced(client, hashes) && old(bodies).Keys <= bodies.Keys
      ensures ok <==> forall req :: req in reqs ==> RangeInFull(client, req.start, req.count)
      ensures ok ==> forall x :: x in Flatten(reqs) ==> x.h in bodies
    {
      for i := 0 to |reqs|
        invariant AllSourced(client, hashes) && old(bodies).Keys <= bodies.Keys
        invariant forall x :: x in Flatten(reqs[..i]) ==> x.h in bodies
        invariant forall req :: req in reqs[..i] ==> RangeInFull(client, req.start, req.count)
      {
        PieceIsInside(reqs, i);
        ok := RequestBodiesByRange(client, reqs[i], hashes);
        if !ok {
          return false;
        }
        assert reqs[..i + 1][..i] == reqs[..i];
      }
      assert reqs[..|reqs|] == reqs;
      return true;
    }

    method RequestBodies(client: Client) returns (ok: bool, ghost hashes: seq<Hash>, ghost reqs: seq<RangeRequest>)
      requires bodies == map[] && ZERO_HASH !in batch && |batch| < TWO_TO_THE_64
      modifies this`bodies
      ensures ok <==> RequestsInFull(client, hashes, reqs)
      ensures hashes == [] || HashesInFull(client, hashes) ==> AskedFor(client, hashes, batch, reqs)
      ensures ok ==> AllSourced(client, hashes) && batch.Keys == bodies.Keys
      ensures multiset(hashes) == multiset(batch.Keys)
    {
      var nils;
      reqs := [];
      ok, nils, hashes := RequestBodiesByHash(client);
      assert |multiset(hashes)| == |batch.Keys|;
      if ok {
        ok, reqs := HandleNilResults(client, nils, hashes);
      }
    }

    /** The payload for a header: empty for the zero hash, otherwise from the body held for its hash. */
    method PayloadForHeader(header: Header) returns (payload: Option<Payload>)
      ensures header.hash == ZERO_HASH ==> payload == Some(EmptyPayload)
      ensures header.hash != ZERO_HASH && header.hash !in bodies ==> payload == None
      ensures header.hash != ZERO_HASH && header.hash in bodies ==>
                payload == Some(FullPayload(header, bodies[header.hash]))
    {
      if header.hash == ZERO_HASH {
        return Some(EmptyPayload);
      }
      if header.hash !in bodies {
        return None;
      }
      return Some(FullPayload(header, bodies[header.hash]));
    }

    lemma HasBody(i: nat)
      requires Loaded(orderedBlocks) && batch.Keys == bodies.Keys && i < |orderedBlocks|
      ensures orderedBlocks[i].header.value.hash != ZERO_HASH ==> orderedBlocks[i].header.value.hash in bodies
    {
      BatchHoldsLastNumber(orderedBlocks);
    }

    lemma OwnPayload(client: Client, hashes: seq<Hash>, i: nat, payload: Payload)
      requires Loaded(orderedBlocks) && AllSourced(client, hashes) && batch.Keys == bodies.Keys && i < |orderedBlocks|
      requires var header := orderedBlocks[i].header.value;
               if header.hash == ZERO_HASH then payload == EmptyPayload
               else header.hash in bodies && payload == FullPayload(header, bodies[header.hash])
      ensures PayloadFor(client, hashes, orderedBlocks, i, payload)
    {
      BatchHoldsLastNumber(orderedBlocks);
    }

    /** One full block per blinded one, in the order they were given. */
    method Unblinded(client: Client, ghost hashes: seq<Hash>) returns (r: Outcome)
      requires Loaded(orderedBlocks) && AllSourced(client, hashes) && batch.Keys == bodies.Keys
      ensures r.Done? ==> Rebuilt(client, hashes, orderedBlocks, r.blocks)
      ensures r.Done? && OneNumberPerHash(orderedBlocks) ==> AllOwn(client, hashes, orderedBlocks, r.blocks)
      ensures r.Failed? ==> r.error == BuildFailed && SomeDoesNotBuild(client, hashes, orderedBlocks)
    {
      var full: seq<FullBlock> := [];
      for i := 0 to |orderedBlocks|
        invariant |full| == i
        invariant forall k :: 0 <= k < i ==> RebuiltFrom(client, hashes, orderedBlocks, k, full[k])
      {
        HasBody(i);
        var payload := PayloadForHeader(orderedBlocks[i].header.value);
        if payload.None? {
          return Failed(NoBody);
        }
        OwnPayload(client, hashes, i, payload.value);
        if !client.builds(orderedBlocks[i], payload.value) {
          return Failed(BuildFailed);
        }
        full := full + [FullBlock(orderedBlocks[i], payload.value)];
      }
      if OneNumberPerHash(orderedBlocks) {
        OneNumberGivesOwnBodies(client, hashes, orderedBlocks, full);
      }
      return Done(full);
    }
  }

  ghost predicate AlwaysBuilds(client: Client) {
    forall b, p :: client.builds(b, p)
  }

  /** A payload for block i: empty for the zero hash, else its own header with a body the client returned for its
      hash, or after nil for the number the batch has for it, which is its own if it is the last with its hash. */
  ghost predicate PayloadFor(client: Client, hashes: seq<Hash>, blocks: seq<Block>, i: nat, payload: Payload)
    requires AllWellFormed(blocks) && i < |blocks|
  {
    var header := blocks[i].header.value;
    && (header.hash == ZERO_HASH ==> payload == EmptyPayload)
    && (header.hash != ZERO_HASH ==>
          && payload.FullPayload? && payload.header == header
          && header.hash in Batch(blocks)
          && Sourced(client, hashes, header.hash, Batch(blocks)[header.hash], payload.body)
          && (LastWithHash(blocks, i) ==> Sourced(client, hashes, header.hash, header.number, payload.body)))
  }

  /** The full block is the i-th blinded one with a payload for it. */
  ghost predicate RebuiltFrom(client: Client, hashes: seq<Hash>, blocks: seq<Block>, i: nat, full: FullBlock)
    requires AllWellFormed(blocks) && i < |blocks|
  {
    && full.block == blocks[i]
    && client.builds(full.block, full.payload)
    && PayloadFor(client, hashes, blocks, i, full.payload)
  }

  /** A payload for one of the blocks does not fit it. */
  ghost predicate SomeDoesNotBuild(client: Client, hashes: seq<Hash>, blocks: seq<Block>)
    requires AllWellFormed(blocks)
  {
    exists i: nat, payload: Payload ::
      i < |blocks| && PayloadFor(client, hashes, blocks, i, payload) && !client.builds(blocks[i], payload)
  }

  ghost predicate Rebuilt(client: Client, hashes: seq<Hash>, blocks: seq<Block>, full: seq<FullBlock>) {
    && AllWellFormed(blocks) && |full| == |blocks|
    && forall k :: 0 <= k < |full| ==> RebuiltFrom(client, hashes, blocks, k, full[k])
  }

  lemma SameMembers(s: seq<HashNumber>, t: seq<HashNumber>)
    requires multiset(s) == multiset(t)
    ensures forall x :: x in s <==> x in t
  {
    forall x
      ensures x in s <==> x in t
    {
      assert x in s <==> x in multiset(s);
      assert x in t <==> x in multiset(t);
    }
  }

  lemma {:induction false} PieceIsInside(reqs: seq<RangeRequest>, i: nat)
    requires i < |reqs|
    ensures forall x :: x in reqs[i].entries ==> x in Flatten(reqs)
  {
    if i < |reqs| - 1 {
      PieceIsInside(reqs[..|reqs| - 1], i);
    }
  }

  // ---------------------------------------------------------------- a body for one's own number

  /** The blocks that share a non-zero hash carry one number. */
  predicate OneNumberPerHash(blocks: seq<Block>) {
    forall i, j :: 0 <= i < |blocks| && 0 <= j < |blocks| && WellFormed(blocks[i]) && WellFormed(blocks[j]) ==>
      var x, y := blocks[i].header.value, blocks[j].header.value;
      x.hash == y.hash != ZERO_HASH ==> x.number == y.number
  }

  /** Every block with a non-zero hash has a body the client returned for its own hash or its own number. */
  ghost predicate AllOwn(client: Client, hashes: seq<Hash>, blocks: seq<Block>, full: seq<FullBlock>)
    requires Rebuilt(client, hashes, blocks, full)
  {
    forall i :: 0 <= i < |blocks| ==>
      var header := blocks[i].header.value;
      header.hash != ZERO_HASH ==> Sourced(client, hashes, header.hash, header.number, full[i].payload.body)
  }

  lemma {:induction false} BatchHoldsSomeNumber(blocks: seq<Block>, h: Hash)
    requires AllWellFormed(blocks) && h in Batch(blocks)
    ensures exists i :: 0 <= i < |blocks| && blocks[i].header.value == Header(h, Batch(blocks)[h])
  {
    BatchHoldsHashes(blocks);
    var last := |blocks| - 1;
    if blocks[last].header.value.hash == h {
      assert blocks[last].header.value == Header(h, Batch(blocks)[h]);
    } else {
      BatchHoldsSomeNumber(blocks[..last], h);
      var i :| 0 <= i < last && blocks[..last][i].header.value == Header(h, Batch(blocks)[h]);
      assert blocks[i].header.value == Header(h, Batch(blocks)[h]);
    }
  }

  lemma OneNumberGivesOwnBodies(client: Client, hashes: seq<Hash>, blocks: seq<Block>, full: seq<FullBlock>)
    requires Rebuilt(client, hashes, blocks, full) && OneNumberPerHash(blocks)
    ensures AllOwn(client, hashes, blocks, full)
  {
    BatchHoldsHashes(blocks);
    forall i | 0 <= i < |blocks| && blocks[i].header.value.hash != ZERO_HASH
      ensures Batch(blocks)[blocks[i].header.value.hash] == blocks[i].header.value.number
    {
      assert RebuiltFrom(client, hashes, blocks, i, full[i]);
      BatchHoldsSomeNumber(blocks, blocks[i].header.value.hash);
    }
    assert forall i :: 0 <= i < |blocks| ==> RebuiltFrom(client, hashes, blocks, i, full[i]);
  }

  /** Answers nil to every hash, and to a range the bodies that spell out its numbers. */
  const NumberingClient := Client(
    hashes => Some(seq(|hashes|, _ => None)),
    (start: Uint64, count: Uint64) => Some(seq(count, j => Some(start + j))),
    (_, _) => true)

  lemma NumberingClientAnswers(hashes: seq<Hash>, h: Hash, n: nat, body: Body)
    ensures AnswersInFull(NumberingClient) && AlwaysBuilds(NumberingClient)
    ensures Sourced(NumberingClient, hashes, h, n, body) ==> body == n
  {
  }

  lemma ClashGivesForeignBody(hashes: seq<Hash>, blocks: seq<Block>, full: seq<FullBlock>)
    requires Rebuilt(NumberingClient, hashes, blocks, full) && !OneNumberPerHash(blocks)
    ensures !AllOwn(NumberingClient, hashes, blocks, full)
  {
    var i, j :| 0 <= i < |blocks| && 0 <= j < |blocks|
                && blocks[i].header.value.hash == blocks[j].header.value.hash != ZERO_HASH
                && blocks[i].header.value.number != blocks[j].header.value.number;
    forall k | k in {i, j}
      ensures full[k].payload.body == Batch(blocks)[blocks[i].header.value.hash]
      ensures AllOwn(NumberingClient, hashes, blocks, full) ==>
                full[k].payload.body == blocks[k].header.value.number
    {
      var h, body := blocks[k].header.value.hash, full[k].payload.body;
      assert RebuiltFrom(NumberingClient, hashes, blocks, k, full[k]);
      NumberingClientAnswers(hashes, h, Batch(blocks)[h], body);
      NumberingClientAnswers(hashes, h, blocks[k].header.value.number, body);
    }
  }

  /** Each distinct hash is asked for once, and a success rebuilds every block in order.  The only ways
      to fail are a malformed block, a failing client and a payload that does not fit its block. */
  method ReconstructBlindedBlockBatch(client: Client, blocks: seq<Block>)
    returns (r: Outcome, ghost hashes: seq<Hash>, ghost reqs: seq<RangeRequest>)
    requires |blocks| < TWO_TO_THE_64
    ensures r == Failed(BadBlock) <==> !AllWellFormed(blocks)
    ensures AllWellFormed(blocks) ==> multiset(hashes) == multiset(Batch(blocks).Keys)
    ensures AllWellFormed(blocks) && (hashes == [] || HashesInFull(client, hashes)) ==>
              AskedFor(client, hashes, Batch(blocks), reqs)
    ensures r == Failed(ClientFailed) <==> AllWellFormed(blocks) && !RequestsInFull(client, hashes, reqs)
    ensures r.Done? ==> Rebuilt(client, hashes, blocks, r.blocks)
    ensures r.Done? && OneNumberPerHash(blocks) ==> AllOwn(client, hashes, blocks, r.blocks)
    ensures r != Failed(NoBody)
    ensures r == Failed(BuildFailed) ==> AllWellFormed(blocks) && SomeDoesNotBuild(client, hashes, blocks)
  {
    hashes, reqs := [], [];
    var rec := new Reconstructor();
    var ok := rec.Load(blocks);
    if !ok {
      return Failed(BadBlock), hashes, reqs;
    }
    BatchHoldsLastNumber(blocks);
    BatchIsNoLonger(blocks);
    ok, hashes, reqs := rec.RequestBodies(client);
    if !ok {
      return Failed(ClientFailed), hashes, reqs;
    }
    r := rec.Unblinded(client, hashes);
  }

  /** Whatever well-formed blocks break the condition, some client makes the reconstruction succeed
      with a body that belongs to neither the hash nor the number of its block. */
  method ReconstructClash(blocks: seq<Block>) returns (r: Outcome, ghost hashes: seq<Hash>)
    requires |blocks| < TWO_TO_THE_64 && AllWellFormed(blocks) && !OneNumberPerHash(blocks)
    ensures r.Done? && Rebuilt(NumberingClient, hashes, blocks, r.blocks)
    ensures !AllOwn(NumberingClient, hashes, blocks, r.blocks)
  {
    NumberingClientAnswers([], 0, 0, 0);
    ghost var reqs;
    r, hashes, reqs := ReconstructBlindedBlockBatch(NumberingClient, blocks);
    assert r.Done? by {
      if r.Failed? {
        match r.error
        case BadBlock => case ClientFailed => case NoBody => case BuildFailed =>
      }
    }
    ClashGivesForeignBody(hashes, blocks, r.blocks);
  }

  const ClashingBlocks: seq<Block> := [Block(true, Some(Header(7, 1))), Block(true, Some(Header(7, 2)))]

  /** Two blocks with one hash: the first one gets the body of block number two. */
  method FirstBlockGetsSecondBody() returns (r: Outcome, ghost hashes: seq<Hash>)
    ensures r.Done? && |r.blocks| == 2
    ensures r.blocks[0].payload == FullPayload(Header(7, 1), 2)
    ensures !Sourced(NumberingClient, hashes, 7, 1, 2)
  {
    var x, y := ClashingBlocks[0].header.value, ClashingBlocks[1].header.value;
    assert x.hash == y.hash && x.number != y.number;
    r, hashes := ReconstructClash(ClashingBlocks);
    assert RebuiltFrom(NumberingClient, hashes, ClashingBlocks, 0, r.blocks[0]);
    BatchHoldsNumberOf(ClashingBlocks, 1);
    NumberingClientAnswers(hashes, 7, 2, r.blocks[0].payload.body);
    NumberingClientAnswers(hashes, 7, 1, 2);
  }

  lemma NumberingClientSources(hashes: seq<Hash>, i: nat, n: Uint64)
    requires i < |hashes|
    ensures Sourced(NumberingClient, hashes, hashes[i], n, n)
  {
    assert HashAnswer(NumberingClient, hashes, i) == Some(None);
    assert RangeAnswer(NumberingClient, n, 1, 0) == Some(n);
  }

  /** There is a success to speak of, whatever the blocks. */
  lemma SomeRebuild(blocks: seq<Block>) returns (hashes: seq<Hash>, full: seq<FullBlock>)
    requires AllWellFormed(blocks)
    ensures Rebuilt(NumberingClient, hashes, blocks, full)
  {
    BatchHoldsLastNumber(blocks);
    hashes := seq(|blocks|, i requires 0 <= i < |blocks| => blocks[i].header.value.hash);
    full := seq(|blocks|, i requires 0 <= i < |blocks| =>
      var header := blocks[i].header.value;
      FullBlock(blocks[i],
        if header.hash in Batch(blocks) then FullPayload(header, Batch(blocks)[header.hash]) else EmptyPayload));
    forall i | 0 <= i < |blocks|
      ensures RebuiltFrom(NumberingClient, hashes, blocks, i, full[i])
    {
      if hashes[i] in Batch(blocks) {
        NumberingClientSources(hashes, i, Batch(blocks)[hashes[i]]);
      }
    }
  }

  /** Every success, for every client, gives every block a body of its own exactly when the blocks that
      share a non-zero hash carry one number. */
  lemma OwnBodiesIff(blocks: seq<Block>)
    requires AllWellFormed(blocks)
    ensures OneNumberPerHash(blocks) <==>
            forall client, hashes, full | Rebuilt(client, hashes, blocks, full) :: AllOwn(client, hashes, blocks, full)
  {
    if OneNumberPerHash(blocks) {
      forall client, hashes, full | Rebuilt(client, hashes, blocks, full)
        ensures AllOwn(client, hashes, blocks, full)
      {
        OneNumberGivesOwnBodies(client, hashes, blocks, full);
      }
    } else {
      var hashes, full := SomeRebuild(blocks);
      ClashGivesForeignBody(hashes, blocks, full);
    }
  }

  lemma {:induction false} BatchIsNoLonger(blocks: seq<Block>)
    requires AllWellFormed(blocks)
    ensures |Batch(blocks)| <= |blocks|
  {
    if blocks != [] {
      var front := Batch(blocks[..|blocks| - 1]);
      var header := blocks[|blocks| - 1].header.value;
      BatchIsNoLonger(blocks[..|blocks| - 1]);
      assert front[header.hash := header.number].Keys == front.Keys + {header.hash};
    }
  }
}
