/** Finding the latest execution block at or before a time: a bounded interpolation search followed
    by a scan, with the header cache it fills and uint64 wrap-around written out. */
module BlockByTimestamp {
  import opened Common

  const SEARCH_THRESHOLD: nat := 5
  const REPEATED_SEARCHES: nat := 2 * SEARCH_THRESHOLD

  datatype Header = Header(number: nat, time: nat)

  datatype Result = Ok(header: Header) | TimeTooLate | HeaderUnavailable | Cancelled

  /** An immutable chain: block k has number k and timestamps strictly increase. */
  ghost predicate IsChain(chain: seq<Header>) {
    && (forall k :: 0 <= k < |chain| ==> chain[k].number == k && chain[k].time < TWO_TO_THE_64)
    && (forall j, k :: 0 <= j < k < |chain| ==> Rises(chain, j, k))
  }

  ghost predicate Rises(chain: seq<Header>, j: nat, k: nat)
    requires j < k < |chain|
  {
    chain[j].time < chain[k].time
  }

  lemma InOrder(chain: seq<Header>, j: nat, k: nat)
    requires IsChain(chain) && j <= k < |chain|
    ensures chain[j].time <= chain[k].time && (j < k ==> chain[j].time < chain[k].time)
  {
    assert j < k ==> Rises(chain, j, k);
  }

  /** The reference: scan from the first block on. */
  function LatestAtOrBefore(chain: seq<Header>, time: nat, k: nat): (target: nat)
    requires k < |chain|
    ensures k <= target < |chain|
    decreases |chain| - k
  {
    if k + 1 < |chain| && chain[k + 1].time <= time then LatestAtOrBefore(chain, time, k + 1) else k
  }

  /** Linear search finds the one block at or before the time whose successor, if any, is after it. */
  lemma {:induction false} LatestIsUnique(chain: seq<Header>, time: nat, k: nat, n: nat)
    requires IsChain(chain) && k <= n < |chain|
    requires chain[n].time <= time && (n + 1 < |chain| ==> time < chain[n + 1].time)
    ensures LatestAtOrBefore(chain, time, k) == n
    decreases n - k
  {
    if k < n {
      InOrder(chain, k + 1, n);
      LatestIsUnique(chain, time, k + 1, n);
    }
  }

  /** big.Int's Uint64 takes the magnitude's low word. */
  function Uint64(x: int): nat {
    Wrap(if x < 0 then -x else x)
  }

  lemma Magnitude(x: int)
    requires 0 - TWO_TO_THE_64 < x < TWO_TO_THE_64
    ensures Uint64(x) == if x < 0 then -x else x
  {
  }

  /** uint64 subtraction. */
  function Minus(a: nat, b: nat): nat {
    Wrap(a - b)
  }

  /** The low 64 bits. */
  function Wrap(x: int): nat {
    x % TWO_TO_THE_64
  }

  function Divide(a: nat, d: nat): nat
    requires d > 0
  {
    a / d
  }

  function Buffer(secondsPerBlock: nat): nat {
    SEARCH_THRESHOLD * secondsPerBlock
  }

  datatype Guess = Stop | Goto(block: nat)

  /** One step of the interpolation: the block the average block time suggests, or stop when the
      cursor is close enough or the suggestion is out of bounds. */
  function Estimate(time: nat, cursorNum: nat, cursorTime: nat, height: nat, secondsPerBlock: nat): (g: Guess)
    requires secondsPerBlock > 0 && cursorNum <= height
    ensures g.Goto? ==> g.block <= height
  {
    var buffer := Wrap(Buffer(secondsPerBlock));
    if time > Wrap(cursorTime + buffer) then
      var blocks := Divide(Minus(time, cursorTime), secondsPerBlock);
      var block := Wrap(cursorNum + blocks);
      if block > height then Stop else Goto(block)
    else if Wrap(time + buffer) < cursorTime then
      var blocks := Divide(Minus(cursorTime, time), secondsPerBlock);
      if blocks >= cursorNum then Stop else Goto(cursorNum - blocks)
    else Stop
  }

  /** Blocks exactly secondsPerBlock apart. */
  ghost predicate IsRegular(chain: seq<Header>, secondsPerBlock: nat) {
    forall k :: 0 <= k < |chain| ==> chain[k].time == chain[0].time + k * secondsPerBlock
  }

  lemma NoWrap(x: int)
    requires 0 <= x < TWO_TO_THE_64
    ensures Wrap(x) == x
  {
  }

  /** The step without the wrap-around, as it is away from the ends of uint64. */
  function PlainEstimate(time: nat, cursor: nat, cursorTime: nat, height: nat, secondsPerBlock: nat): Guess
    requires secondsPerBlock > 0
  {
    var buffer := Buffer(secondsPerBlock);
    if time > cursorTime + buffer then
      var block := cursor + Divide(time - cursorTime, secondsPerBlock);
      if block > height then Stop else Goto(block)
    else if time + buffer < cursorTime then
      var blocks := Divide(cursorTime - time, secondsPerBlock);
      if blocks >= cursor then Stop else Goto(cursor - blocks)
    else Stop
  }

  lemma EstimateIsPlain(time: nat, cursor: nat, cursorTime: nat, height: nat, secondsPerBlock: nat, buffer: nat)
    requires secondsPerBlock > 0 && cursor <= height && buffer == Buffer(secondsPerBlock)
    requires time + buffer < TWO_TO_THE_64 && cursorTime + buffer < TWO_TO_THE_64
    requires time > cursorTime ==> cursor + Divide(time - cursorTime, secondsPerBlock) < TWO_TO_THE_64
    ensures Estimate(time, cursor, cursorTime, height, secondsPerBlock)
            == PlainEstimate(time, cursor, cursorTime, height, secondsPerBlock)
  {
    NoWrap(buffer);
    NoWrap(time + buffer);
    NoWrap(cursorTime + buffer);
    if time > cursorTime + buffer {
      ForwardIsPlain(time, cursor, cursorTime, secondsPerBlock);
    } else if time + buffer < cursorTime {
      BackIsPlain(time, cursorTime, secondsPerBlock);
    }
  }

  lemma ForwardIsPlain(time: nat, cursor: nat, cursorTime: nat, secondsPerBlock: nat)
    requires secondsPerBlock > 0 && cursorTime < time < TWO_TO_THE_64
    requires cursor + Divide(time - cursorTime, secondsPerBlock) < TWO_TO_THE_64
    ensures Wrap(cursor + Divide(Minus(time, cursorTime), secondsPerBlock))
            == cursor + Divide(time - cursorTime, secondsPerBlock)
  {
    MinusIsPlain(time, cursorTime);
    NoWrap(cursor + Divide(time - cursorTime, secondsPerBlock));
  }

  lemma BackIsPlain(time: nat, cursorTime: nat, secondsPerBlock: nat)
    requires secondsPerBlock > 0 && time < cursorTime < TWO_TO_THE_64
    ensures Divide(Minus(cursorTime, time), secondsPerBlock) == Divide(cursorTime - time, secondsPerBlock)
  {
    MinusIsPlain(cursorTime, time);
  }

  lemma MinusIsPlain(a: nat, b: nat)
    requires b <= a < TWO_TO_THE_64
    ensures Minus(a, b) == a - b
  {
  }

  lemma DivideLeaves(gap: nat, d: nat)
    requires d > 0
    ensures 0 <= gap - Divide(gap, d) * d < d
  {
  }

  lemma DivideAtMost(gap: nat, n: nat, d: nat)
    requires d > 0 && gap <= n * d
    ensures Divide(gap, d) <= n
  {
    DivideLeaves(gap, d);
    MultiplesOrder(Divide(gap, d), n, d);
  }

  lemma MultiplesOrder(a: int, b: int, d: nat)
    requires d > 0
    ensures a * d <= b * d ==> a <= b
    ensures (a - b) * d == a * d - b * d
  {
    if a > b {
      assert (a - b) * d > 0;
    }
  }

  /** A regular chain that stays a buffer away from the end of uint64, and a time not after its head. */
  ghost predicate RegularSearch(chain: seq<Header>, time: nat, height: nat, secondsPerBlock: nat) {
    && IsChain(chain) && secondsPerBlock > 0 && IsRegular(chain, secondsPerBlock)
    && height < |chain| < TWO_TO_THE_64
    && time <= chain[height].time < TWO_TO_THE_64 - Buffer(secondsPerBlock)
  }

  lemma RegularTimes(chain: seq<Header>, secondsPerBlock: nat, j: nat, k: nat)
    requires IsRegular(chain, secondsPerBlock) && j <= k < |chain|
    ensures chain[k].time == chain[j].time + (k - j) * secondsPerBlock
  {
  }

  lemma RegularEstimateIsPlain(chain: seq<Header>, time: nat, cursor: nat, height: nat, secondsPerBlock: nat)
    requires RegularSearch(chain, time, height, secondsPerBlock) && cursor <= height
    ensures Estimate(time, cursor, chain[cursor].time, height, secondsPerBlock)
            == PlainEstimate(time, cursor, chain[cursor].time, height, secondsPerBlock)
  {
    var cursorTime := chain[cursor].time;
    RegularTimes(chain, secondsPerBlock, cursor, height);
    if time > cursorTime {
      var blocks := Divide(time - cursorTime, secondsPerBlock);
      DivideAtMost(time - cursorTime, height - cursor, secondsPerBlock);
    }
    EstimateIsPlain(time, cursor, cursorTime, height, secondsPerBlock, Buffer(secondsPerBlock));
  }

  /** On a regular chain one step, forward or backward, lands less than one block time from the target,
      and the next step stops. */
  lemma EstimateLandsOnRegularChain(chain: seq<Header>, time: nat, cursor: nat, height: nat, secondsPerBlock: nat)
    requires RegularSearch(chain, time, height, secondsPerBlock) && cursor <= height
    ensures var g := Estimate(time, cursor, chain[cursor].time, height, secondsPerBlock);
            g.Goto? ==>
              && chain[g.block].time - secondsPerBlock < time < chain[g.block].time + secondsPerBlock
              && (time < chain[cursor].time ==> time <= chain[g.block].time)
              && Estimate(time, g.block, chain[g.block].time, height, secondsPerBlock) == Stop
  {
    RegularEstimateIsPlain(chain, time, cursor, height, secondsPerBlock);
    var g := Estimate(time, cursor, chain[cursor].time, height, secondsPerBlock);
    if g.Goto? {
      LandsClose(chain, time, cursor, height, secondsPerBlock, g.block);
      RegularEstimateIsPlain(chain, time, g.block, height, secondsPerBlock);
    }
  }

  lemma LandsClose(chain: seq<Header>, time: nat, cursor: nat, height: nat, secondsPerBlock: nat, block: nat)
    requires RegularSearch(chain, time, height, secondsPerBlock) && cursor <= height
    requires PlainEstimate(time, cursor, chain[cursor].time, height, secondsPerBlock) == Goto(block)
    ensures block <= height
    ensures chain[block].time - secondsPerBlock < time < chain[block].time + secondsPerBlock
    ensures time < chain[cursor].time ==> time <= chain[block].time
  {
    var cursorTime := chain[cursor].time;
    if time > cursorTime {
      RegularTimes(chain, secondsPerBlock, cursor, block);
      DivideLeaves(time - cursorTime, secondsPerBlock);
    } else {
      RegularTimes(chain, secondsPerBlock, block, cursor);
      DivideLeaves(cursorTime - time, secondsPerBlock);
    }
  }

  // ---------------------------------------------------------------- how many headers are looked up

  /** Where the interpolation ends, and how many headers it looked up on the way. */
  datatype Landing = Landing(block: nat, searches: nat)

  function Interpolate(chain: seq<Header>, time: nat, height: nat, secondsPerBlock: nat, cursor: nat, left: nat)
    : (l: Landing)
    requires secondsPerBlock > 0 && cursor <= height < |chain|
    ensures l.block <= height && l.searches <= left
    decreases left
  {
    if left == 0 then Landing(cursor, 0)
    else
      match Estimate(time, cursor, chain[cursor].time, height, secondsPerBlock)
      case Stop => Landing(cursor, 0)
      case Goto(block) =>
        var l := Interpolate(chain, time, height, secondsPerBlock, block, left - 1);
        Landing(l.block, l.searches + 1)
  }

  /** Headers the scan looks up: the blocks from the landing block to the target.  A forward scan that
      meets no block of exactly that time goes one too far and looks the target up again.  Without a
      target the scan passes block zero and the whole chain. */
  function ScanLookups(chain: seq<Header>, time: nat, landing: nat): nat
    requires landing < |chain|
  {
    if chain[0].time > time then landing + 1 + |chain|
    else
      var target := LatestAtOrBefore(chain, time, 0);
      Gap(landing, target) + (if chain[landing].time < time && chain[target].time < time then 3 else 1)
  }

  function Gap(a: nat, b: nat): nat {
    if a < b then b - a else a - b
  }

  function Lookups(chain: seq<Header>, time: nat, height: nat, secondsPerBlock: nat): nat
    requires secondsPerBlock > 0 && height < |chain|
  {
    var l := Interpolate(chain, time, height, secondsPerBlock, height, REPEATED_SEARCHES);
    l.searches + ScanLookups(chain, time, l.block)
  }

  lemma {:induction false} LatestIsTarget(chain: seq<Header>, time: nat, k: nat)
    requires k < |chain| && chain[k].time <= time
    ensures var target := LatestAtOrBefore(chain, time, k);
            && k <= target < |chain| && chain[target].time <= time
            && (target + 1 < |chain| ==> time < chain[target + 1].time)
    decreases |chain| - k
  {
    if k + 1 < |chain| && chain[k + 1].time <= time {
      LatestIsTarget(chain, time, k + 1);
    }
  }

  lemma {:induction false} PastOrAtTarget(chain: seq<Header>, time: nat, k: nat)
    requires IsChain(chain) && k < |chain| && chain[0].time <= time
    ensures var target := LatestAtOrBefore(chain, time, 0);
            && (chain[k].time > time <==> k > target)
            && (chain[k].time == time ==> k == target)
  {
    LatestIsTarget(chain, time, 0);
    var target := LatestAtOrBefore(chain, time, 0);
    if k <= target {
      InOrder(chain, k, target);
    } else {
      InOrder(chain, target + 1, k);
    }
  }

  /** Where a scan back from a later block ends at the latest: at the target, or at the magnitude past the
      head. */
  ghost function LastNeeded(chain: seq<Header>, time: nat): int
    requires chain != []
  {
    if chain[0].time > time then 0 - |chain| else LatestAtOrBefore(chain, time, 0)
  }

  lemma LastNeededBounds(chain: seq<Header>, time: nat, from: nat)
    requires IsChain(chain) && from < |chain| && chain[from].time > time
    ensures var last := LastNeeded(chain, time);
            && ScanLookups(chain, time, from) == from - last + 1 && last < from
            && (if chain[0].time > time then last == 0 - |chain|
                else last >= 0 && chain[last].time <= time < chain[last + 1].time)
  {
    if chain[0].time <= time {
      LatestIsTarget(chain, time, 0);
      PastOrAtTarget(chain, time, from);
    }
  }

  /** Going back, the block at a number's magnitude is at or before the time just at the target. */
  lemma BackStep(chain: seq<Header>, time: nat, bn: int)
    requires IsChain(chain) && chain != [] && LastNeeded(chain, time) <= bn < |chain|
    ensures var n := if bn < 0 then -bn else bn;
            n < |chain| ==> (chain[n].time <= time <==> chain[0].time <= time && bn == LastNeeded(chain, time))
  {
    if chain[0].time <= time {
      LatestIsTarget(chain, time, 0);
      PastOrAtTarget(chain, time, bn);
    } else if Distance(bn, 0) < |chain| {
      InOrder(chain, 0, Distance(bn, 0));
    }
  }

  /** What a scan forward from an earlier block comes to. */
  lemma {:induction false} ForwardScan(chain: seq<Header>, time: nat, from: nat)
    requires IsChain(chain) && from < |chain| && chain[from].time < time
    ensures var target := LatestAtOrBefore(chain, time, 0);
            && from <= target && chain[target].time <= time
            && (target + 1 < |chain| ==> time < chain[target + 1].time)
            && ScanLookups(chain, time, from) == target - from + (if chain[target].time < time then 3 else 1)
  {
    InOrder(chain, 0, from);
    LatestIsTarget(chain, time, 0);
    PastOrAtTarget(chain, time, from);
  }

  // ---------------------------------------------------------------- chains that are not regular

  /** The guard that ends the search as near enough, away from the ends of uint64. */
  ghost predicate InBuffer(time: nat, cursorTime: nat, secondsPerBlock: nat) {
    cursorTime <= time + Buffer(secondsPerBlock) && time <= cursorTime + Buffer(secondsPerBlock)
  }

  /** q times the time between consecutive blocks is at least lo and at most hi. */
  ghost predicate Spaced(chain: seq<Header>, q: nat, lo: int, hi: int) {
    forall k :: 0 <= k < |chain| - 1 ==> lo <= q * (chain[k + 1].time - chain[k].time) <= hi
  }

  lemma {:induction false} Apart(chain: seq<Header>, q: nat, lo: int, hi: int, j: nat, k: nat)
    requires Spaced(chain, q, lo, hi) && j <= k < |chain|
    ensures lo * (k - j) <= q * (chain[k].time - chain[j].time) <= hi * (k - j)
    decreases k - j
  {
    if j < k {
      Apart(chain, q, lo, hi, j, k - 1);
      Sums(q, lo, hi, chain[k - 1].time - chain[j].time, chain[k].time - chain[k - 1].time, k - 1 - j);
    }
  }

  lemma Sums(q: nat, lo: int, hi: int, x: int, y: int, n: int)
    requires lo * n <= q * x <= hi * n && lo <= q * y <= hi
    ensures lo * (n + 1) <= q * (x + y) <= hi * (n + 1)
  {
    assert q * (x + y) == q * x + q * y;
    assert lo * (n + 1) == lo * n + lo && hi * (n + 1) == hi * n + hi;
  }

  /** A search that ends within the buffer ends near the target: on a chain whose blocks are at least m
      apart, the blocks to scan forward take up no more than the buffer, and back no more but the last. */
  lemma {:induction false} NearInBuffer(chain: seq<Header>, time: nat, secondsPerBlock: nat, q: nat, m: nat, hi: int,
                                        landing: nat)
    requires IsChain(chain) && Spaced(chain, q, m, hi) && landing < |chain|
    requires chain[0].time <= time && InBuffer(time, chain[landing].time, secondsPerBlock)
    ensures var gap := Gap(landing, LatestAtOrBefore(chain, time, 0));
            if chain[landing].time <= time then m * gap <= q * Buffer(secondsPerBlock)
            else gap > 0 && m * (gap - 1) <= q * (Buffer(secondsPerBlock) - 1)
  {
    var target, at := LatestAtOrBefore(chain, time, 0), chain[landing].time;
    LatestIsTarget(chain, time, 0);
    PastOrAtTarget(chain, time, landing);
    if at <= time {
      Apart(chain, q, m, hi, landing, target);
      Scale(q, chain[target].time - at, Buffer(secondsPerBlock));
    } else {
      Apart(chain, q, m, hi, target + 1, landing);
      Scale(q, at - chain[target + 1].time, Buffer(secondsPerBlock) - 1);
    }
  }

  lemma Scale(q: nat, x: int, y: int)
    requires x <= y
    ensures q * x <= q * y
  {
  }

  lemma {:induction false} EndsAtStop(chain: seq<Header>, time: nat, height: nat, secondsPerBlock: nat, cursor: nat,
                                      left: nat)
    requires secondsPerBlock > 0 && cursor <= height < |chain|
    ensures var l := Interpolate(chain, time, height, secondsPerBlock, cursor, left);
            l.searches < left ==> Estimate(time, l.block, chain[l.block].time, height, secondsPerBlock) == Stop
    decreases left
  {
    if left > 0 {
      match Estimate(time, cursor, chain[cursor].time, height, secondsPerBlock)
      case Stop =>
      case Goto(block) => EndsAtStop(chain, time, height, secondsPerBlock, block, left - 1);
    }
  }

  /** Any chain, and a time within it, that stay a buffer away from the end of uint64. */
  ghost predicate PlainSearch(chain: seq<Header>, time: nat, height: nat, secondsPerBlock: nat) {
    && IsChain(chain) && secondsPerBlock > 0 && height < |chain| < TWO_TO_THE_64
    && chain[0].time <= time <= chain[height].time < TWO_TO_THE_64 - Buffer(secondsPerBlock)
  }

  /** The two guards that end the search for an estimate out of range. */
  ghost predicate OutOfRange(time: nat, cursor: nat, cursorTime: nat, height: nat, secondsPerBlock: nat)
    requires secondsPerBlock > 0
  {
    || (time > cursorTime && cursor + Divide(time - cursorTime, secondsPerBlock) > height)
    || (time < cursorTime && Divide(cursorTime - time, secondsPerBlock) >= cursor)
  }

  lemma StopsForAReason(chain: seq<Header>, time: nat, cursor: nat, height: nat, secondsPerBlock: nat)
    requires PlainSearch(chain, time, height, secondsPerBlock) && cursor <= height
    ensures var cursorTime := chain[cursor].time;
            Estimate(time, cursor, cursorTime, height, secondsPerBlock) == Stop ==>
              || InBuffer(time, cursorTime, secondsPerBlock)
              || OutOfRange(time, cursor, cursorTime, height, secondsPerBlock)
  {
    var cursorTime := chain[cursor].time;
    InOrder(chain, cursor, height);
    if !OutOfRange(time, cursor, cursorTime, height, secondsPerBlock) {
      EstimateIsPlain(time, cursor, cursorTime, height, secondsPerBlock, Buffer(secondsPerBlock));
    }
  }

  /** The scan after a search that ended within the buffer, blocks being more than a ninth of it apart. */
  lemma BufferStopIsCheap(chain: seq<Header>, time: nat, secondsPerBlock: nat, m: nat, hi: int, landing: nat)
    requires IsChain(chain) && Spaced(chain, 1, m, hi) && Buffer(secondsPerBlock) < 9 * m && landing < |chain|
    requires chain[0].time <= time && InBuffer(time, chain[landing].time, secondsPerBlock)
    ensures ScanLookups(chain, time, landing) <= 11
  {
    var gap := Gap(landing, LatestAtOrBefore(chain, time, 0));
    NearInBuffer(chain, time, secondsPerBlock, 1, m, hi, landing);
    if chain[landing].time <= time {
      FewerThan(m, gap, 9);
    } else {
      FewerThan(m, gap - 1, 9);
    }
  }

  lemma FewerThan(m: nat, n: int, bound: nat)
    requires m * n < bound * m
    ensures n < bound
  {
    if n >= bound { Scale(m, bound, n); }
  }

  /** On every chain whose blocks are more than a ninth of the buffer apart, the documented worst case of
      2 * REPEATED_SEARCHES calls can only be exceeded by a search that used up its rounds or was cut
      short by an estimate out of range. */
  lemma {:induction false} ExceededOnlyByGuard(chain: seq<Header>, time: nat, height: nat, secondsPerBlock: nat,
                                               m: nat, hi: int)
    requires PlainSearch(chain, time, height, secondsPerBlock)
    requires Spaced(chain, 1, m, hi) && Buffer(secondsPerBlock) < 9 * m
    requires Lookups(chain, time, height, secondsPerBlock) > 2 * REPEATED_SEARCHES
    ensures var l := Interpolate(chain, time, height, secondsPerBlock, height, REPEATED_SEARCHES);
            l.searches == REPEATED_SEARCHES || OutOfRange(time, l.block, chain[l.block].time, height, secondsPerBlock)
  {
    var l := Interpolate(chain, time, height, secondsPerBlock, height, REPEATED_SEARCHES);
    EndsAtStop(chain, time, height, secondsPerBlock, height, REPEATED_SEARCHES);
    StopsForAReason(chain, time, l.block, height, secondsPerBlock);
    if InBuffer(time, chain[l.block].time, secondsPerBlock) {
      BufferStopIsCheap(chain, time, secondsPerBlock, m, hi, l.block);
    }
  }

  /** An estimate before block zero is expensive: on a chain whose blocks are at most hi / q apart, the scan
      from block c then takes at least c * secondsPerBlock * q / hi lookups. */
  lemma {:induction false} OutOfRangeIsFar(chain: seq<Header>, time: nat, secondsPerBlock: nat, q: nat, lo: int,
                                           hi: nat, c: nat)
    requires IsChain(chain) && secondsPerBlock > 0 && c < |chain| && Spaced(chain, q, lo, hi)
    requires chain[0].time <= time < chain[c].time && Divide(chain[c].time - time, secondsPerBlock) >= c
    ensures q * (secondsPerBlock * c) <= hi * ScanLookups(chain, time, c)
  {
    var target := LatestAtOrBefore(chain, time, 0);
    LatestIsTarget(chain, time, 0);
    PastOrAtTarget(chain, time, c);
    MultipleOf(c, chain[c].time - time, secondsPerBlock);
    Scale(q, secondsPerBlock * c, chain[c].time - chain[target].time);
    Apart(chain, q, lo, hi, target, c);
    Scale(hi, c - target, ScanLookups(chain, time, c));
  }

  lemma MultipleOf(n: nat, x: nat, d: nat)
    requires d > 0 && n <= Divide(x, d)
    ensures d * n <= x
  {
    DivideLeaves(x, d);
    Scale(d, n, Divide(x, d));
  }

  /** Consecutive blocks differ from secondsPerBlock by at most its q-th part. */
  ghost predicate NearRegular(chain: seq<Header>, secondsPerBlock: nat, q: nat) {
    Spaced(chain, q, (q - 1) * secondsPerBlock, (q + 1) * secondsPerBlock)
  }

  function Distance(x: int, y: int): nat {
    if x < y then y - x else x - y
  }

  lemma Contraction(q: nat, e: int, x: int, d: nat, moved: int)
    requires q >= 1 && x <= e < x + d && (q - 1) * x <= moved <= (q + 1) * x
    ensures q * e - moved <= e + (q - 1) * d && moved - q * e <= e
  {
    Scale(q - 1, e - d, x);
    Scale(q + 1, x, e);
    assert (q - 1) * (e - d) == q * e - e - (q - 1) * d;
    assert (q + 1) * e == q * e + e;
  }

  lemma Reorder(a: int, d: int, n: int)
    ensures a * d * n == a * (d * n)
  {
  }

  /** A step of as many blocks as fit into the distance e, whose times add up to `moved`. */
  lemma StepLeaves(q: nat, e: nat, d: nat, moved: int)
    requires q >= 1 && d > 0
    requires (q - 1) * d * Divide(e, d) <= q * moved <= (q + 1) * d * Divide(e, d)
    ensures q * Distance(moved, e) <= e + (q - 1) * d
  {
    var blocks := Divide(e, d);
    DivideLeaves(e, d);
    Reorder(q - 1, d, blocks);
    Reorder(q + 1, d, blocks);
    Contraction(q, e, d * blocks, d, q * moved);
    assert q * (e - moved) == q * e - q * moved && q * (moved - e) == q * moved - q * e;
    assert (q - 1) * d >= 0;
  }

  /** On a near-regular chain a step leaves the q-th part of the distance, and less than a block time more. */
  lemma StepContracts(chain: seq<Header>, time: nat, cursor: nat, height: nat, secondsPerBlock: nat, q: nat, block: nat)
    requires IsChain(chain) && secondsPerBlock > 0 && q >= 1 && NearRegular(chain, secondsPerBlock, q)
    requires cursor <= height < |chain|
    requires PlainEstimate(time, cursor, chain[cursor].time, height, secondsPerBlock) == Goto(block)
    ensures block <= height
    ensures q * Distance(chain[block].time, time) <= Distance(chain[cursor].time, time) + (q - 1) * secondsPerBlock
  {
    var lo, hi := (q - 1) * secondsPerBlock, (q + 1) * secondsPerBlock;
    var e := Distance(chain[cursor].time, time);
    if time > chain[cursor].time {
      Apart(chain, q, lo, hi, cursor, block);
      StepLeaves(q, e, secondsPerBlock, chain[block].time - chain[cursor].time);
    } else {
      Apart(chain, q, lo, hi, block, cursor);
      StepLeaves(q, e, secondsPerBlock, chain[cursor].time - chain[block].time);
    }
  }

  lemma BackEstimateFits(q: nat, d: nat, c: nat, height: nat, e: nat, since: nat)
    requires d > 0 && c <= height && q * (e + since) <= (q + 1) * d * c && q * since > d * height
    ensures Divide(e, d) < c
  {
    Scale(d, c, height);
    Reorder(q + 1, d, c);
    assert (q + 1) * (d * c) == q * (d * c) + d * c;
    assert q * (e + since) == q * e + q * since;
    if Divide(e, d) >= c {
      MultipleOf(c, e, d);
      Scale(q, d * c, e);
    }
  }

  lemma ForwardEstimateFits(q: nat, d: nat, n: nat, e: nat, ahead: nat)
    requires d > 0 && q >= 1 && q * (ahead + e) <= (q + 1) * d * n && e <= ahead + d
    ensures Divide(e, d) <= n
  {
    Reorder(q + 1, d, n);
    assert (q + 1) * (e - d) == q * e + e - q * d - d;
    assert q * (ahead + e) == q * ahead + q * e;
    Scale(ahead, 1, q);
    Scale(d, 1, q);
    assert d * (n + 1) == d * n + d;
    if Divide(e, d) >= n + 1 {
      MultipleOf(n + 1, e, d);
      Scale(q + 1, d * n, e - d);
    }
  }

  /** A near-regular chain, and a time more than a q-th part of its height in block times after block zero. */
  ghost predicate NearRegularSearch(chain: seq<Header>, time: nat, height: nat, secondsPerBlock: nat, q: nat) {
    && PlainSearch(chain, time, height, secondsPerBlock) && q >= 2 && NearRegular(chain, secondsPerBlock, q)
    && q * (time - chain[0].time) > secondsPerBlock * height
  }

  /** While the cursor is no further from the target than the head, and a block time, no estimate is out of
      range. */
  lemma EstimateStaysInRange(chain: seq<Header>, time: nat, cursor: nat, height: nat, secondsPerBlock: nat, q: nat)
    requires NearRegularSearch(chain, time, height, secondsPerBlock, q) && cursor <= height
    requires Distance(chain[cursor].time, time) <= chain[height].time - time + secondsPerBlock
    ensures !OutOfRange(time, cursor, chain[cursor].time, height, secondsPerBlock)
  {
    var lo, hi, cursorTime := (q - 1) * secondsPerBlock, (q + 1) * secondsPerBlock, chain[cursor].time;
    if time > cursorTime {
      Apart(chain, q, lo, hi, cursor, height);
      ForwardEstimateFits(q, secondsPerBlock, height - cursor, time - cursorTime, chain[height].time - time);
    } else if time < cursorTime {
      Apart(chain, q, lo, hi, 0, cursor);
      BackEstimateFits(q, secondsPerBlock, cursor, height, cursorTime - time, time - chain[0].time);
    }
  }

  /** The distance from which k steps bring the cursor into the buffer. */
  function Reach(q: nat, k: nat, secondsPerBlock: nat): (r: int)
    requires q >= 1
    ensures r >= Buffer(secondsPerBlock)
  {
    if k == 0 then Buffer(secondsPerBlock)
    else
      var nearer := Reach(q, k - 1, secondsPerBlock) - secondsPerBlock;
      assert q * nearer >= nearer;
      q * nearer + secondsPerBlock
  }

  function Power(q: nat, k: nat): nat {
    if k == 0 then 1 else q * Power(q, k - 1)
  }

  /** It grows like the powers of q. */
  lemma {:induction false} ReachIsPower(q: nat, k: nat, secondsPerBlock: nat)
    requires q >= 1
    ensures Reach(q, k, secondsPerBlock) == secondsPerBlock + 4 * secondsPerBlock * Power(q, k)
  {
    if k > 0 {
      ReachIsPower(q, k - 1, secondsPerBlock);
      Swap(q, 4 * secondsPerBlock, Power(q, k - 1));
    }
  }

  lemma Swap(q: int, a: int, p: int)
    ensures q * (a * p) == a * (q * p)
  {
  }

  lemma OneStepCloser(q: nat, k: nat, d: nat, e: nat, left: nat, bound: nat)
    requires q >= 1 && k > 0 && q * left <= e + (q - 1) * d && e <= Reach(q, k, d) && e <= bound + d
    ensures left <= Reach(q, k - 1, d) && left <= bound + d
  {
    var r := Reach(q, k - 1, d);
    assert q * (r - d) == q * r - q * d && q * d == (q - 1) * d + d;
    AtMost(q, left, r);
    assert q * (bound + d) == q * bound + q * d;
    Scale(bound, 1, q);
    AtMost(q, left, bound + d);
  }

  lemma AtMost(q: nat, x: int, y: int)
    requires q >= 1 && q * x <= q * y
    ensures x <= y
  {
    assert q * (y + 1) == q * y + q;
    if x > y {
      Scale(q, y + 1, x);
    }
  }

  /** On a near-regular chain the search ends within the buffer, after no more steps than the distance calls
      for. */
  lemma {:induction false} EndsInBuffer(chain: seq<Header>, time: nat, cursor: nat, height: nat, secondsPerBlock: nat,
                                        q: nat, k: nat, left: nat)
    requires NearRegularSearch(chain, time, height, secondsPerBlock, q) && cursor <= height && k < left
    requires Distance(chain[cursor].time, time) <= chain[height].time - time + secondsPerBlock
    requires Distance(chain[cursor].time, time) <= Reach(q, k, secondsPerBlock)
    ensures var l := Interpolate(chain, time, height, secondsPerBlock, cursor, left);
            l.searches <= k && InBuffer(time, chain[l.block].time, secondsPerBlock)
    decreases k
  {
    NextCursor(chain, time, cursor, height, secondsPerBlock, q);
    if !InBuffer(time, chain[cursor].time, secondsPerBlock) {
      var block := Estimate(time, cursor, chain[cursor].time, height, secondsPerBlock).block;
      var e, e' := Distance(chain[cursor].time, time), Distance(chain[block].time, time);
      OneStepCloser(q, k, secondsPerBlock, e, e', chain[height].time - time);
      EndsInBuffer(chain, time, block, height, secondsPerBlock, q, k - 1, left - 1);
    }
  }

  /** What one step of the search does there. */
  lemma NextCursor(chain: seq<Header>, time: nat, cursor: nat, height: nat, secondsPerBlock: nat, q: nat)
    requires NearRegularSearch(chain, time, height, secondsPerBlock, q) && cursor <= height
    requires Distance(chain[cursor].time, time) <= chain[height].time - time + secondsPerBlock
    ensures var g := Estimate(time, cursor, chain[cursor].time, height, secondsPerBlock);
            if InBuffer(time, chain[cursor].time, secondsPerBlock) then g == Stop
            else
              && g.Goto?
              && q * Distance(chain[g.block].time, time)
                 <= Distance(chain[cursor].time, time) + (q - 1) * secondsPerBlock
  {
    EstimateStaysInRange(chain, time, cursor, height, secondsPerBlock, q);
    InOrder(chain, cursor, height);
    EstimateIsPlain(time, cursor, chain[cursor].time, height, secondsPerBlock, Buffer(secondsPerBlock));
    if !InBuffer(time, chain[cursor].time, secondsPerBlock) {
      var block := PlainEstimate(time, cursor, chain[cursor].time, height, secondsPerBlock).block;
      StepContracts(chain, time, cursor, height, secondsPerBlock, q, block);
    }
  }

  lemma HalfApart(gap: int, q: nat, d: nat, bound: int)
    requires q >= 2 && (q - 1) * d * gap <= q * bound && gap >= 0 && bound >= 0
    ensures d * gap <= 2 * bound
  {
    Reorder(q - 1, d, gap);
    assert d * gap >= 0;
    Scale(d * gap, q, 2 * (q - 1));
    assert 2 * ((q - 1) * (d * gap)) == (d * gap) * (2 * (q - 1));
    assert (2 * bound + 1) * q == 2 * (q * bound) + q;
    FewerThan(q, d * gap, 2 * bound + 1);
  }

  /** A search that ended within the buffer, blocks being at least half a block time apart. */
  lemma {:induction false} NearRegularGap(chain: seq<Header>, time: nat, secondsPerBlock: nat, q: nat, landing: nat)
    requires IsChain(chain) && secondsPerBlock > 0 && q >= 2 && NearRegular(chain, secondsPerBlock, q)
    requires landing < |chain| && chain[0].time <= time && InBuffer(time, chain[landing].time, secondsPerBlock)
    ensures Gap(landing, LatestAtOrBefore(chain, time, 0)) <= 10
  {
    var gap := Gap(landing, LatestAtOrBefore(chain, time, 0));
    NearInBuffer(chain, time, secondsPerBlock, q, (q - 1) * secondsPerBlock, (q + 1) * secondsPerBlock, landing);
    if chain[landing].time <= time {
      TenBlocks(gap, q, secondsPerBlock, Buffer(secondsPerBlock));
    } else {
      TenBlocks(gap - 1, q, secondsPerBlock, Buffer(secondsPerBlock) - 1);
    }
  }

  lemma TenBlocks(n: int, q: nat, d: nat, bound: nat)
    requires q >= 2 && d > 0 && n >= 0 && (q - 1) * d * n <= q * bound && bound <= Buffer(d)
    ensures if bound == Buffer(d) then n <= 10 else n <= 9
  {
    HalfApart(n, q, d, bound);
    FewerThan(d, n, if bound == Buffer(d) then 11 else 10);
  }

  /** The documented worst case is met on every chain whose block times differ from secondsPerBlock by at
      most a q-th part, q being two or more, for every time more than a q-th part of the height in block
      times after block zero, and within 4 * q^7 block times and one of the head (`ReachIsPower`). */
  lemma {:induction false} NearRegularWithinBound(chain: seq<Header>, time: nat, height: nat, secondsPerBlock: nat,
                                                  q: nat)
    requires NearRegularSearch(chain, time, height, secondsPerBlock, q)
    requires chain[height].time - time <= Reach(q, 7, secondsPerBlock)
    ensures Lookups(chain, time, height, secondsPerBlock) <= 2 * REPEATED_SEARCHES
  {
    EndsInBuffer(chain, time, height, height, secondsPerBlock, q, 7, REPEATED_SEARCHES);
    var l := Interpolate(chain, time, height, secondsPerBlock, height, REPEATED_SEARCHES);
    NearRegularGap(chain, time, secondsPerBlock, q, l.block);
  }

  /** And it is exceeded on every such chain of more than thirty blocks, whenever the first estimate falls
      before block one. */
  lemma {:induction false} EarlyTimeExceedsBound(chain: seq<Header>, time: nat, height: nat, secondsPerBlock: nat,
                                                 q: nat)
    requires PlainSearch(chain, time, height, secondsPerBlock) && q >= 2 && NearRegular(chain, secondsPerBlock, q)
    requires height > 30 && Divide(chain[height].time - time, secondsPerBlock) >= height
    ensures Lookups(chain, time, height, secondsPerBlock) > 2 * REPEATED_SEARCHES
  {
    var head := chain[height].time;
    MultipleOf(height, head - time, secondsPerBlock);
    Scale(secondsPerBlock, 31, height);
    EstimateIsPlain(time, height, head, height, secondsPerBlock, Buffer(secondsPerBlock));
    var lookups := ScanLookups(chain, time, height);
    OutOfRangeIsFar(chain, time, secondsPerBlock, q, (q - 1) * secondsPerBlock, (q + 1) * secondsPerBlock, height);
    ManyBlocks(q, secondsPerBlock, height, lookups);
  }

  lemma ManyBlocks(q: nat, d: nat, n: nat, lookups: nat)
    requires q >= 2 && d > 0 && n > 30 && q * (d * n) <= (q + 1) * d * lookups
    ensures lookups > 20
  {
    if lookups <= 20 {
      Scale((q + 1) * d, lookups, 20);
      Scale(q, d * 31, d * n);
      Scale(d, 31, n);
      assert q * (d * 31) == 31 * (q * d) && (q + 1) * d * 20 == 20 * (q * d) + 20 * d;
      Scale(d, 2, q);
    }
  }

  lemma {:induction false} RegularTarget(chain: seq<Header>, time: nat, height: nat, secondsPerBlock: nat)
    requires RegularSearch(chain, time, height, secondsPerBlock) && chain[0].time <= time
    ensures var target := LatestAtOrBefore(chain, time, 0);
            target <= height && chain[target].time <= time < chain[target].time + secondsPerBlock
  {
    LatestIsTarget(chain, time, 0);
    PastOrAtTarget(chain, time, height);
    var target := LatestAtOrBefore(chain, time, 0);
    if target + 1 < |chain| {
      RegularTimes(chain, secondsPerBlock, target, target + 1);
    }
  }

  /** On a regular chain no more than six headers are looked up, whatever the length of the chain,
      except for the time of block zero itself: then the whole chain is scanned. */
  lemma RegularChainLookups(chain: seq<Header>, time: nat, height: nat, secondsPerBlock: nat)
    requires RegularSearch(chain, time, height, secondsPerBlock) && chain[0].time <= time
    ensures var lookups := Lookups(chain, time, height, secondsPerBlock);
            if time == chain[0].time && height > SEARCH_THRESHOLD then lookups == height + 1 else lookups <= 6
    ensures Lookups(chain, time, height, secondsPerBlock) <= 2 * REPEATED_SEARCHES <==>
            time != chain[0].time || height < 2 * REPEATED_SEARCHES
  {
    var g := Estimate(time, height, chain[height].time, height, secondsPerBlock);
    if g.Goto? {
      RegularLanding(chain, time, height, secondsPerBlock, g.block);
    } else if time + Buffer(secondsPerBlock) < chain[height].time {
      StopsFarFromTarget(chain, time, height, secondsPerBlock);
    } else {
      StopsNearTarget(chain, time, height, secondsPerBlock);
    }
  }

  lemma StopsFarFromTarget(chain: seq<Header>, time: nat, height: nat, secondsPerBlock: nat)
    requires RegularSearch(chain, time, height, secondsPerBlock) && chain[0].time <= time
    requires Estimate(time, height, chain[height].time, height, secondsPerBlock) == Stop
    requires time + Buffer(secondsPerBlock) < chain[height].time
    ensures Lookups(chain, time, height, secondsPerBlock) == height + 1
    ensures time == chain[0].time && height > SEARCH_THRESHOLD
  {
    RegularEstimateIsPlain(chain, time, height, height, secondsPerBlock);
    RegularTimes(chain, secondsPerBlock, 0, height);
    WholeGap(chain[height].time - time, height, secondsPerBlock);
    LatestIsUnique(chain, time, 0, 0);
  }

  lemma WholeGap(gap: nat, blocks: nat, secondsPerBlock: nat)
    requires secondsPerBlock > 0 && Divide(gap, secondsPerBlock) >= blocks
    requires Buffer(secondsPerBlock) < gap <= blocks * secondsPerBlock
    ensures gap == blocks * secondsPerBlock && blocks > SEARCH_THRESHOLD
  {
    DivideLeaves(gap, secondsPerBlock);
    MultiplesOrder(Divide(gap, secondsPerBlock), blocks, secondsPerBlock);
    MultiplesOrder(blocks, SEARCH_THRESHOLD, secondsPerBlock);
  }

  lemma StopsNearTarget(chain: seq<Header>, time: nat, height: nat, secondsPerBlock: nat)
    requires RegularSearch(chain, time, height, secondsPerBlock) && chain[0].time <= time
    requires Estimate(time, height, chain[height].time, height, secondsPerBlock) == Stop
    requires time + Buffer(secondsPerBlock) >= chain[height].time
    ensures Lookups(chain, time, height, secondsPerBlock) <= 6
    ensures time == chain[0].time ==> height <= SEARCH_THRESHOLD
  {
    var target := LatestAtOrBefore(chain, time, 0);
    RegularTarget(chain, time, height, secondsPerBlock);
    RegularTimes(chain, secondsPerBlock, target, height);
    FewBlocks(height - target, secondsPerBlock, time - chain[target].time);
    if time == chain[0].time {
      LatestIsUnique(chain, time, 0, 0);
    }
  }

  lemma FewBlocks(blocks: nat, secondsPerBlock: nat, rest: int)
    requires blocks * secondsPerBlock <= rest + Buffer(secondsPerBlock) && rest < secondsPerBlock
    ensures blocks <= SEARCH_THRESHOLD
  {
    if blocks > SEARCH_THRESHOLD {
      MultiplesOrder(blocks, SEARCH_THRESHOLD + 1, secondsPerBlock);
    }
  }

  lemma RegularLanding(chain: seq<Header>, time: nat, height: nat, secondsPerBlock: nat, landing: nat)
    requires RegularSearch(chain, time, height, secondsPerBlock) && chain[0].time <= time
    requires Estimate(time, height, chain[height].time, height, secondsPerBlock) == Goto(landing)
    ensures Lookups(chain, time, height, secondsPerBlock) <= 3 && time != chain[0].time
  {
    EstimateLandsOnRegularChain(chain, time, height, height, secondsPerBlock);
    RegularEstimateIsPlain(chain, time, height, height, secondsPerBlock);
    RegularTimes(chain, secondsPerBlock, 0, height);
    DivideLeaves(chain[height].time - time, secondsPerBlock);
    MultiplesOrder(height, Divide(chain[height].time - time, secondsPerBlock), secondsPerBlock);
    LandsBesideTarget(chain, time, height, secondsPerBlock, landing);
    assert Interpolate(chain, time, height, secondsPerBlock, landing, REPEATED_SEARCHES - 1) == Landing(landing, 0);
  }

  lemma LandsBesideTarget(chain: seq<Header>, time: nat, height: nat, secondsPerBlock: nat, landing: nat)
    requires RegularSearch(chain, time, height, secondsPerBlock) && chain[0].time <= time
    requires 0 < landing <= height && time <= chain[landing].time < time + secondsPerBlock
    ensures ScanLookups(chain, time, landing) <= 2
  {
    RegularTimes(chain, secondsPerBlock, landing - 1, landing);
    if landing + 1 < |chain| {
      RegularTimes(chain, secondsPerBlock, landing, landing + 1);
    }
    LatestIsUnique(chain, time, 0, if chain[landing].time == time then landing else landing - 1);
  }

  lemma TailMembers(q: seq<nat>)
    requires q != [] && NoDuplicates(q)
    ensures forall n :: n in q[1..] <==> n in q && n != q[0]
  {
    assert q == [q[0]] + q[1..];
  }

  class Eth1Service {
    /** The execution chain, as the provider serves it, and the secondsPerBlock the estimate uses. */
    const chain: seq<Header>
    const secondsPerBlock: nat
    /** The head this service knows, not necessarily the provider's latest block. */
    const latestHeight: nat
    const latestTime: nat
    /** The headers held, and their numbers in the order they were added. */
    var headerCache: map<nat, Header>
    var queue: seq<nat>
    const maxCacheSize: nat

    ghost predicate ChainOk() {
      && IsChain(chain) && |chain| < TWO_TO_THE_64
      && 0 < secondsPerBlock < TWO_TO_THE_64
      && latestHeight < |chain| && latestTime == chain[latestHeight].time
    }

    ghost predicate Valid()
      reads this
    {
      && ChainOk()
      && (forall n :: n in headerCache ==> n < |chain| && headerCache[n] == chain[n])
      && (forall n :: n in headerCache <==> n in queue)
      && NoDuplicates(queue) && |queue| <= maxCacheSize
    }

    constructor (chain: seq<Header>, secondsPerBlock: nat, latestHeight: nat, maxCacheSize: nat)
      requires IsChain(chain) && |chain| < TWO_TO_THE_64
      requires 0 < secondsPerBlock < TWO_TO_THE_64 && latestHeight < |chain|
      ensures Valid() && headerCache == map[]
      ensures this.chain == chain && this.latestHeight == latestHeight && this.secondsPerBlock == secondsPerBlock
    {
      this.chain, this.secondsPerBlock, this.latestHeight := chain, secondsPerBlock, latestHeight;
      this.latestTime := chain[latestHeight].time;
      this.maxCacheSize := maxCacheSize;
      headerCache, queue := map[], [];
    }

    /** Keeps the header, in place of the one kept longest when the cache is full. */
    method AddHeader(h: Header)
      requires Valid() && h.number < |chain| && h == chain[h.number]
      modifies this`headerCache, this`queue
      ensures Valid()
      ensures headerCache.Keys <= old(headerCache).Keys + {h.number}
      ensures |old(queue)| < maxCacheSize ==> headerCache.Keys == old(headerCache).Keys + {h.number}
      ensures var added := old(queue) + [h.number];
              queue == if h.number in old(queue) then old(queue)
                       else if |added| <= maxCacheSize then added else added[1..]
    {
      if h.number in headerCache {
        return;
      }
      headerCache, queue := headerCache[h.number := h], queue + [h.number];
      if |queue| > maxCacheSize {
        TailMembers(queue);
        headerCache, queue := headerCache - {queue[0]}, queue[1..];
      }
    }

    /** A header from the cache, or from the provider, which may be down for some requests. */
    method RetrieveHeaderInfo(n: nat, down: set<nat>) returns (r: Result, ghost requests: nat)
      requires Valid()
      modifies this`headerCache, this`queue
      ensures Valid() && headerCache.Keys <= old(headerCache).Keys + {n}
      ensures r.Ok? || r.HeaderUnavailable?
      ensures r.Ok? ==> n < |chain| && r.header == chain[n]
      ensures r.HeaderUnavailable? <==> n !in old(headerCache) && (n >= |chain| || n in down)
      ensures requests == if n in old(headerCache) then 0 else 1
    {
      if n in headerCache {
        return Ok(headerCache[n]), 0;
      }
      if n >= |chain| || n in down {
        return HeaderUnavailable, 1;
      }
      AddHeader(chain[n]);
      return Ok(chain[n]), 1;
    }

    /** Every cached header is of a block after the given one. */
    ghost predicate AllAbove(bn: int)
      reads this`headerCache
    {
      forall k :: k in headerCache ==> bn < k
    }

    /** One lookup of a scan: going down from an empty cache, each asks the provider. */
    method Lookup(n: nat, down: set<nat>) returns (r: Result, ghost requests: nat)
      requires Valid()
      modifies this`headerCache, this`queue
      ensures Valid() && (r.Ok? || r.HeaderUnavailable?) && requests <= 1
      ensures r.Ok? ==> n < |chain| && r.header == chain[n]
      ensures r.HeaderUnavailable? ==> n >= |chain| || n in down
      ensures old(AllAbove(n)) ==> requests == 1 && AllAbove(n - 1)
    {
      r, requests := RetrieveHeaderInfo(n, down);
    }

    /** The unique latest block at or before the time. */
    ghost predicate IsTarget(h: Header, time: nat) {
      && h.number < |chain|
      && h == chain[h.number]
      && h.time <= time
      && (h.number + 1 < |chain| ==> time < chain[h.number + 1].time)
    }

    /** Scans towards earlier blocks.  Below block zero the number turns negative and its magnitude is
        looked up, so the scan climbs again and ends past the head. */
    method FindMaxTargetEth1Block(upperBound: nat, time: nat, down: set<nat>, steps: nat)
      returns (r: Result, ghost lookups: nat, ghost requests: nat)
      requires Valid() && upperBound < |chain| && chain[upperBound].time > time
      modifies this`headerCache, this`queue
      ensures Valid()
      ensures r.Ok? ==> IsTarget(r.header, time) && r.header.number <= upperBound
      ensures chain[0].time > time ==> !r.Ok?
      ensures r.HeaderUnavailable? ==> down != {} || chain[0].time > time
      ensures r.Cancelled? ==> steps <= 2 * |chain| && lookups == steps
      ensures !r.TimeTooLate? && lookups <= steps
      ensures r.Ok? ==> lookups == upperBound - r.header.number + 1
      ensures r.HeaderUnavailable? && down == {} ==> lookups == upperBound + 1 + |chain|
      ensures lookups <= ScanLookups(chain, time, upperBound)
      ensures requests <= lookups && (r.Ok? && old(headerCache) == map[] ==> requests == lookups)
    {
      var bn: int := upperBound;
      ghost var last := LastNeeded(chain, time);
      LastNeededBounds(chain, time, upperBound);
      var n := 0;
      lookups, requests := 0, 0;
      while true
        invariant Valid() && lookups == n == upperBound - bn && requests <= lookups && n <= steps
        invariant last <= bn <= upperBound
        invariant old(headerCache) == map[] && bn >= 0 ==> requests == lookups && AllAbove(bn)
        decreases bn + |chain|
      {
        if n >= steps {
          return Cancelled, lookups, requests;
        }
        Magnitude(bn);
        BackStep(chain, time, bn);
        ghost var asked;
        r, asked := Lookup(Uint64(bn), down);
        lookups, requests := lookups + 1, requests + asked;
        if !r.Ok? || r.header.time <= time {
          return;
        }
        bn := bn - 1;
        n := n + 1;
      }
    }

    /** Scans towards later blocks. */
    method FindMinTargetEth1Block(lowerBound: nat, time: nat, down: set<nat>, steps: nat)
      returns (r: Result, ghost lookups: nat, ghost requests: nat)
      requires Valid() && lowerBound <= latestHeight && chain[lowerBound].time < time <= latestTime
      modifies this`headerCache, this`queue
      ensures Valid()
      ensures r.Ok? ==> IsTarget(r.header, time) && lowerBound <= r.header.number
      ensures r.HeaderUnavailable? ==> down != {}
      ensures r.Cancelled? ==> steps <= |chain| && lookups == steps
      ensures !r.TimeTooLate? && lookups <= steps + 1
      ensures r.Ok? ==> lookups == r.header.number - lowerBound + (if r.header.time < time then 3 else 1)
      ensures lookups <= ScanLookups(chain, time, lowerBound)
      ensures requests <= lookups
    {
      var bn := lowerBound;
      ghost var target := LatestAtOrBefore(chain, time, 0);
      ForwardScan(chain, time, lowerBound);
      var n := 0;
      lookups, requests := 0, 0;
      while true
        invariant Valid() && lowerBound <= bn <= latestHeight && lookups == n == bn - lowerBound
        invariant requests <= lookups <= steps
        invariant bn <= target + 1 && (chain[target].time == time ==> bn <= target)
        decreases latestHeight - bn
      {
        if n >= steps {
          return Cancelled, lookups, requests;
        }
        Magnitude(bn);
        PastOrAtTarget(chain, time, bn);
        ghost var asked;
        r, asked := Lookup(Uint64(bn), down);
        lookups, requests := lookups + 1, requests + asked;
        if !r.Ok? {
          return;
        }
        if r.header.time > time {
          r, asked := Lookup(r.header.number - 1, down);
          lookups, requests := lookups + 1, requests + asked;
          return;
        }
        if r.header.time == time {
          return;
        }
        bn := bn + 1;
        n := n + 1;
      }
    }

    ghost function TheLanding(time: nat): Landing
      reads this
      requires Valid()
    {
      Interpolate(chain, time, latestHeight, secondsPerBlock, latestHeight, REPEATED_SEARCHES)
    }

    /** For every time, on every such chain: an error when the time is after the known head, and
        otherwise, unless a request fails or the context is cancelled, the unique latest block at or
        before the time.  There is such a block exactly when the first block is not after the time;
        when there is none the call ends in an error.  `down` are the requests the provider fails,
        `steps` how many rounds each loop gets before the context is cancelled.  `lookups` are the
        headers looked up, `requests` those of them the provider was asked for. */
    method BlockByTimestamp(time: nat, down: set<nat>, steps: nat)
      returns (r: Result, ghost lookups: nat, ghost requests: nat)
      requires Valid() && time < TWO_TO_THE_64
      modifies this`headerCache, this`queue
      ensures Valid()
      ensures r.TimeTooLate? <==> time > latestTime
      ensures r.TimeTooLate? ==> lookups == requests == 0
      ensures r.Ok? ==> IsTarget(r.header, time) && r.header.number == LatestAtOrBefore(chain, time, 0)
      ensures r.HeaderUnavailable? ==> down != {} || chain[0].time > time
      ensures r.Cancelled? ==> steps < REPEATED_SEARCHES || steps <= 2 * |chain|
      ensures r.Ok? ==> chain[0].time <= time
      ensures r.Ok? || (r.HeaderUnavailable? && down == {}) ==>
                lookups == Lookups(chain, time, latestHeight, secondsPerBlock)
      ensures lookups <= Lookups(chain, time, latestHeight, secondsPerBlock)
      ensures requests <= lookups
      ensures r.Ok? && old(headerCache) == map[] && TheLanding(time) == Landing(latestHeight, 0) ==>
                requests == lookups
    {
      lookups, requests := 0, 0;
      if time > latestTime {
        return TimeTooLate, lookups, requests;
      }
      var estimatedBlk: nat;
      r, estimatedBlk, lookups, requests := Search(time, down, steps);
      if !r.Ok? {
        return;
      }
      ghost var more, asked;
      r, more, asked := Scan(estimatedBlk, r.header.time, time, down, steps);
      lookups, requests := lookups + more, requests + asked;
    }

    /** From the block the interpolation ended at to the target. */
    method Scan(landing: nat, cursorTime: nat, time: nat, down: set<nat>, steps: nat)
      returns (r: Result, ghost lookups: nat, ghost requests: nat)
      requires Valid() && landing <= latestHeight && cursorTime == chain[landing].time && time <= latestTime
      modifies this`headerCache, this`queue
      ensures Valid() && !r.TimeTooLate?
      ensures r.Ok? ==> IsTarget(r.header, time) && r.header.number == LatestAtOrBefore(chain, time, 0)
      ensures r.Ok? ==> chain[0].time <= time
      ensures r.HeaderUnavailable? ==> down != {} || chain[0].time > time
      ensures r.Cancelled? ==> steps <= 2 * |chain|
      ensures r.Ok? || (r.HeaderUnavailable? && down == {}) ==> lookups == ScanLookups(chain, time, landing)
      ensures lookups <= ScanLookups(chain, time, landing)
      ensures requests <= lookups && (r.Ok? && old(headerCache) == map[] && time <= cursorTime ==> requests == lookups)
    {
      InOrder(chain, 0, landing);
      if cursorTime == time {
        LatestIsTarget(chain, time, 0);
        PastOrAtTarget(chain, time, landing);
        r, requests := RetrieveHeaderInfo(landing, down);
        lookups := 1;
      } else if cursorTime > time {
        r, lookups, requests := FindMaxTargetEth1Block(landing, time, down, steps);
      } else {
        r, lookups, requests := FindMinTargetEth1Block(landing, time, down, steps);
      }
      if r.Ok? { LatestIsUnique(chain, time, 0, r.header.number); }
    }

    /** Going on from the cursor ends where going on from the head does. */
    ghost predicate OnTrack(time: nat, cursor: nat, searches: nat)
      reads this
      requires Valid() && cursor <= latestHeight && searches <= REPEATED_SEARCHES
    {
      var l := Interpolate(chain, time, latestHeight, secondsPerBlock, cursor, REPEATED_SEARCHES - searches);
      TheLanding(time) == Landing(l.block, searches + l.searches)
    }

    /** The interpolation loop; the answer's header is the one at the landing block. */
    method Search(time: nat, down: set<nat>, steps: nat)
      returns (r: Result, estimatedBlk: nat, ghost lookups: nat, ghost requests: nat)
      requires Valid() && time <= latestTime
      modifies this`headerCache, this`queue
      ensures Valid() && !r.TimeTooLate?
      ensures r.Ok? ==> Landing(estimatedBlk, lookups) == TheLanding(time) && r.header == chain[estimatedBlk]
      ensures r.HeaderUnavailable? ==> down != {}
      ensures r.Cancelled? ==> steps < REPEATED_SEARCHES && lookups == steps
      ensures lookups <= TheLanding(time).searches && lookups <= steps
      ensures requests <= lookups && (lookups == 0 ==> headerCache == old(headerCache))
    {
      var cursorNum: nat, cursorTime: nat := latestHeight, latestTime;
      estimatedBlk := cursorNum;
      var searches := 0;
      lookups, requests := 0, 0;
      while searches < REPEATED_SEARCHES
        invariant Valid()
        invariant cursorNum == estimatedBlk <= latestHeight && cursorTime == chain[cursorNum].time
        invariant searches == lookups <= REPEATED_SEARCHES && requests <= lookups <= steps
        invariant lookups == 0 ==> headerCache == old(headerCache)
        invariant OnTrack(time, cursorNum, searches)
        decreases REPEATED_SEARCHES - searches
      {
        if searches >= steps {
          return Cancelled, estimatedBlk, lookups, requests;
        }
        var guess := Estimate(time, cursorNum, cursorTime, latestHeight, secondsPerBlock);
        if guess.Stop? {
          break;
        }
        estimatedBlk := guess.block;
        ghost var asked;
        r, asked := RetrieveHeaderInfo(estimatedBlk, down);
        lookups, requests := lookups + 1, requests + asked;
        if !r.Ok? {
          return;
        }
        cursorNum := r.header.number;
        cursorTime := r.header.time;
        searches := searches + 1;
      }
      r := Ok(Header(cursorNum, cursorTime));
    }
  }

  // ---------------------------------------------------------------- inputs that go wrong

  /** A block every second. */
  function Seconds(height: nat): seq<Header> {
    seq(height + 1, (k: nat) => Header(k, k))
  }

  lemma {:induction false} SecondsLookups(height: nat)
    requires SEARCH_THRESHOLD < height < TWO_TO_THE_64 - 10
    ensures RegularSearch(Seconds(height), 0, height, 1)
    ensures Interpolate(Seconds(height), 0, height, 1, height, REPEATED_SEARCHES) == Landing(height, 0)
    ensures Lookups(Seconds(height), 0, height, 1) == height + 1
  {
    RegularChainLookups(Seconds(height), 0, height, 1);
    RegularEstimateIsPlain(Seconds(height), 0, height, height, 1);
  }

  /** No constant bounds the calls: on that chain the time of block zero costs a request for every block. */
  method WholeChainIsRequested(height: nat) returns (r: Result, ghost lookups: nat, ghost requests: nat)
    requires SEARCH_THRESHOLD < height < TWO_TO_THE_64 - 10
    ensures r == Ok(Header(0, 0)) && lookups == requests == height + 1
  {
    SecondsLookups(height);
    var service := new Eth1Service(Seconds(height), 1, height, height);
    r, lookups, requests := service.BlockByTimestamp(0, {}, 2 * height + 12);
  }

  /** A time before block zero: the scan looks up block zero and then, past it, a block that is not there. */
  method NothingBeforeBlockZero() returns (r: Result, ghost lookups: nat)
    ensures r == HeaderUnavailable && lookups == 2
  {
    var service := new Eth1Service([Header(0, 5)], 1, 0, 1);
    ghost var requests;
    r, lookups, requests := service.BlockByTimestamp(3, {}, 100);
  }
}
