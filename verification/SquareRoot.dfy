/** The square root of the total balance, found by Newton's method from the previous answer, with
    uint64 wrap-around written out. */
module SquareRoot {
  import opened Common

  const MAX64: nat := TWO_TO_THE_64 - 1

  /** r is the integer square root of n. */
  ghost predicate IsRoot(r: nat, n: nat) {
    r * r <= n < (r + 1) * (r + 1)
  }

  lemma MulMonotone(a: nat, b: nat, c: nat, d: nat)
    requires a <= b && c <= d
    ensures a * c <= b * d
  {
  }

  lemma RootIsUnique(r: nat, s: nat, n: nat)
    requires IsRoot(r, n) && IsRoot(s, n)
    ensures r == s
  {
    if r < s { MulMonotone(r + 1, s, r + 1, s); }
    if s < r { MulMonotone(s + 1, r, s + 1, r); }
  }

  /** Squares as sums of odd numbers. */
  ghost function Square(x: nat): nat {
    if x == 0 then 0 else Square(x - 1) + 2 * x - 1
  }

  lemma {:induction false} SquareIsProduct(x: nat)
    ensures Square(x) == x * x
  {
    if x > 0 {
      SquareIsProduct(x - 1);
      assert (x - 1) * (x - 1) == x * x - 2 * x + 1;
    }
  }

  /** The reference definition: search from zero. */
  ghost function Root(n: nat): nat {
    if n == 0 then 0
    else
      var r := Root(n - 1);
      if Square(r + 1) <= n then r + 1 else r
  }

  lemma {:induction false} RootIsRoot(n: nat)
    ensures IsRoot(Root(n), n)
  {
    if n > 0 {
      RootIsRoot(n - 1);
      var r := Root(n - 1);
      SquareIsProduct(r);
      SquareIsProduct(r + 1);
      SquareIsProduct(r + 2);
    }
  }

  lemma {:induction false} RootIs(r: nat, n: nat)
    requires IsRoot(r, n)
    ensures Root(n) == r
  {
    RootIsRoot(n);
    RootIsUnique(r, Root(n), n);
  }

  // ---------------------------------------------------------------- Newton's step

  lemma DivisionBounds(b: nat, r: nat)
    requires r > 0
    ensures r * (b / r) <= b < r * (b / r + 1)
  {
  }

  lemma MeansInequality(r: int, s: int)
    ensures r * (2 * s - r) <= s * s
  {
    var d := s - r;
    assert 0 <= d * d;
    assert s * s - r * (2 * s - r) == d * d;
  }

  /** A Newton step never lands below the root, from whichever side it starts. */
  lemma StepStaysAbove(b: nat, r: nat, s: nat)
    requires r > 0 && s * s <= b
    ensures s <= (r + b / r) / 2
  {
    var v := b / r;
    DivisionBounds(b, r);
    if (r + v) / 2 < s {
      assert v + 1 <= 2 * s - r;
      MulMonotone(r, r, v + 1, 2 * s - r);
      MeansInequality(r, s);
      assert false;
    }
  }

  /** A value at or above the root that does not exceed its own quotient is the root. */
  lemma FixpointIsRoot(b: nat, x: nat, s: nat)
    requires x > 0 && IsRoot(s, b) && s <= x <= b / x
    ensures IsRoot(x, b)
  {
    DivisionBounds(b, x);
    MulMonotone(x, x, x, b / x);
    if s < x { MulMonotone(s + 1, x, s + 1, x); }
  }

  lemma {:induction false} RootIsPositive(n: nat)
    requires n > 0
    ensures Root(n) > 0
  {
    RootIsRoot(n);
  }

  lemma RootFits32(r: nat, n: nat)
    requires IsRoot(r, n) && n < TWO_TO_THE_64
    ensures r < 0x1_0000_0000
  {
    if r >= 0x1_0000_0000 { MulMonotone(0x1_0000_0000, r, 0x1_0000_0000, r); }
  }

  lemma WrapAround(x: int)
    ensures 0 <= x < TWO_TO_THE_64 ==> x % TWO_TO_THE_64 == x
    ensures x == TWO_TO_THE_64 ==> x % TWO_TO_THE_64 == 0
  {
  }

  /** The division of a Newton step, with what the loop needs to know about its quotient. */
  method Quotient(b: nat, r: nat) returns (v: nat)
    requires 0 < b && 0 < r
    ensures v <= b
    ensures 0 < Root(b) <= (r + v) / 2
    ensures Root(b) <= r <= v ==> r == Root(b)
    ensures if r == 1 then v == b else 2 * v <= b
  {
    v := b / r;
    ghost var s := Root(b);
    RootIsRoot(b);
    RootIsPositive(b);
    StepStaysAbove(b, r, s);
    DivisionBounds(b, r);
    if r >= 2 { MulMonotone(2, r, v, v); }
    if s <= r <= v {
      FixpointIsRoot(b, r, s);
      RootIs(r, b);
    }
  }

  // ---------------------------------------------------------------- one call

  datatype Cache = Cache(root: nat, balance: nat)

  datatype Result = Value(root: nat) | DivideByZero

  const Initial := Cache(126491106, 15999999897103236)

  /** The cached pair is consistent. */
  ghost predicate Sound(c: Cache) {
    0 < c.balance < TWO_TO_THE_64 && c.root == Root(c.balance)
  }

  /** Left behind by a call that panicked: later calls either panic or return zero. */
  ghost predicate Broken(c: Cache) {
    c.root == 0
  }

  lemma InitialIsSound(c: Cache)
    requires c == Initial
    ensures Sound(c)
  {
    assert IsRoot(c.root, c.balance);
    RootIs(c.root, c.balance);
  }

  lemma SoundRootRange(c: Cache)
    requires Sound(c)
    ensures 0 < c.root < 0x1_0000_0000
  {
    RootIsRoot(c.balance);
    RootIsPositive(c.balance);
    RootFits32(c.root, c.balance);
  }

  /** What a call returns and leaves in the cache, with no mention of how it is computed. */
  ghost function Call(c: Cache, b: nat): (Cache, Result) {
    if b == 0 then (c, Value(0))
    else if b == c.balance then (c, Value(c.root))
    else if c.root == 0 then (Cache(0, b), DivideByZero)
    else if c.root == 1 && b == MAX64 then (Cache(0, b), DivideByZero)
    else (Cache(Root(b), b), Value(Root(b)))
  }

  class SquareRootCache {
    var squareRoot: nat
    var balance: nat

    ghost function Abs(): Cache
      reads this
    {
      Cache(squareRoot, balance)
    }

    constructor ()
      ensures Abs() == Initial
    {
      squareRoot, balance := 126491106, 15999999897103236;
    }

    method CachedSquareRoot(b: nat) returns (r: Result)
      requires b < TWO_TO_THE_64 && (Sound(Abs()) || Broken(Abs()))
      modifies this
      ensures (Abs(), r) == Call(old(Abs()), b)
    {
      if b == 0 {
        return Value(0);
      }
      if b == balance {
        return Value(squareRoot);
      }
      if squareRoot == 0 {
        balance := b;
        return DivideByZero;
      }
      SoundRootRange(Abs());
      balance := b;
      var val := Quotient(b, squareRoot);
      ghost var wraps := squareRoot == 1 && b == MAX64;
      ghost var first := true;
      while true
        invariant squareRoot > 0 && balance == b && 0 < Root(b) <= (squareRoot + val) / 2
        invariant if wraps then first && squareRoot + val == TWO_TO_THE_64 else squareRoot + val < TWO_TO_THE_64
        invariant !first ==> val < squareRoot
        decreases first, squareRoot
      {
        WrapAround(squareRoot + val);
        squareRoot := (squareRoot + val) % TWO_TO_THE_64 / 2;
        if squareRoot == 0 {
          return DivideByZero;
        }
        val := Quotient(b, squareRoot);
        if squareRoot <= val {
          return Value(squareRoot);
        }
        first := false;
      }
    }
  }

  // ---------------------------------------------------------------- every sequence of calls

  ghost function After(c: Cache, calls: seq<nat>): Cache {
    if calls == [] then c
    else Call(After(c, calls[..|calls| - 1]), calls[|calls| - 1]).0
  }

  /** What the last of the calls returned. */
  ghost function Answer(c: Cache, calls: seq<nat>): Result
    requires calls != []
  {
    Call(After(c, calls[..|calls| - 1]), calls[|calls| - 1]).1
  }

  /** Every call returned the integer square root of its argument. */
  ghost predicate AllCorrect(c: Cache, calls: seq<nat>) {
    calls == [] ||
    (AllCorrect(c, calls[..|calls| - 1]) && Answer(c, calls) == Value(Root(calls[|calls| - 1])))
  }

  /** The last balance asked for that was not zero; the cached one if there is none. */
  function LastBalance(c: Cache, calls: seq<nat>): nat {
    if calls == [] then c.balance
    else if calls[|calls| - 1] != 0 then calls[|calls| - 1]
    else LastBalance(c, calls[..|calls| - 1])
  }

  /** No call asks for the largest uint64 right after a balance of 1, 2 or 3. */
  predicate NoOverflowingCall(c: Cache, calls: seq<nat>) {
    calls == [] ||
    (NoOverflowingCall(c, calls[..|calls| - 1]) &&
     !(calls[|calls| - 1] == MAX64 && 1 <= LastBalance(c, calls[..|calls| - 1]) <= 3))
  }

  ghost predicate AreUint64(calls: seq<nat>) {
    forall i :: 0 <= i < |calls| ==> calls[i] < TWO_TO_THE_64
  }

  lemma {:induction false} RootIsOneIff(n: nat)
    ensures Root(n) == 1 <==> 1 <= n <= 3
  {
    RootIsRoot(n);
    if 1 <= n <= 3 { RootIs(1, n); }
  }

  /** One call on a consistent cache. */
  lemma {:induction false} SoundCall(c: Cache, b: nat)
    requires Sound(c) && b < TWO_TO_THE_64
    ensures var (c', r) := Call(c, b);
            if b == MAX64 && 1 <= c.balance <= 3 then r == DivideByZero && Broken(c')
            else r == Value(Root(b)) && Sound(c') && c'.balance == (if b == 0 then c.balance else b)
  {
    RootIsPositive(c.balance);
    RootIsOneIff(c.balance);
  }

  /** As long as no call overflows, the cache holds the last balance and its exact root. */
  lemma {:induction false} CacheStaysSound(c: Cache, calls: seq<nat>)
    requires Sound(c) && AreUint64(calls) && NoOverflowingCall(c, calls)
    ensures Sound(After(c, calls)) && After(c, calls).balance == LastBalance(c, calls)
  {
    if calls != [] {
      var n := |calls| - 1;
      CacheStaysSound(c, calls[..n]);
      SoundCall(After(c, calls[..n]), calls[n]);
    }
  }

  /** Every call of a sequence returns the exact integer square root if and only if no call asks for
      the largest uint64 while the last non-zero balance was 1, 2 or 3; in that one case the sum
      wraps to zero and the next division panics. */
  lemma {:induction false} CorrectIffNoOverflowingCall(c: Cache, calls: seq<nat>)
    requires Sound(c) && AreUint64(calls)
    ensures AllCorrect(c, calls) <==> NoOverflowingCall(c, calls)
  {
    if calls != [] {
      var n := |calls| - 1;
      CorrectIffNoOverflowingCall(c, calls[..n]);
      if NoOverflowingCall(c, calls[..n]) {
        CacheStaysSound(c, calls[..n]);
        SoundCall(After(c, calls[..n]), calls[n]);
      }
    }
  }

  /** The program starts in a consistent state, so the equivalence holds of every run of it. */
  lemma {:induction false} EveryRunCorrectIff(c: Cache, calls: seq<nat>)
    requires c == Initial && AreUint64(calls)
    ensures AllCorrect(c, calls) <==> NoOverflowingCall(c, calls)
  {
    InitialIsSound(c);
    CorrectIffNoOverflowingCall(c, calls);
  }

  /** A concrete failing sequence: ask for 1, then for the largest uint64.  A third call, for the
      same balance, then returns zero. */
  lemma OverflowingSequence(c: Cache)
    requires Sound(c)
    ensures Answer(c, [1, MAX64]) == DivideByZero
    ensures Answer(c, [1, MAX64, MAX64]) == Value(0)
  {
    SoundCall(c, 1);
    var calls := [1, MAX64, MAX64];
    assert [1, MAX64][..1] == calls[..1] == [1] && [1][..0] == [];
    assert calls[..2] == [1, MAX64];
    assert After(c, [1]) == Call(c, 1).0;
    SoundCall(After(c, [1]), MAX64);
    assert After(c, [1, MAX64]) == Call(After(c, [1]), MAX64).0;
  }
}
