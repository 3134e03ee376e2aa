/** Which of two light client updates is better (is_better_update of the altair light client
    sync protocol), and why that comparison can be used to keep a running best. */
module LightClientOrder {
  import opened Common

  datatype Result<+T> = Ok(value: T) | Err

  /** Chain parameters the comparison depends on. */
  datatype Config = Config(slotsPerEpoch: nat, epochsPerPeriod: nat) {
    predicate Valid() { slotsPerEpoch > 0 && epochsPerPeriod > 0 }
  }

  function Period(cfg: Config, slot: nat): nat
    requires cfg.Valid()
  {
    slot / cfg.slotsPerEpoch / cfg.epochsPerPeriod
  }

  lemma Quotient(a: nat, d: nat) returns (q: nat)
    requires d > 0
    ensures q == a / d && d * q <= a < d * (q + 1)
  {
    q := a / d;
  }

  lemma NestedBounds(slot: nat, s: nat, e: nat, epoch: nat, p: nat)
    requires s * epoch <= slot < s * (epoch + 1) && e * p <= epoch < e * (p + 1)
    ensures p * (e * s) <= slot < (p + 1) * (e * s)
  {
    ScaleMonotone(s, e * p, epoch);
    ScaleMonotone(s, epoch + 1, e * (p + 1));
    Regroup(s, e, p);
    Regroup(s, e, p + 1);
  }

  /** The period's slots are those of its epochs. */
  lemma PeriodHolds(cfg: Config, slot: nat)
    requires cfg.Valid()
    ensures Period(cfg, slot) * (cfg.epochsPerPeriod * cfg.slotsPerEpoch) <= slot
    ensures slot < (Period(cfg, slot) + 1) * (cfg.epochsPerPeriod * cfg.slotsPerEpoch)
  {
    var epoch := Quotient(slot, cfg.slotsPerEpoch);
    var p := Quotient(epoch, cfg.epochsPerPeriod);
    NestedBounds(slot, cfg.slotsPerEpoch, cfg.epochsPerPeriod, epoch, p);
    assert p == Period(cfg, slot);
  }

  lemma Regroup(s: int, e: int, p: int)
    ensures s * (e * p) == p * (e * s)
  {
  }

  lemma ScaleMonotone(d: nat, x: nat, y: nat)
    requires x <= y
    ensures d * x <= d * y
  {
  }

  lemma DivisionMonotone(a: nat, b: nat, d: nat)
    requires a <= b && d > 0
    ensures a / d <= b / d
  {
    var x, y := a / d, b / d;
    assert d * x <= a && b < d * (y + 1);
    if y + 1 <= x { ScaleMonotone(d, y + 1, x); }
  }

  lemma PeriodMonotone(cfg: Config, a: nat, b: nat)
    requires cfg.Valid() && a <= b
    ensures Period(cfg, a) <= Period(cfg, b)
  {
    DivisionMonotone(a, b, cfg.slotsPerEpoch);
    DivisionMonotone(a / cfg.slotsPerEpoch, b / cfg.slotsPerEpoch, cfg.epochsPerPeriod);
  }

  /** An update as the comparison sees it.  `electraLayout` is the wrapper it is stored in,
      `electraSlot` whether its version, derived from the attested slot, is Electra or later;
      the getters fail when the two disagree. */
  datatype Update = Update(
    electraLayout: bool,
    electraSlot: bool,
    bits: seq<bool>,
    attestedSlot: nat,
    signatureSlot: nat,
    finalizedSlot: nat,
    committeeBranch: seq<nat>,
    finalityBranch: seq<nat>)

  function Count(bits: seq<bool>): nat {
    if bits == [] then 0 else (if bits[0] then 1 else 0) + Count(bits[1..])
  }

  /** The positions of the participants. */
  ghost function Participants(bits: seq<bool>): set<int> {
    set i | 0 <= i < |bits| && bits[i]
  }

  lemma {:induction false} CountIsParticipants(bits: seq<bool>)
    ensures Count(bits) == |Participants(bits)|
  {
    if bits != [] {
      var n := |bits| - 1;
      CountOfFront(bits);
      CountIsParticipants(bits[..n]);
      assert Participants(bits) == Participants(bits[..n]) + (if bits[n] then {n} else {});
    }
  }

  lemma {:induction false} CountOfFront(bits: seq<bool>)
    requires bits != []
    ensures Count(bits) == Count(bits[..|bits| - 1]) + (if bits[|bits| - 1] then 1 else 0)
  {
    if |bits| > 1 {
      var n := |bits| - 1;
      CountOfFront(bits[1..]);
      assert bits[1..][..n - 1] == bits[..n][1..];
    }
  }

  predicate NonZero(branch: seq<nat>) {
    exists i :: 0 <= i < |branch| && branch[i] != 0
  }

  function HasRelevantSyncCommittee(u: Update): Result<bool> {
    if u.electraSlot == u.electraLayout then Ok(NonZero(u.committeeBranch)) else Err
  }

  function HasFinality(u: Update): Result<bool> {
    if u.electraSlot == u.electraLayout then Ok(NonZero(u.finalityBranch)) else Err
  }

  predicate Supermajority(participants: nat, committee: nat) {
    participants * 3 >= committee * 2
  }

  /** The least number of participants that is a supermajority. */
  function Threshold(committee: nat): (t: nat)
    ensures t <= committee
  {
    (2 * committee + 2) / 3
  }

  lemma ThresholdIsLeast(committee: nat)
    ensures var t := Threshold(committee); 3 * t >= 2 * committee && 3 * (t - 1) < 2 * committee
  {
  }

  lemma SupermajorityIsThreshold(participants: nat, committee: nat)
    ensures Supermajority(participants, committee) <==> participants >= Threshold(committee)
  {
  }

  function IsBetterUpdate(cfg: Config, newUpdate: Update, oldUpdate: Option<Update>): Result<bool>
    requires cfg.Valid()
  {
    if oldUpdate.None? then Ok(true)
    else
      var prev := oldUpdate.value;
      var committee := |newUpdate.bits|;
      var newCount, oldCount := Count(newUpdate.bits), Count(prev.bits);
      var newSuper, oldSuper := Supermajority(newCount, committee), Supermajority(oldCount, committee);
      if newSuper != oldSuper then Ok(newSuper)
      else if !newSuper && newCount != oldCount then Ok(newCount > oldCount)
      else
        var newCommittee, oldCommittee := HasRelevantSyncCommittee(newUpdate), HasRelevantSyncCommittee(prev);
        if newCommittee.Err? || oldCommittee.Err? then Err
        else
          var newRelevant := newCommittee.value && SamePeriod(cfg, newUpdate.attestedSlot, newUpdate.signatureSlot);
          var oldRelevant := oldCommittee.value && SamePeriod(cfg, prev.attestedSlot, prev.signatureSlot);
          if newRelevant != oldRelevant then Ok(newRelevant)
          else
            var newFinality, oldFinality := HasFinality(newUpdate), HasFinality(prev);
            if newFinality.Err? || oldFinality.Err? then Err
            else if newFinality.value != oldFinality.value then Ok(newFinality.value)
            else
              var newSync := SamePeriod(cfg, newUpdate.finalizedSlot, newUpdate.attestedSlot);
              var oldSync := SamePeriod(cfg, prev.finalizedSlot, prev.attestedSlot);
              if newFinality.value && newSync != oldSync then Ok(newSync)
              else if newCount != oldCount then Ok(newCount > oldCount)
              else if newUpdate.attestedSlot != prev.attestedSlot then Ok(newUpdate.attestedSlot < prev.attestedSlot)
              else Ok(newUpdate.signatureSlot < prev.signatureSlot)
  }

  predicate SamePeriod(cfg: Config, a: nat, b: nat)
    requires cfg.Valid()
  {
    Period(cfg, a) == Period(cfg, b)
  }

  // ---------------------------------------------------------------- one lexicographic key

  predicate LexLess(a: seq<int>, b: seq<int>)
    requires |a| == |b|
  {
    a != [] && (a[0] < b[0] || (a[0] == b[0] && LexLess(a[1..], b[1..])))
  }

  lemma {:induction false} LexIrreflexive(a: seq<int>)
    ensures !LexLess(a, a)
  {
    if a != [] { LexIrreflexive(a[1..]); }
  }

  lemma {:induction false} LexTransitive(a: seq<int>, b: seq<int>, c: seq<int>)
    requires |a| == |b| == |c| && LexLess(a, b) && LexLess(b, c)
    ensures LexLess(a, c)
  {
    if a[0] == b[0] == c[0] { LexTransitive(a[1..], b[1..], c[1..]); }
  }

  lemma {:induction false} LexTotal(a: seq<int>, b: seq<int>)
    requires |a| == |b|
    ensures a == b || LexLess(a, b) || LexLess(b, a)
  {
    if a != [] && a[0] == b[0] {
      LexTotal(a[1..], b[1..]);
      assert a == [a[0]] + a[1..] && b == [b[0]] + b[1..];
    }
  }

  /** Sequences are compared at the first place where they differ. */
  lemma {:induction false} LexAt(a: seq<int>, b: seq<int>, i: nat)
    requires |a| == |b| && i < |a| && a[..i] == b[..i] && a[i] != b[i]
    ensures LexLess(a, b) <==> a[i] < b[i]
  {
    if i > 0 {
      assert a[0] == a[..i][0] && b[0] == b[..i][0];
      assert a[1..][..i - 1] == a[..i][1..] && b[1..][..i - 1] == b[..i][1..];
      LexAt(a[1..], b[1..], i - 1);
    }
  }

  function Flag(b: bool): int { if b then 1 else 0 }

  /** The update's version matches its wrapper, and its committee needs the same participants for a
      supermajority as one of the given size. */
  predicate WellFormed(u: Update, committee: nat) {
    u.electraSlot == u.electraLayout && Threshold(|u.bits|) == Threshold(committee)
  }

  lemma SameSupermajority(u: Update, v: Update, participants: nat)
    requires Threshold(|u.bits|) == Threshold(|v.bits|)
    ensures Supermajority(participants, |u.bits|) == Supermajority(participants, |v.bits|)
  {
    SupermajorityIsThreshold(participants, |u.bits|);
    SupermajorityIsThreshold(participants, |v.bits|);
  }

  /** All the comparison depends on, most significant first; stages that are skipped are zero. */
  function Rank(cfg: Config, u: Update): (k: seq<int>)
    requires cfg.Valid()
    ensures |k| == 8
  {
    var n := Count(u.bits);
    var super := Supermajority(n, |u.bits|);
    var finality := NonZero(u.finalityBranch);
    [ Flag(super),
      if super then 0 else n as int,
      Flag(NonZero(u.committeeBranch) && SamePeriod(cfg, u.attestedSlot, u.signatureSlot)),
      Flag(finality),
      Flag(finality && SamePeriod(cfg, u.finalizedSlot, u.attestedSlot)),
      n,
      0 - u.attestedSlot,
      0 - u.signatureSlot ]
  }

  /** A root of the branch is not zero. */
  ghost predicate IsPresent(branch: seq<nat>) {
    !(forall i :: 0 <= i < |branch| ==> branch[i] == 0)
  }

  /** What the stages are: two thirds of the committee take part; how many do, if fewer; a sync committee signed
      in its own period; finality; finality in the attested period; how many take part; the older attested and
      the older signature slot. */
  lemma {:induction false} RankMeans(cfg: Config, u: Update)
    requires cfg.Valid()
    ensures var (k, n) := (Rank(cfg, u), |Participants(u.bits)|);
            && (k[0] == if 3 * n >= 2 * |u.bits| then 1 else 0)
            && (k[1] == if 3 * n >= 2 * |u.bits| then 0 else n)
            && (k[2] == if IsPresent(u.committeeBranch) && Period(cfg, u.attestedSlot) == Period(cfg, u.signatureSlot)
                        then 1 else 0)
            && (k[3] == if IsPresent(u.finalityBranch) then 1 else 0)
            && (k[4] == if IsPresent(u.finalityBranch) && Period(cfg, u.finalizedSlot) == Period(cfg, u.attestedSlot)
                        then 1 else 0)
            && k[5] == n && k[6] == 0 - u.attestedSlot && k[7] == 0 - u.signatureSlot
  {
    CountIsParticipants(u.bits);
    assert NonZero(u.committeeBranch) == IsPresent(u.committeeBranch);
    assert NonZero(u.finalityBranch) == IsPresent(u.finalityBranch);
  }

  /** Both participation tests leave the two updates level, measured against the new one's committee. */
  ghost predicate LevelParticipation(a: Update, b: Update) {
    var (n, m, c) := (|Participants(a.bits)|, |Participants(b.bits)|, |a.bits|);
    (3 * n >= 2 * c && 3 * m >= 2 * c) || n == m
  }

  /** For any two updates: the first one always wins against none; participation decides whatever the wrappers;
      and the comparison fails exactly when participation is level and a wrapper does not match. */
  lemma BetterFailsIff(cfg: Config, a: Update, b: Update)
    requires cfg.Valid()
    ensures IsBetterUpdate(cfg, a, None) == Ok(true)
    ensures !LevelParticipation(a, b) ==>
              IsBetterUpdate(cfg, a, Some(b)) == Ok(|Participants(a.bits)| > |Participants(b.bits)|)
    ensures IsBetterUpdate(cfg, a, Some(b)).Err? <==>
              LevelParticipation(a, b) && (a.electraSlot != a.electraLayout || b.electraSlot != b.electraLayout)
  {
    CountIsParticipants(a.bits);
    CountIsParticipants(b.bits);
  }

  /** The first position at which two ranks differ, or 8. */
  function FirstDifference(a: seq<int>, b: seq<int>, from: nat): (i: nat)
    requires |a| == |b| && from <= |a| && a[..from] == b[..from]
    ensures from <= i <= |a| && a[..i] == b[..i] && (i < |a| ==> a[i] != b[i])
    decreases |a| - from
  {
    if from == |a| || a[from] != b[from] then from
    else
      assert a[..from + 1] == a[..from] + [a[from]];
      assert b[..from + 1] == b[..from] + [b[from]];
      FirstDifference(a, b, from + 1)
  }

  /** For updates of one supermajority threshold the eight-stage comparison, conditional stages included, is
      exactly "greater rank". */
  lemma BetterIsGreaterRank(cfg: Config, a: Update, b: Update, committee: nat)
    requires cfg.Valid() && WellFormed(a, committee) && WellFormed(b, committee)
    ensures IsBetterUpdate(cfg, a, Some(b)) == Ok(LexLess(Rank(cfg, b), Rank(cfg, a)))
  {
    var x, y := Rank(cfg, b), Rank(cfg, a);
    var i := FirstDifference(x, y, 0);
    if i == 8 {
      assert x == x[..8] && y == y[..8];
      LexIrreflexive(x);
      BetterAtTie(cfg, a, b, committee);
    } else {
      LexAt(x, y, i);
      assert forall j :: 0 <= j < i ==> x[j] == x[..i][j] && y[j] == y[..i][j];
      BetterAtDifference(cfg, a, b, committee, i);
    }
  }

  lemma BetterAtTie(cfg: Config, a: Update, b: Update, committee: nat)
    requires cfg.Valid() && WellFormed(a, committee) && WellFormed(b, committee)
    requires Rank(cfg, a) == Rank(cfg, b)
    ensures IsBetterUpdate(cfg, a, Some(b)) == Ok(false)
  {
    var x, y := Rank(cfg, b), Rank(cfg, a);
    SameSupermajority(a, b, Count(b.bits));
    assert x[0] == y[0] && x[1] == y[1] && x[2] == y[2] && x[3] == y[3];
    assert x[4] == y[4] && x[5] == y[5] && x[6] == y[6] && x[7] == y[7];
  }

  lemma BetterAtDifference(cfg: Config, a: Update, b: Update, committee: nat, i: nat)
    requires cfg.Valid() && WellFormed(a, committee) && WellFormed(b, committee)
    requires i < 8 && Rank(cfg, a)[i] != Rank(cfg, b)[i]
    requires forall j :: 0 <= j < i ==> Rank(cfg, a)[j] == Rank(cfg, b)[j]
    ensures IsBetterUpdate(cfg, a, Some(b)) == Ok(Rank(cfg, b)[i] < Rank(cfg, a)[i])
  {
    var x, y := Rank(cfg, b), Rank(cfg, a);
    SameSupermajority(a, b, Count(b.bits));
    assert i > 0 ==> x[0] == y[0];
    assert i > 1 ==> x[1] == y[1];
    assert i > 2 ==> x[2] == y[2];
    assert i > 3 ==> x[3] == y[3];
    assert i > 4 ==> x[4] == y[4];
    assert i > 5 ==> x[5] == y[5];
    assert i > 6 ==> x[6] == y[6];
  }

  // ---------------------------------------------------------------- a strict weak order

  predicate Beats(cfg: Config, a: Update, b: Update)
    requires cfg.Valid()
  {
    IsBetterUpdate(cfg, a, Some(b)) == Ok(true)
  }

  predicate Incomparable(cfg: Config, a: Update, b: Update)
    requires cfg.Valid()
  {
    !Beats(cfg, a, b) && !Beats(cfg, b, a)
  }

  /** Irreflexive and asymmetric, and never an error. */
  lemma BeatsIsAsymmetric(cfg: Config, a: Update, b: Update, committee: nat)
    requires cfg.Valid() && WellFormed(a, committee) && WellFormed(b, committee)
    ensures IsBetterUpdate(cfg, a, Some(b)).Ok?
    ensures !Beats(cfg, a, a)
    ensures !(Beats(cfg, a, b) && Beats(cfg, b, a))
  {
    BetterIsGreaterRank(cfg, a, b, committee);
    BetterIsGreaterRank(cfg, b, a, committee);
    BetterIsGreaterRank(cfg, a, a, committee);
    LexIrreflexive(Rank(cfg, a));
    if Beats(cfg, a, b) && Beats(cfg, b, a) { LexTransitive(Rank(cfg, a), Rank(cfg, b), Rank(cfg, a)); }
  }

  lemma BeatsIsTransitive(cfg: Config, a: Update, b: Update, c: Update, committee: nat)
    requires cfg.Valid() && WellFormed(a, committee) && WellFormed(b, committee) && WellFormed(c, committee)
    requires Beats(cfg, a, b) && Beats(cfg, b, c)
    ensures Beats(cfg, a, c)
  {
    BetterIsGreaterRank(cfg, a, b, committee);
    BetterIsGreaterRank(cfg, b, c, committee);
    BetterIsGreaterRank(cfg, a, c, committee);
    LexTransitive(Rank(cfg, c), Rank(cfg, b), Rank(cfg, a));
  }

  lemma IncomparabilityIsTransitive(cfg: Config, a: Update, b: Update, c: Update, committee: nat)
    requires cfg.Valid() && WellFormed(a, committee) && WellFormed(b, committee) && WellFormed(c, committee)
    requires Incomparable(cfg, a, b) && Incomparable(cfg, b, c)
    ensures Incomparable(cfg, a, c)
  {
    SameRank(cfg, a, b, committee);
    SameRank(cfg, b, c, committee);
    BetterIsGreaterRank(cfg, a, c, committee);
    BetterIsGreaterRank(cfg, c, a, committee);
    LexIrreflexive(Rank(cfg, a));
  }

  lemma SameRank(cfg: Config, a: Update, b: Update, committee: nat)
    requires cfg.Valid() && WellFormed(a, committee) && WellFormed(b, committee) && Incomparable(cfg, a, b)
    ensures Rank(cfg, a) == Rank(cfg, b)
  {
    BetterIsGreaterRank(cfg, a, b, committee);
    BetterIsGreaterRank(cfg, b, a, committee);
    LexTotal(Rank(cfg, a), Rank(cfg, b));
  }

  /** Replacing the best by something that beats it keeps everything already beaten beaten. */
  lemma NotBeatenCarriesOver(cfg: Config, u: Update, best: Update, better: Update, committee: nat)
    requires cfg.Valid() && WellFormed(u, committee) && WellFormed(best, committee) && WellFormed(better, committee)
    requires !Beats(cfg, u, best) && Beats(cfg, better, best)
    ensures !Beats(cfg, u, better)
  {
    if Beats(cfg, u, better) {
      BeatsIsTransitive(cfg, u, better, best, committee);
    }
  }

  // ---------------------------------------------------------------- over committee sizes

  function Bits(n: nat, committee: nat): (bits: seq<bool>)
    requires n <= committee
    ensures |bits| == committee
  {
    seq(committee, i => i < n)
  }

  lemma {:induction false} CountOfBits(n: nat, committee: nat)
    requires n <= committee
    ensures Count(Bits(n, committee)) == n
  {
    if committee > 0 {
      var less := if n == 0 then 0 else n - 1;
      assert Bits(n, committee)[1..] == Bits(less, committee - 1);
      CountOfBits(less, committee - 1);
    }
  }

  /** A bare update with the given participants, with or without a sync committee. */
  function Bare(n: nat, committee: nat, branch: seq<nat>): Update
    requires n <= committee
  {
    Update(false, false, Bits(n, committee), 0, 0, 0, branch, [])
  }

  /** Both participation tests use the new update's committee.  With the lower threshold both updates
      have a supermajority and the sync committee decides, with the higher one only the other has. */
  lemma LowerThresholdBeatsAndIsBeaten(cfg: Config, m: nat, n: nat)
    requires cfg.Valid() && Threshold(m) < Threshold(n)
    ensures var a, b := Bare(Threshold(m), m, [1]), Bare(Threshold(n), n, []);
            Beats(cfg, a, b) && Beats(cfg, b, a)
  {
    var a, b := Bare(Threshold(m), m, [1]), Bare(Threshold(n), n, []);
    CountOfBits(Threshold(m), m);
    CountOfBits(Threshold(n), n);
    assert a.committeeBranch[0] != 0;
    SupermajorityIsThreshold(Threshold(m), m);
    SupermajorityIsThreshold(Threshold(n), m);
    SupermajorityIsThreshold(Threshold(m), n);
    SupermajorityIsThreshold(Threshold(n), n);
  }

  ghost predicate OfSize(u: Update, committee: nat) {
    u.electraSlot == u.electraLayout && |u.bits| == committee
  }

  ghost predicate EachBeatsOther(cfg: Config, a: Update, b: Update)
    requires cfg.Valid()
  {
    Beats(cfg, a, b) && Beats(cfg, b, a)
  }

  /** How far asymmetry reaches beyond one committee size: updates of two sizes never each beat the other
      exactly when the sizes need the same number of participants for a supermajority. */
  lemma AsymmetricIffSameThreshold(cfg: Config, m: nat, n: nat)
    requires cfg.Valid()
    ensures Threshold(m) == Threshold(n) <==>
            forall a, b :: OfSize(a, m) && OfSize(b, n) ==> !EachBeatsOther(cfg, a, b)
  {
    if Threshold(m) == Threshold(n) {
      forall a, b | OfSize(a, m) && OfSize(b, n)
        ensures !EachBeatsOther(cfg, a, b)
      {
        BeatsIsAsymmetric(cfg, a, b, m);
      }
    } else if Threshold(m) < Threshold(n) {
      LowerThresholdBeatsAndIsBeaten(cfg, m, n);
      assert EachBeatsOther(cfg, Bare(Threshold(m), m, [1]), Bare(Threshold(n), n, []));
    } else {
      LowerThresholdBeatsAndIsBeaten(cfg, n, m);
      assert EachBeatsOther(cfg, Bare(Threshold(m), m, []), Bare(Threshold(n), n, [1]));
    }
  }

  // ---------------------------------------------------------------- finality updates

  datatype FinalityUpdate = FinalityUpdate(finalizedSlot: nat, attestedSlot: nat, signatureSlot: nat)

  predicate IsBetterFinalityUpdate(newUpdate: FinalityUpdate, oldUpdate: Option<FinalityUpdate>) {
    if oldUpdate.None? then true
    else
      var prev := oldUpdate.value;
      if newUpdate.finalizedSlot < prev.finalizedSlot then false
      else if newUpdate.finalizedSlot == prev.finalizedSlot then
        if newUpdate.attestedSlot < prev.attestedSlot then false
        else !(newUpdate.attestedSlot == prev.attestedSlot && newUpdate.signatureSlot <= prev.signatureSlot)
      else true
  }

  function Slots(u: FinalityUpdate): (slots: seq<int>)
    ensures |slots| == 3
  {
    [u.finalizedSlot, u.attestedSlot, u.signatureSlot]
  }

  /** A finality update replaces another exactly when it is later in the finalized slot, then the
      attested slot, then the signature slot. */
  lemma BetterFinalityIsLater(a: FinalityUpdate, b: FinalityUpdate)
    ensures IsBetterFinalityUpdate(a, Some(b)) <==> LexLess(Slots(b), Slots(a))
  {
    var x, y := Slots(b), Slots(a);
    assert LexLess(x[1..], y[1..]) <==> x[1] < y[1] || (x[1] == y[1] && LexLess(x[1..][1..], y[1..][1..]));
    assert LexLess(x[1..][1..], y[1..][1..]) <==> x[2] < y[2];
  }

  datatype OptimisticUpdate = OptimisticUpdate(attestedSlot: nat)

  predicate IsBetterOptimisticUpdate(newUpdate: OptimisticUpdate, oldUpdate: Option<OptimisticUpdate>) {
    oldUpdate.None? || newUpdate.attestedSlot > oldUpdate.value.attestedSlot
  }
}
