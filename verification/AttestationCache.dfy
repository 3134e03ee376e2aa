/** The attestation cache: attestations grouped by their data, single votes folded into the first
    attestation of their group in place, aggregates appended as copies. */
module AttestationCache {
  import opened Common

  type Id = nat

  // ---------------------------------------------------------------- bitlists

  function BitAt(bits: seq<bool>, i: nat): bool {
    i < |bits| && bits[i]
  }

  /** Setting a bit beyond the end does nothing. */
  function SetBitAt(bits: seq<bool>, i: nat): seq<bool> {
    if i < |bits| then bits[i := true] else bits
  }

  function BitIndices(bits: seq<bool>): set<nat> {
    set i: nat | i < |bits| && bits[i]
  }

  /** Bits of b all set in a; only asked of lists of one length. */
  predicate Contains(a: seq<bool>, b: seq<bool>) {
    forall i: nat :: i < |b| && b[i] ==> BitAt(a, i)
  }

  lemma SetBitAddsIndex(bits: seq<bool>, i: nat)
    ensures BitIndices(SetBitAt(bits, i)) == BitIndices(bits) + (if i < |bits| then {i} else {})
  {
  }

  lemma ContainsIsSubset(a: seq<bool>, b: seq<bool>)
    ensures Contains(a, b) <==> BitIndices(b) <= BitIndices(a)
  {
    if BitIndices(b) <= BitIndices(a) {
      forall i: nat | i < |b| && b[i]
        ensures BitAt(a, i)
      {
        assert i in BitIndices(b);
      }
    }
  }

  function FirstIndex(bits: seq<bool>): (i: nat)
    requires exists k :: 0 <= k < |bits| && bits[k]
    ensures i < |bits| && bits[i]
  {
    if bits[0] then 0 else 1 + FirstIndex(bits[1..])
  }

  // ---------------------------------------------------------------- attestations

  /** An attestation.  A signature is the bag of single signatures aggregated into it, each named by
      the committee position that made it.  `id` is None when no id can be computed. */
  class Attestation {
    const id: Option<Id>
    const slot: nat
    var bits: seq<bool>
    var signature: multiset<nat>

    constructor (id: Option<Id>, slot: nat, bits: seq<bool>, signature: multiset<nat>)
      ensures this.id == id && this.slot == slot && this.bits == bits && this.signature == signature
    {
      this.id, this.slot, this.bits, this.signature := id, slot, bits, signature;
    }

    /** The signature aggregates exactly one signature per set bit. */
    ghost predicate Genuine()
      reads this
    {
      signature == multiset(BitIndices(bits))
    }

    /** Sets one more bit and aggregates the signature made for it. */
    method AddVote(bit: nat, sig: multiset<nat>)
      requires Genuine() && bit !in BitIndices(bits) && sig == multiset{bit}
      modifies this
      ensures if bit < |old(bits)| then Genuine() && BitIndices(bits) == old(BitIndices(bits)) + {bit}
              else !Genuine() && bits == old(bits)
      ensures bits == SetBitAt(old(bits), bit) && signature == old(signature) + sig
    {
      ghost var was := BitIndices(bits);
      SetBitAddsIndex(bits, bit);
      signature := signature + sig;
      bits := SetBitAt(bits, bit);
      assert multiset(was + {bit}) == multiset(was) + multiset{bit};
      assert bit !in was && bit !in multiset(was);
    }
  }

  datatype Group = Group(slot: nat, atts: seq<Attestation>)

  /** Positions voted for by any attestation of the list. */
  ghost function Votes(atts: seq<Attestation>): (v: set<nat>)
    reads atts
  {
    set k, i | 0 <= k < |atts| && i in BitIndices(atts[k].bits) :: i
  }

  ghost predicate SameElsewhere(m: map<Id, Group>, m': map<Id, Group>, id: Id) {
    && (forall i :: i in m && i != id ==> i in m' && m'[i] == m[i])
    && (forall i :: i in m' && i != id ==> i in m)
  }

  lemma VotesOfAppend(atts: seq<Attestation>, a: Attestation)
    ensures Votes(atts + [a]) == Votes(atts) + BitIndices(a.bits)
  {
    var more := atts + [a];
    assert more[|atts|] == a;
    assert forall k :: 0 <= k < |atts| ==> more[k] == atts[k];
  }

  lemma VotesOfFirst(atts: seq<Attestation>)
    requires atts != []
    ensures BitIndices(atts[0].bits) <= Votes(atts)
  {
  }

  /** BitIndices()[0] of a list with one bit set. */
  method SoleIndex(bits: seq<bool>) returns (i: nat)
    requires |BitIndices(bits)| == 1
    ensures BitIndices(bits) == {i} && i < |bits|
  {
    ghost var x :| x in BitIndices(bits);
    i := FirstIndex(bits);
    assert i in BitIndices(bits) && |BitIndices(bits) - {i}| == 0;
  }

  datatype Result = Ok | Error

  ghost function TotalCount(m: map<Id, Group>): nat {
    if m == map[] then 0
    else
      var id :| id in m;
      |m[id].atts| + TotalCount(m - {id})
  }

  lemma {:induction false} TotalWithout(m: map<Id, Group>, id: Id)
    requires id in m
    ensures TotalCount(m) == |m[id].atts| + TotalCount(m - {id})
    decreases |m|
  {
    var first :| first in m && TotalCount(m) == |m[first].atts| + TotalCount(m - {first});
    if first != id {
      TotalWithout(m - {first}, id);
      TotalWithout(m - {id}, first);
      assert m - {first} - {id} == m - {id} - {first};
    }
  }

  /** A place for every attestation held. */
  ghost function Places(m: map<Id, Group>): set<(Id, int)> {
    set id, k | id in m && 0 <= k < |m[id].atts| :: (id, k)
  }

  lemma {:induction false} TotalIsAll(m: map<Id, Group>)
    ensures TotalCount(m) == |Places(m)|
    decreases |m|
  {
    if m != map[] {
      var id :| id in m && TotalCount(m) == |m[id].atts| + TotalCount(m - {id});
      TotalIsAll(m - {id});
      PlacesOf(id, |m[id].atts|);
      assert Places(m) == PlacesIn(id, |m[id].atts|) + Places(m - {id});
    } else {
      assert Places(m) == {};
    }
  }

  ghost function PlacesIn(id: Id, n: nat): set<(Id, int)> {
    set k | 0 <= k < n :: (id, k)
  }

  lemma {:induction false} PlacesOf(id: Id, n: nat)
    ensures |PlacesIn(id, n)| == n
  {
    if n == 0 {
      assert PlacesIn(id, 0) == {};
    } else {
      PlacesOf(id, n - 1);
      assert PlacesIn(id, n) == PlacesIn(id, n - 1) + {(id, n - 1)};
    }
  }

  /** The groups left when those of `rest` are still to be visited. */
  ghost function Remaining(m: map<Id, Group>, rest: set<Id>, slot: nat): map<Id, Group> {
    map id | id in m && (id in rest || m[id].slot >= slot) :: m[id]
  }

  lemma RemainingWithout(m: map<Id, Group>, rest: set<Id>, slot: nat, id: Id)
    requires id in rest && rest <= m.Keys
    ensures Remaining(m, rest - {id}, slot)
            == Remaining(m, rest, slot) - (if m[id].slot < slot then {id} else {})
  {
  }

  class AttestationCache {
    var groups: map<Id, Group>
    ghost var stored: set<Attestation>

    /** Every group is non-empty, holds attestations of its own id, and every signature matches its bits. */
    ghost predicate Valid()
      reads this, stored
    {
      forall id :: id in groups ==>
        && groups[id].atts != []
        && forall a :: a in groups[id].atts ==> a in stored && Fits(a, id)
    }

    ghost predicate Fits(a: Attestation, id: Id)
      reads a
    {
      a.id == Some(id) && BitIndices(a.bits) != {} && a.Genuine()
    }

    constructor ()
      ensures Valid() && groups == map[] && stored == {}
    {
      groups, stored := map[], {};
    }

    ghost function VotesFor(id: Id): set<nat>
      reads this, stored
      requires Valid()
    {
      if id in groups then Votes(groups[id].atts) else {}
    }

    /** One stored attestation alone has all these votes. */
    ghost predicate CarriedByOne(id: Id, votes: set<nat>)
      reads this, stored
      requires Valid()
    {
      id in groups && exists a :: a in groups[id].atts && votes <= BitIndices(a.bits)
    }

    /** A single vote for a position the first attestation of its group has no bit for. */
    ghost predicate VoteOutOfRange(att: Attestation)
      reads this, stored, att
      requires Valid()
    {
      && att.id.Some? && att.id.value in groups
      && |BitIndices(att.bits)| == 1
      && exists i :: i in BitIndices(att.bits) && i >= |groups[att.id.value].atts[0].bits|
    }

    /** No stored attestation of another id changes. */
    twostate predicate OthersUntouched(id: Option<Id>)
      reads this, stored
    {
      && old(stored) <= stored
      && (forall a :: a in old(stored) && a.id != id ==> a.bits == old(a.bits) && a.signature == old(a.signature))
      && (forall i :: Some(i) != id ==> (i in groups <==> i in old(groups)))
      && (forall i :: i in old(groups) && Some(i) != id ==> i in groups && groups[i] == old(groups[i]))
    }

    /** Every attestation held before keeps its bits and signature, but perhaps the given one. */
    twostate predicate UnchangedBut(x: Attestation?)
      reads this, stored
    {
      && old(stored) <= stored
      && forall a :: a in old(stored) && a != x ==> a.bits == old(a.bits) && a.signature == old(a.signature)
    }

    /** A copy of the aggregate is now the last of its group, and nothing else has changed. */
    twostate predicate Appended(id: Id, att: Attestation)
      reads this, stored, att
    {
      && UnchangedBut(null)
      && id in old(groups) && id in groups
      && var was, now := old(groups)[id].atts, groups[id].atts;
      && groups == old(groups)[id := Group(old(groups)[id].slot, now)]
      && |now| == |was| + 1 && now[..|was|] == was
      && now[|was|] in stored && now[|was|] !in old(stored) && now[|was|] != att
      && IsCopy(now[|was|], att)
    }

    ghost predicate IsCopy(a: Attestation, att: Attestation)
      reads a, att
    {
      a.id == att.id && a.slot == att.slot && a.bits == att.bits && a.signature == att.signature
    }

    /** The lists have stayed, and only their first attestation has changed: it has the vote's bit, if it has
        room for it, and the vote's signature, unless it had the bit before. */
    twostate predicate Folded(id: Id, bit: nat, signature: multiset<nat>)
      reads this, stored
    {
      && groups == old(groups) && stored == old(stored)
      && id in groups && groups[id].atts != []
      && var first := groups[id].atts[0];
      && first in stored && UnchangedBut(first)
      && first.bits == (if bit < |old(first.bits)| then old(first.bits)[bit := true] else old(first.bits))
      && first.signature == old(first.signature)
           + (if bit < |old(first.bits)| && old(first.bits)[bit] then multiset{} else signature)
    }

    /** Adds an attestation whose signature matches its bits.  A nil or empty one is ignored and one
        without an id is refused.  Otherwise the group's votes become the old ones plus the new ones,
        and every signature still matches its bits, unless and only unless the attestation is a single
        vote for a position beyond the first attestation's bits. */
    method Add(att: Attestation?, signatureError: bool) returns (r: Result)
      requires Valid() && (att != null ==> att.Genuine())
      modifies this, stored
      ensures att == null || BitIndices(old(att.bits)) == {} || att.id.None? || r.Error? ==>
                Valid() && groups == old(groups) && OthersUntouched(None)
      ensures att != null && BitIndices(old(att.bits)) != {} && att.id.None? ==> r.Error?
      ensures r.Error? ==> att != null && (att.id.None? || signatureError)
      ensures att != null && BitIndices(old(att.bits)) != {} && att.id.Some? && r.Ok? ==>
                && OthersUntouched(att.id)
                && (Valid() <==> !old(VoteOutOfRange(att)))
                && (Valid() ==> VotesFor(att.id.value) == old(VotesFor(att.id.value)) + BitIndices(old(att.bits)))
                && (Valid() ==> CarriedByOne(att.id.value, BitIndices(old(att.bits))))
                && (att.id.value !in old(groups) ==>
                      && groups == old(groups)[att.id.value := Group(att.slot, [att])]
                      && UnchangedBut(null) && att.bits == old(att.bits))
      ensures att != null && BitIndices(old(att.bits)) != {} && att.id.Some? && att.id.value in old(groups) ==>
                if |BitIndices(old(att.bits))| > 1 then r.Ok? && Appended(att.id.value, att)
                else forall bit :: bit in BitIndices(old(att.bits)) ==>
                       && (r.Error? <==> signatureError && !old(BitAt(groups[att.id.value].atts[0].bits, bit)))
                       && (r.Ok? ==> Folded(att.id.value, bit, old(att.signature)))
      ensures fresh(stored - old(stored) - {att})
    {
      if att == null {
        return Ok;
      }
      if BitIndices(att.bits) == {} {
        return Ok;
      }
      if att.id.None? {
        return Error;
      }
      r := Insert(att, att.id.value, signatureError);
    }

    /** Opens a group, appends an aggregate's copy, or folds a single vote. */
    method Insert(att: Attestation, id: Id, signatureError: bool) returns (r: Result)
      requires Valid() && att.Genuine() && BitIndices(att.bits) != {} && att.id == Some(id)
      modifies this, stored
      ensures r.Error? ==> signatureError && Valid() && groups == old(groups) && OthersUntouched(None)
      ensures r.Ok? ==> OthersUntouched(Some(id))
      ensures r.Ok? ==> (Valid() <==> !old(VoteOutOfRange(att)))
      ensures r.Ok? && Valid() ==>
                && VotesFor(id) == old(VotesFor(id)) + BitIndices(old(att.bits))
                && CarriedByOne(id, BitIndices(old(att.bits)))
      ensures id !in old(groups) ==>
                && r.Ok? && groups == old(groups)[id := Group(att.slot, [att])]
                && UnchangedBut(null) && att.bits == old(att.bits)
      ensures id in old(groups) ==>
                if |BitIndices(old(att.bits))| > 1 then r.Ok? && Appended(id, att)
                else forall bit :: bit in BitIndices(old(att.bits)) ==>
                       && (r.Error? <==> signatureError && !old(BitAt(groups[id].atts[0].bits, bit)))
                       && (r.Ok? ==> Folded(id, bit, old(att.signature)))
      ensures fresh(stored - old(stored) - {att})
    {
      if id !in groups {
        NewGroup(att, id);
        return Ok;
      }
      if |BitIndices(att.bits)| > 1 {
        AppendCopy(att, id);
        return Ok;
      }
      assert groups[id].atts[0] in groups[id].atts;
      ghost var bit;
      r, bit := FoldIntoFirst(att, id, signatureError);
    }

    method FoldIntoFirst(att: Attestation, id: Id, signatureError: bool) returns (r: Result, ghost bit: nat)
      requires Valid() && att.Genuine() && att.id == Some(id) && id in groups && |BitIndices(att.bits)| == 1
      modifies groups[id].atts[0]
      ensures BitIndices(old(att.bits)) == {bit}
      ensures r.Error? ==> signatureError && Valid() && OthersUntouched(None)
      ensures r.Ok? ==> OthersUntouched(Some(id))
      ensures r.Ok? ==> (Valid() <==> !old(VoteOutOfRange(att)))
      ensures r.Ok? && Valid() ==>
                && VotesFor(id) == old(VotesFor(id)) + BitIndices(old(att.bits))
                && CarriedByOne(id, BitIndices(old(att.bits)))
      ensures r.Error? <==> signatureError && !old(BitAt(groups[id].atts[0].bits, bit))
      ensures r.Ok? ==> Folded(id, bit, old(att.signature))
    {
      var a := groups[id].atts[0];
      assert a in groups[id].atts;
      assert a.id == Some(id);
      r, bit := FoldVote(att, id, a, signatureError);
    }

    method NewGroup(att: Attestation, id: Id)
      requires Valid() && att.Genuine() && BitIndices(att.bits) != {} && att.id == Some(id) && id !in groups
      modifies this
      ensures Valid() && OthersUntouched(Some(id)) && UnchangedBut(null)
      ensures groups == old(groups)[id := Group(att.slot, [att])] && stored == old(stored) + {att}
      ensures VotesFor(id) == BitIndices(att.bits) && CarriedByOne(id, BitIndices(att.bits))
    {
      groups := groups[id := Group(att.slot, [att])];
      stored := stored + {att};
      assert groups[id].atts[0] == att;
    }

    method AppendCopy(att: Attestation, id: Id)
      requires Valid() && att.Genuine() && BitIndices(att.bits) != {} && att.id == Some(id) && id in groups
      modifies this
      ensures Valid() && Appended(id, att) && fresh(stored - old(stored))
      ensures VotesFor(id) == old(VotesFor(id)) + BitIndices(att.bits) && CarriedByOne(id, BitIndices(att.bits))
    {
      var copy := new Attestation(att.id, att.slot, att.bits, att.signature);
      ghost var was := groups[id].atts;
      VotesOfAppend(was, copy);
      groups := groups[id := groups[id].(atts := groups[id].atts + [copy])];
      stored := stored + {copy};
      assert groups[id].atts == was + [copy];
    }

    /** Adds a single vote to the first attestation of its group, in place. */
    method FoldVote(att: Attestation, id: Id, a: Attestation, signatureError: bool) returns (r: Result, ghost bit: nat)
      requires Valid() && att.Genuine() && att.id == Some(id) && id in groups && a == groups[id].atts[0]
      requires |BitIndices(att.bits)| == 1
      modifies a
      ensures BitIndices(old(att.bits)) == {bit}
      ensures r.Error? ==> signatureError && Valid() && a.bits == old(a.bits) && a.signature == old(a.signature)
      ensures r.Ok? ==>
                && (Valid() <==> !old(VoteOutOfRange(att)))
                && (Valid() ==> VotesFor(id) == old(VotesFor(id)) + BitIndices(old(att.bits)))
                && (Valid() ==> CarriedByOne(id, BitIndices(old(att.bits))))
      ensures r.Error? <==> signatureError && !old(BitAt(a.bits, bit))
      ensures r.Ok? ==> a.bits == SetBitAt(old(a.bits), bit)
      ensures r.Ok? ==>
                a.signature == old(a.signature) + (if old(BitAt(a.bits, bit)) then multiset{} else old(att.signature))
    {
      var i := SoleIndex(att.bits);
      bit := i;
      if BitAt(a.bits, i) {
        assert i in BitIndices(a.bits);
        VotesOfFirst(groups[id].atts);
        return Ok, bit;
      }
      if signatureError {
        return Error, bit;
      }
      AddToFirst(id, a, i, att.signature);
      return Ok, bit;
    }

    /** The bit becomes a vote of the group, if the first attestation has room for it; if not, its
        signature no longer matches its bits. */
    method AddToFirst(id: Id, a: Attestation, bit: nat, sig: multiset<nat>)
      requires Valid() && id in groups && a == groups[id].atts[0]
      requires bit !in BitIndices(a.bits) && sig == multiset{bit}
      modifies a
      ensures Valid() <==> bit < |old(a.bits)|
      ensures Valid() ==> VotesFor(id) == old(VotesFor(id)) + {bit} && bit in BitIndices(a.bits)
      ensures a.bits == SetBitAt(old(a.bits), bit) && a.signature == old(a.signature) + sig
    {
      ghost var atts := groups[id].atts;
      assert a in atts && Fits(a, id);
      a.AddVote(bit, sig);
      assert forall x :: x in stored && x != a ==> x.bits == old(x.bits) && x.signature == old(x.signature);
      if bit < |old(a.bits)| {
        assert Fits(a, id);
        forall i
          ensures i in Votes(atts) <==> i in old(Votes(atts)) || i == bit
        {
          if i in old(Votes(atts)) {
            var k :| 0 <= k < |atts| && i in old(BitIndices(atts[k].bits));
            assert i in BitIndices(atts[k].bits);
          }
        }
      }
    }

    /** Drops, in place, the attestations of the group whose bits the given one contains.  When a list
        of another length is met the call stops with an error and leaves the half-compacted list.
        Either way only votes of the argument are lost, and a group never becomes empty. */
    method DeleteCovered(att: Attestation?) returns (r: Result)
      requires Valid()
      modifies this`groups
      ensures Valid()
      ensures att == null ==> r.Ok? && groups == old(groups)
      ensures att != null && att.id.None? ==> r.Error? && groups == old(groups)
      ensures att != null && att.id.Some? ==>
                var id := att.id.value;
                && SameElsewhere(old(groups), groups, id)
                && old(VotesFor(id)) - BitIndices(att.bits) <= VotesFor(id) <= old(VotesFor(id))
                && (id !in old(groups) ==> r.Ok? && id !in groups)
                && (id in old(groups) && r.Ok? ==>
                      var kept := Uncovered(old(groups)[id].atts, att.bits);
                      && (id in groups <==> kept != [])
                      && (id in groups ==> groups[id] == old(groups)[id].(atts := kept)))
                && (r.Error? <==> id in old(groups) && LengthMismatch(old(groups)[id].atts, att.bits))
    {
      if att == null {
        return Ok;
      }
      if att.id.None? {
        return Error;
      }
      var id := att.id.value;
      if id !in groups {
        return Ok;
      }
      r := DeleteCoveredFrom(id, att.bits);
    }

    method DeleteCoveredFrom(id: Id, bits: seq<bool>) returns (r: Result)
      requires Valid() && id in groups
      modifies this`groups
      ensures Valid()
      ensures SameElsewhere(old(groups), groups, id)
      ensures old(VotesFor(id)) - BitIndices(bits) <= VotesFor(id) <= old(VotesFor(id))
      ensures r.Error? <==> LengthMismatch(old(groups)[id].atts, bits)
      ensures r.Ok? ==> (id in groups <==> Uncovered(old(groups)[id].atts, bits) != [])
      ensures r.Ok? && id in groups ==> groups[id] == old(groups)[id].(atts := Uncovered(old(groups)[id].atts, bits))
    {
      var group := groups[id];
      var failed, kept := Compact(group.atts, bits);
      KeptVotes(group.atts, kept, bits);
      r := if failed then Error else Ok;
      if !failed && |kept| == 0 {
        DropGroup(id);
      } else {
        ReplaceGroup(id, kept);
      }
    }

    method DropGroup(id: Id)
      requires Valid()
      modifies this`groups
      ensures Valid() && id !in groups && SameElsewhere(old(groups), groups, id)
      ensures VotesFor(id) == {}
    {
      groups := groups - {id};
    }

    method ReplaceGroup(id: Id, kept: seq<Attestation>)
      requires Valid() && id in groups && kept != [] && forall a :: a in kept ==> a in groups[id].atts
      modifies this`groups
      ensures Valid() && id in groups && groups[id] == old(groups)[id].(atts := kept) && VotesFor(id) == Votes(kept)
      ensures SameElsewhere(old(groups), groups, id)
    {
      groups := groups[id := groups[id].(atts := kept)];
    }

    /** The number of attestations held, whatever order the groups are visited in. */
    method Count() returns (count: nat)
      ensures count == TotalCount(groups)
    {
      var rest := groups;
      count := 0;
      while rest != map[]
        invariant count + TotalCount(rest) == TotalCount(groups)
        decreases |rest|
      {
        var id :| id in rest;
        TotalWithout(rest, id);
        count := count + |rest[id].atts|;
        rest := rest - {id};
      }
    }

    /** Deletes the groups of earlier slots and no others; the number returned is what Count loses. */
    method PruneBefore(slot: nat) returns (pruned: nat)
      requires Valid()
      modifies this`groups
      ensures Valid()
      ensures groups == map id | id in old(groups) && old(groups)[id].slot >= slot :: old(groups)[id]
      ensures pruned + TotalCount(groups) == TotalCount(old(groups))
    {
      ghost var was := groups;
      var rest := groups.Keys;
      pruned := 0;
      assert Remaining(was, rest, slot) == was;
      while rest != {}
        invariant rest <= was.Keys && groups == Remaining(was, rest, slot)
        invariant pruned + TotalCount(groups) == TotalCount(was)
        decreases |rest|
      {
        var id :| id in rest;
        RemainingWithout(was, rest, slot, id);
        rest := rest - {id};
        if groups[id].slot < slot {
          TotalWithout(groups, id);
          pruned := pruned + |groups[id].atts|;
          groups := groups - {id};
        }
      }
    }

    /** Whether one stored attestation alone already carries all the bits.  The scan stops at the first
        list of another length, with an error, unless it has found such an attestation before. */
    method AggregateIsRedundant(att: Attestation?) returns (redundant: bool, r: Result)
      requires Valid()
      ensures att == null ==> redundant && r.Ok?
      ensures att != null && att.id.None? ==> redundant && r.Error?
      ensures att != null && att.id.Some? && att.id.value !in groups ==> !redundant && r.Ok?
      ensures att != null && att.id.Some? && att.id.value in groups ==>
                var atts := groups[att.id.value].atts;
                && (r.Ok? ==>
                      (redundant <==> exists a :: a in atts && |a.bits| == |att.bits| && Contains(a.bits, att.bits)))
                && (r.Error? ==> redundant)
                && (r.Error? <==> exists k :: 0 <= k < |atts| && |atts[k].bits| != |att.bits|
                                              && forall j :: 0 <= j < k ==> !Contains(atts[j].bits, att.bits))
    {
      if att == null {
        return true, Ok;
      }
      if att.id.None? {
        return true, Error;
      }
      if att.id.value !in groups {
        return false, Ok;
      }
      var atts := groups[att.id.value].atts;
      for k := 0 to |atts|
        invariant forall j :: 0 <= j < k ==> |atts[j].bits| == |att.bits| && !Contains(atts[j].bits, att.bits)
      {
        if |atts[k].bits| != |att.bits| {
          return true, Error;
        }
        if Contains(atts[k].bits, att.bits) {
          return true, Ok;
        }
      }
      return false, Ok;
    }
  }

  /** Some list has another length than the bits. */
  ghost predicate LengthMismatch(atts: seq<Attestation>, bits: seq<bool>)
    reads atts
  {
    exists a :: a in atts && |a.bits| != |bits|
  }

  /** The attestations not covered by the bits, in order. */
  ghost function Uncovered(atts: seq<Attestation>, bits: seq<bool>): seq<Attestation>
    reads atts
  {
    if atts == [] then []
    else
      var a := atts[|atts| - 1];
      Uncovered(atts[..|atts| - 1], bits) + (if Contains(bits, a.bits) then [] else [a])
  }

  lemma {:induction false} UncoveredMembers(atts: seq<Attestation>, bits: seq<bool>)
    ensures forall a :: a in Uncovered(atts, bits) <==> a in atts && !Contains(bits, a.bits)
    ensures |Uncovered(atts, bits)| <= |atts|
  {
    if atts != [] {
      UncoveredMembers(atts[..|atts| - 1], bits);
      assert atts == atts[..|atts| - 1] + [atts[|atts| - 1]];
    }
  }

  /** They are the uncovered attestations of the list, each at its place, and in the same order. */
  lemma {:induction false} UncoveredInOrder(atts: seq<Attestation>, bits: seq<bool>) returns (at: seq<nat>)
    ensures |at| == |Uncovered(atts, bits)| && forall k :: 0 <= k < |at| ==> at[k] < |atts|
    ensures forall k :: 0 <= k < |at| ==> Uncovered(atts, bits)[k] == atts[at[k]]
    ensures forall j, k :: 0 <= j < k < |at| ==> at[j] < at[k]
    ensures forall i: nat :: i < |atts| ==> (i in at <==> !(BitIndices(atts[i].bits) <= BitIndices(bits)))
  {
    if atts == [] {
      at := [];
    } else {
      var n := |atts| - 1;
      at := UncoveredInOrder(atts[..n], bits);
      ContainsIsSubset(bits, atts[n].bits);
      if !Contains(bits, atts[n].bits) { at := at + [n]; }
    }
  }

  /** What deleting proper subsets only would leave. */
  ghost function NotProperlyCovered(atts: seq<Attestation>, bits: seq<bool>): seq<Attestation>
    reads atts
  {
    if atts == [] then []
    else
      var a := atts[|atts| - 1];
      NotProperlyCovered(atts[..|atts| - 1], bits) + (if BitIndices(a.bits) < BitIndices(bits) then [] else [a])
  }

  ghost function SameBits(atts: seq<Attestation>, bits: seq<bool>): nat
    reads atts
  {
    if atts == [] then 0
    else
      var a := atts[|atts| - 1];
      SameBits(atts[..|atts| - 1], bits) + (if BitIndices(a.bits) == BitIndices(bits) then 1 else 0)
  }

  /** Each attestation of exactly these bits makes the difference of one. */
  lemma {:induction false} EqualBitsAreMissing(atts: seq<Attestation>, bits: seq<bool>)
    ensures |NotProperlyCovered(atts, bits)| == |Uncovered(atts, bits)| + SameBits(atts, bits)
    ensures SameBits(atts, bits) == 0 ==> NotProperlyCovered(atts, bits) == Uncovered(atts, bits)
    ensures SameBits(atts, bits) == 0 <==> forall a :: a in atts ==> BitIndices(a.bits) != BitIndices(bits)
  {
    if atts != [] {
      EqualBitsAreMissing(atts[..|atts| - 1], bits);
      ContainsIsSubset(bits, atts[|atts| - 1].bits);
      assert atts == atts[..|atts| - 1] + [atts[|atts| - 1]];
    }
  }

  /** Deleting the covered ones deletes just the proper subsets exactly when none has the very bits. */
  lemma {:induction false} ProperSubsetsIff(atts: seq<Attestation>, bits: seq<bool>)
    ensures Uncovered(atts, bits) == NotProperlyCovered(atts, bits) <==>
            forall a :: a in atts ==> BitIndices(a.bits) != BitIndices(bits)
  {
    EqualBitsAreMissing(atts, bits);
  }

  /** The compaction loop: what it keeps is written over the front of the list it reads.  On success
      the kept front is returned, on a length mismatch the whole list as it then is. */
  method Compact(atts: seq<Attestation>, bits: seq<bool>) returns (failed: bool, kept: seq<Attestation>)
    ensures failed <==> LengthMismatch(atts, bits)
    ensures !failed ==> kept == Uncovered(atts, bits)
    ensures failed ==> |kept| == |atts|
    ensures forall a :: a in kept ==> a in atts
    ensures forall a :: a in atts && !Contains(bits, a.bits) ==> a in kept
  {
    kept := atts;
    var idx := 0;
    for i := 0 to |atts|
      invariant 0 <= idx <= i && |kept| == |atts|
      invariant kept[..idx] == Uncovered(atts[..i], bits)
      invariant forall k :: i <= k < |atts| ==> kept[k] == atts[k]
      invariant forall a :: a in kept ==> a in atts
      invariant forall k :: 0 <= k < i ==> |atts[k].bits| == |bits|
    {
      var a := kept[i];
      if |a.bits| != |bits| {
        UncoveredMembers(atts[..i], bits);
        StillThere(atts, kept, bits, i, idx);
        return true, kept;
      }
      assert atts[..i + 1][..i] == atts[..i];
      if !Contains(bits, a.bits) {
        kept := kept[idx := a];
        idx := idx + 1;
      }
    }
    assert atts[..|atts|] == atts;
    UncoveredMembers(atts, bits);
    return false, kept[..idx];
  }

  lemma {:induction false} StillThere(atts: seq<Attestation>, kept: seq<Attestation>, bits: seq<bool>, i: nat, idx: nat)
    requires idx <= i <= |atts| == |kept|
    requires kept[..idx] == Uncovered(atts[..i], bits)
    requires forall k :: i <= k < |atts| ==> kept[k] == atts[k]
    ensures forall a :: a in atts && !Contains(bits, a.bits) ==> a in kept
  {
    UncoveredMembers(atts[..i], bits);
    forall a | a in atts && !Contains(bits, a.bits)
      ensures a in kept
    {
      var k :| 0 <= k < |atts| && atts[k] == a;
      if k < i {
        assert a in atts[..i];
        assert a in kept[..idx];
      }
    }
  }

  lemma KeptVotes(atts: seq<Attestation>, kept: seq<Attestation>, bits: seq<bool>)
    requires forall a :: a in kept ==> a in atts
    requires forall a :: a in atts && !Contains(bits, a.bits) ==> a in kept
    ensures Votes(atts) - BitIndices(bits) <= Votes(kept) <= Votes(atts)
  {
    forall i | i in Votes(atts) - BitIndices(bits)
      ensures i in Votes(kept)
    {
      var k :| 0 <= k < |atts| && i in BitIndices(atts[k].bits);
      ContainsIsSubset(bits, atts[k].bits);
      assert atts[k] in kept;
    }
  }

  method SingleVote(bits: seq<bool>, bit: nat) returns (att: Attestation)
    requires bit < |bits| && bits[bit] && forall i :: 0 <= i < |bits| && bits[i] ==> i == bit
    ensures fresh(att) && att.id == Some(0) && att.slot == 0 && att.bits == bits
    ensures att.Genuine() && BitIndices(bits) == {bit}
  {
    att := new Attestation(Some(0), 0, bits, multiset{bit});
  }

  /** The failing case of Add: after a vote in a list of one bit, a vote for position 1 of a list of two
      is aggregated into the signature but not into the bits. */
  method VoteOutOfRangeBreaksSignature() returns (cache: AttestationCache)
    ensures !cache.Valid()
  {
    var short := SingleVote([true], 0);
    var long := SingleVote([false, true], 1);
    cache := new AttestationCache();
    var r := cache.Add(short, false);
    assert cache.VoteOutOfRange(long) by {
      assert cache.groups[0].atts[0] == short && 1 in BitIndices(long.bits);
    }
    r := cache.Add(long, false);
  }

  lemma OwnBitsCoverOne(att: Attestation)
    ensures Uncovered([att], att.bits) == [] && NotProperlyCovered([att], att.bits) == [att]
    ensures !LengthMismatch([att], att.bits)
  {
  }

  /** Deleting what an attestation covers deletes one with the very same bits, and here the group with it. */
  method EqualBitsAreDeleted(cache: AttestationCache, att: Attestation) returns (r: Result)
    requires cache.Valid() && att.id.Some? && att.id.value in cache.groups
    requires cache.groups[att.id.value].atts == [att]
    modifies cache`groups
    ensures NotProperlyCovered([att], att.bits) == [att]
    ensures r.Ok? && att.id.value !in cache.groups
  {
    OwnBitsCoverOne(att);
    r := cache.DeleteCovered(att);
  }

  /** Such a cache is one call away: an attestation added, then deleted by its own bits. */
  method AddedThenDeleted() returns (cache: AttestationCache, r: Result)
    ensures r.Ok? && 0 !in cache.groups
  {
    var att := SingleVote([true], 0);
    cache := new AttestationCache();
    r := cache.Add(att, false);
    r := EqualBitsAreDeleted(cache, att);
  }
}
