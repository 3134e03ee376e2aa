/** The light client store's non-finality cache: a forest of parent-linked heap items, each with the
    best update of its sync committee period seen on its branch, pruned when a block is finalized. */
module LightClientStore {
  import opened Common
  import opened LightClientOrder

  type Root = nat

  /** One attested block.  `own` is the update built for it; `seen` are the updates of its period the
      branch has been offered up to and including it, whatever has been pruned since. */
  class CacheItem {
    var parent: CacheItem?
    const period: nat
    const slot: nat
    const bestUpdate: Update
    const bestFinalityUpdate: Option<FinalityUpdate>
    ghost const own: Update
    ghost const seen: set<Update>

    constructor (parent: CacheItem?, period: nat, slot: nat, bestUpdate: Update,
                 bestFinalityUpdate: Option<FinalityUpdate>, ghost own: Update, ghost seen: set<Update>)
      ensures this.parent == parent && this.period == period && this.slot == slot
      ensures this.bestUpdate == bestUpdate && this.bestFinalityUpdate == bestFinalityUpdate
      ensures this.own == own && this.seen == seen
    {
      this.parent := parent;
      this.period := period;
      this.slot := slot;
      this.bestUpdate := bestUpdate;
      this.bestFinalityUpdate := bestFinalityUpdate;
      this.own := own;
      this.seen := seen;
    }
  }

  /** What looking up the finalized block gives. */
  datatype Lookup = LookupError | NoBlock | Found(slot: nat, parentRoot: Root)

  class Store {
    const cfg: Config
    const committee: nat
    /** The slot of the block with the given root. */
    const slotOf: Root -> nat

    var items: map<Root, CacheItem>
    var db: map<nat, Update>
    var lastFinalityUpdate: Option<FinalityUpdate>
    var lastOptimisticUpdate: Option<OptimisticUpdate>
    ghost var all: set<CacheItem>

    ghost predicate Fits(u: Update, period: nat) {
      cfg.Valid() && Period(cfg, u.attestedSlot) == period
    }

    /** The order applies to all of them. */
    ghost predicate AllWellFormed(updates: set<Update>) {
      forall u :: u in updates ==> WellFormed(u, committee)
    }

    ghost predicate Unbeaten(best: Update, updates: set<Update>)
      requires cfg.Valid()
    {
      forall u :: u in updates ==> !Beats(cfg, u, best)
    }

    /** best is one of the updates of the period, and none of them beats it if the order applies. */
    ghost predicate BestAmong(best: Update, updates: set<Update>, period: nat) {
      && cfg.Valid()
      && best in updates
      && (forall u :: u in updates ==> Fits(u, period))
      && (AllWellFormed(updates) ==> Unbeaten(best, updates))
    }

    /** What an item holds, which never changes. */
    ghost predicate HoldsBest(it: CacheItem) {
      && cfg.Valid()
      && it.period == Period(cfg, it.slot)
      && it.own in it.seen
      && BestAmong(it.bestUpdate, it.seen, it.period)
    }

    ghost predicate ItemOk(it: CacheItem)
      reads this`all, it
    {
      && HoldsBest(it)
      && (it.parent != null ==>
            && it.parent in all
            && it.parent.slot < it.slot
            && (it.parent.period == it.period ==> it.parent.seen <= it.seen))
    }

    ghost predicate Valid()
      reads this`items, this`db, this`all, all
    {
      && cfg.Valid()
      && (forall it {:trigger ItemOk(it)} :: it in all ==> ItemOk(it))
      && (forall r :: r in items ==> items[r] in all && items[r].slot == slotOf(r))
      && (forall p :: p in db ==> Fits(db[p], p))
    }

    /** Every update ever offered, and every one stored, is one the order applies to. */
    ghost predicate Uniform()
      reads this`db, this`all
    {
      && (forall it :: it in all ==> AllWellFormed(it.seen))
      && (forall p :: p in db ==> WellFormed(db[p], committee))
    }

    constructor (cfg: Config, committee: nat, slotOf: Root -> nat, db: map<nat, Update>)
      requires cfg.Valid()
      requires forall p :: p in db ==> Period(cfg, db[p].attestedSlot) == p
      ensures Valid() && items == map[] && all == {} && this.db == db
    {
      this.cfg, this.committee, this.slotOf, this.db := cfg, committee, slotOf, db;
      items, all := map[], {};
      lastFinalityUpdate, lastOptimisticUpdate := None, None;
    }

    /** The updates the new item competes with: its parent's if they are of the same period, the one
        in the database if the parent is not cached. */
    ghost function Rivals(parentRoot: Root, period: nat): set<Update>
      reads this`items, this`db
    {
      if parentRoot in items then
        if items[parentRoot].period == period then items[parentRoot].seen else {}
      else if period in db then {db[period]}
      else {}
    }

    /** The best of those, as it is stored. */
    ghost function RivalBest(parentRoot: Root, period: nat): Option<Update>
      reads this`items, this`db
    {
      if parentRoot in items then
        if items[parentRoot].period == period then Some(items[parentRoot].bestUpdate) else None
      else if period in db then Some(db[period])
      else None
    }

    /** Comparing the new update with the best so far fails. */
    ghost predicate NotComparable(update: Update, rivalBest: Option<Update>) {
      cfg.Valid() && IsBetterUpdate(cfg, update, rivalBest).Err?
    }

    /** The new update, unless there is a best one which it does not beat. */
    ghost predicate IsChoice(best: Update, update: Update, rivalBest: Option<Update>) {
      && cfg.Valid()
      && best == if rivalBest.Some? && !Beats(cfg, update, rivalBest.value) then rivalBest.value else update
    }

    /** The finality update the new item's own one competes with. */
    ghost function FinalityRival(parentRoot: Root, period: nat): Option<FinalityUpdate>
      reads this`items, this`lastFinalityUpdate
    {
      if parentRoot in items then
        if items[parentRoot].period == period then items[parentRoot].bestFinalityUpdate else None
      else lastFinalityUpdate
    }

    ghost predicate BestFinality(best: Option<FinalityUpdate>, rival: Option<FinalityUpdate>, own: FinalityUpdate) {
      && best.Some?
      && best in {rival, Some(own)}
      && !IsBetterFinalityUpdate(own, best)
      && (rival.Some? ==> !IsBetterFinalityUpdate(rival.value, best))
    }

    /** Stores the data of an attested block.  The block's own update and the two derived ones are
        taken as inputs; `dbError` is the database read failing. */
    method SaveLCData(blockRoot: Root, parentRoot: Root, update: Update, finalityUpdate: FinalityUpdate,
                      optimisticUpdate: OptimisticUpdate, newBlockIsHead: bool, dbError: bool)
      returns (ok: bool)
      requires Valid()
      requires slotOf(parentRoot) < slotOf(blockRoot)
      requires update.attestedSlot == slotOf(blockRoot)
      modifies this`items, this`all, this`lastFinalityUpdate, this`lastOptimisticUpdate
      ensures Valid()
      ensures old(Uniform()) && WellFormed(update, committee) ==> Uniform()
      ensures ok <==> old(CanSave(parentRoot, PeriodOf(blockRoot), update, dbError))
      ensures !ok ==> items == old(items) && all == old(all) && lastFinalityUpdate == old(lastFinalityUpdate)
                      && lastOptimisticUpdate == old(lastOptimisticUpdate)
      ensures ok ==>
        && blockRoot in items && fresh(items[blockRoot])
        && items == old(items)[blockRoot := items[blockRoot]]
        && all == old(all) + {items[blockRoot]}
        && items[blockRoot].own == update
        && items[blockRoot].seen == old(Rivals(parentRoot, PeriodOf(blockRoot))) + {update}
        && items[blockRoot].parent == old(CachedParent(parentRoot))
      ensures ok ==> IsChoice(items[blockRoot].bestUpdate, update, old(RivalBest(parentRoot, PeriodOf(blockRoot))))
      ensures ok ==> BestFinality(items[blockRoot].bestFinalityUpdate,
                                  old(FinalityRival(parentRoot, PeriodOf(blockRoot))), finalityUpdate)
      ensures ok ==> lastFinalityUpdate ==
                       if newBlockIsHead then items[blockRoot].bestFinalityUpdate else old(lastFinalityUpdate)
      ensures ok ==> lastOptimisticUpdate == old(NewOptimistic(parentRoot, PeriodOf(blockRoot), optimisticUpdate))
    {
      var period := Period(cfg, update.attestedSlot);
      var parent, best, bestFinality, optimistic;
      ok, parent, best, bestFinality, optimistic :=
        Decide(parentRoot, period, update, finalityUpdate, optimisticUpdate, dbError);
      if !ok {
        return;
      }
      ghost var rivals := Rivals(parentRoot, period);
      RivalsWellFormed(parentRoot, period, update);
      Commit(blockRoot, parent, period, best, bestFinality, update, rivals + {update}, optimistic, newBlockIsHead);
    }

    ghost function PeriodOf(r: Root): nat
      requires cfg.Valid()
    {
      Period(cfg, slotOf(r))
    }

    /** The database is not needed or answers, and the comparison, if there is one, succeeds. */
    ghost predicate CanSave(parentRoot: Root, period: nat, update: Update, dbError: bool)
      reads this`items, this`db
    {
      && (dbError ==> parentRoot in items)
      && !NotComparable(update, RivalBest(parentRoot, period))
    }

    ghost function CachedParent(parentRoot: Root): CacheItem?
      reads this`items
    {
      if parentRoot in items then items[parentRoot] else null
    }

    /** The optimistic update replaces the last one at a period boundary, or if it attests to a later slot. */
    ghost function NewOptimistic(parentRoot: Root, period: nat, u: OptimisticUpdate): Option<OptimisticUpdate>
      reads this`items, this`lastOptimisticUpdate
    {
      var boundary := parentRoot in items && items[parentRoot].period != period;
      var later := lastOptimisticUpdate.Some? ==> lastOptimisticUpdate.value.attestedSlot < u.attestedSlot;
      if boundary || later then Some(u) else lastOptimisticUpdate
    }

    /** All that is computed and compared before anything is stored. */
    method Decide(parentRoot: Root, period: nat, update: Update, finalityUpdate: FinalityUpdate,
                  optimisticUpdate: OptimisticUpdate, dbError: bool)
      returns (ok: bool, parent: CacheItem?, best: Update, bestFinality: Option<FinalityUpdate>,
               optimistic: Option<OptimisticUpdate>)
      requires Valid() && Fits(update, period)
      ensures ok <==> CanSave(parentRoot, period, update, dbError)
      ensures ok ==> parent == CachedParent(parentRoot)
      ensures ok && parent != null ==>
                && parent in all
                && parent.slot == slotOf(parentRoot)
                && (parent.period == period ==> parent.seen <= Rivals(parentRoot, period))
      ensures ok ==> BestAmong(best, Rivals(parentRoot, period) + {update}, period)
      ensures ok ==> IsChoice(best, update, RivalBest(parentRoot, period))
      ensures ok ==> BestFinality(bestFinality, FinalityRival(parentRoot, period), finalityUpdate)
      ensures ok ==> optimistic == NewOptimistic(parentRoot, period, optimisticUpdate)
    {
      best, bestFinality, optimistic, parent := update, None, None, null;
      if parentRoot !in items && dbError {
        return false, parent, best, bestFinality, optimistic;
      }
      var parentPeriod, parentBest, parentFinality;
      parent, parentPeriod, parentBest, parentFinality := ParentData(parentRoot, period);
      var choice := BestUpdate(update, period, parentPeriod, parentBest, Rivals(parentRoot, period));
      if choice.Err? {
        return false, parent, best, bestFinality, optimistic;
      }
      bestFinality, optimistic := BestOthers(finalityUpdate, optimisticUpdate, parentPeriod == period, parentFinality);
      return true, parent, choice.value, bestFinality, optimistic;
    }

    lemma RivalsWellFormed(parentRoot: Root, period: nat, update: Update)
      requires Valid()
      ensures Uniform() ==> AllWellFormed(Rivals(parentRoot, period))
      ensures Uniform() && WellFormed(update, committee) ==> !NotComparable(update, RivalBest(parentRoot, period))
    {
      if Uniform() && WellFormed(update, committee) {
        var best := RivalBest(parentRoot, period);
        if best.Some? {
          if parentRoot in items {
            assert ItemOk(items[parentRoot]);
          }
          BeatsIsAsymmetric(cfg, update, best.value, committee);
        }
      }
    }

    /** At a period boundary the new update is taken as it is; otherwise it is compared. */
    method BestUpdate(update: Update, period: nat, parentPeriod: nat, parentBest: Option<Update>,
                      ghost rivals: set<Update>)
      returns (best: Result<Update>)
      requires Fits(update, period)
      requires parentPeriod != period ==> rivals == {}
      requires parentPeriod == period ==>
                 if parentBest.Some? then BestAmong(parentBest.value, rivals, period) else rivals == {}
      ensures best.Err? <==> parentPeriod == period && NotComparable(update, parentBest)
      ensures best.Ok? ==> BestAmong(best.value, rivals + {update}, period)
      ensures best.Ok? ==> IsChoice(best.value, update, if parentPeriod == period then parentBest else None)
    {
      if parentPeriod != period {
        AloneIsBest(update, period);
        assert rivals + {update} == {update};
        return Ok(update);
      }
      best := Better(update, parentBest, rivals, period);
    }

    method BestOthers(finalityUpdate: FinalityUpdate, optimisticUpdate: OptimisticUpdate, samePeriod: bool,
                      parentFinality: Option<FinalityUpdate>)
      returns (bestFinality: Option<FinalityUpdate>, optimistic: Option<OptimisticUpdate>)
      ensures BestFinality(bestFinality, if samePeriod then parentFinality else None, finalityUpdate)
      ensures optimistic == if !samePeriod || IsBetterOptimisticUpdate(optimisticUpdate, lastOptimisticUpdate)
                            then Some(optimisticUpdate) else lastOptimisticUpdate
    {
      bestFinality, optimistic := Some(finalityUpdate), Some(optimisticUpdate);
      if !samePeriod {
        return;
      }
      if !IsBetterFinalityUpdate(finalityUpdate, parentFinality) {
        bestFinality := parentFinality;
      }
      if !IsBetterOptimisticUpdate(optimisticUpdate, lastOptimisticUpdate) {
        optimistic := lastOptimisticUpdate;
      }
    }

    /** The cached parent, or a stand-in made from the database's best update and the last finality update. */
    method ParentData(parentRoot: Root, period: nat)
      returns (parent: CacheItem?, parentPeriod: nat, best: Option<Update>, finality: Option<FinalityUpdate>)
      requires Valid()
      ensures if parentRoot in items
              then parent == items[parentRoot] && parentPeriod == parent.period && finality == parent.bestFinalityUpdate
              else parent == null && parentPeriod == period && finality == lastFinalityUpdate
      ensures parent != null ==> parent in all && parent.slot == slotOf(parentRoot)
      ensures parent != null ==> Rivals(parentRoot, period) == (if parent.period == period then parent.seen else {})
      ensures RivalBest(parentRoot, period) == (if parentPeriod == period then best else None)
      ensures FinalityRival(parentRoot, period) == (if parentPeriod == period then finality else None)
      ensures parentPeriod != period ==> Rivals(parentRoot, period) == {}
      ensures parentPeriod == period ==>
                if best.Some? then BestAmong(best.value, Rivals(parentRoot, period), period)
                else Rivals(parentRoot, period) == {}
    {
      if parentRoot in items {
        parent := items[parentRoot];
        assert ItemOk(parent);
        return parent, parent.period, Some(parent.bestUpdate), parent.bestFinalityUpdate;
      }
      if period in db {
        AloneIsBest(db[period], period);
        return null, period, Some(db[period]), lastFinalityUpdate;
      }
      return null, period, None, lastFinalityUpdate;
    }

    lemma AloneIsBest(u: Update, period: nat)
      requires Fits(u, period)
      ensures BestAmong(u, {u}, period)
    {
      if AllWellFormed({u}) {
        BeatsIsAsymmetric(cfg, u, u, committee);
      }
    }

    /** The better of the new update and the best so far. */
    method Better(update: Update, bestSoFar: Option<Update>, ghost rivals: set<Update>, period: nat)
      returns (best: Result<Update>)
      requires Fits(update, period)
      requires if bestSoFar.Some? then BestAmong(bestSoFar.value, rivals, period) else rivals == {}
      ensures best.Err? <==> NotComparable(update, bestSoFar)
      ensures best.Ok? ==> BestAmong(best.value, rivals + {update}, period)
      ensures best.Ok? ==> IsChoice(best.value, update, bestSoFar)
    {
      var better := IsBetterUpdate(cfg, update, bestSoFar);
      if better.Err? {
        return Err;
      }
      if bestSoFar.None? {
        AloneIsBest(update, period);
        assert rivals + {update} == {update};
        return Ok(update);
      }
      NewBestIsBest(rivals, bestSoFar.value, update, period);
      best := Ok(if better.value then update else bestSoFar.value);
    }

    lemma NewBestIsBest(rivals: set<Update>, rivalBest: Update, update: Update, period: nat)
      requires BestAmong(rivalBest, rivals, period) && Fits(update, period)
      ensures BestAmong(if Beats(cfg, update, rivalBest) then update else rivalBest, rivals + {update}, period)
    {
      var best := if Beats(cfg, update, rivalBest) then update else rivalBest;
      if AllWellFormed(rivals + {update}) {
        assert AllWellFormed(rivals) && update in rivals + {update};
        BeatsIsAsymmetric(cfg, update, update, committee);
        forall u | u in rivals + {update}
          ensures !Beats(cfg, u, best)
        {
          if u in rivals && best == update && Beats(cfg, update, rivalBest) {
            NotBeatenCarriesOver(cfg, u, rivalBest, update, committee);
          }
        }
      }
    }

    /** Files the new item and sets the last updates. */
    method Commit(blockRoot: Root, parent: CacheItem?, period: nat, best: Update,
                  bestFinality: Option<FinalityUpdate>, ghost own: Update, ghost seen: set<Update>,
                  optimistic: Option<OptimisticUpdate>, newBlockIsHead: bool)
      requires Valid() && period == Period(cfg, slotOf(blockRoot))
      requires own in seen && BestAmong(best, seen, period)
      requires parent != null ==>
                 && parent in all
                 && parent.slot < slotOf(blockRoot)
                 && (parent.period == period ==> parent.seen <= seen)
      modifies this`items, this`all, this`lastFinalityUpdate, this`lastOptimisticUpdate
      ensures Valid() && (old(Uniform()) && AllWellFormed(seen) ==> Uniform())
      ensures blockRoot in items && fresh(items[blockRoot])
      ensures items == old(items)[blockRoot := items[blockRoot]]
      ensures all == old(all) + {items[blockRoot]}
      ensures var item := items[blockRoot];
              && item.own == own && item.seen == seen && item.parent == parent
              && item.bestUpdate == best && item.bestFinalityUpdate == bestFinality
      ensures lastOptimisticUpdate == optimistic
      ensures lastFinalityUpdate == if newBlockIsHead then bestFinality else old(lastFinalityUpdate)
    {
      AddItem(blockRoot, parent, period, best, bestFinality, own, seen);
      lastOptimisticUpdate := optimistic;
      if newBlockIsHead {
        lastFinalityUpdate := bestFinality;
      }
    }

    method AddItem(blockRoot: Root, parent: CacheItem?, period: nat, best: Update,
                   bestFinality: Option<FinalityUpdate>, ghost own: Update, ghost seen: set<Update>)
      requires Valid() && period == Period(cfg, slotOf(blockRoot))
      requires own in seen && BestAmong(best, seen, period)
      requires parent != null ==>
                 && parent in all
                 && parent.slot < slotOf(blockRoot)
                 && (parent.period == period ==> parent.seen <= seen)
      modifies this`items, this`all
      ensures Valid() && (old(Uniform()) && AllWellFormed(seen) ==> Uniform())
      ensures blockRoot in items && fresh(items[blockRoot])
      ensures items == old(items)[blockRoot := items[blockRoot]]
      ensures all == old(all) + {items[blockRoot]}
      ensures var item := items[blockRoot];
              && item.own == own && item.seen == seen && item.parent == parent
              && item.bestUpdate == best && item.bestFinalityUpdate == bestFinality
    {
      var item := new CacheItem(parent, period, slotOf(blockRoot), best, bestFinality, own, seen);
      items := items[blockRoot := item];
      all := all + {item};
      forall it | it in all
        ensures ItemOk(it)
      {
        if it != item { assert old(ItemOk(it)); }
      }
    }

    // -------------------------------------------------------------- branches

    /** The items from `it` down its parent pointers. */
    ghost function Chain(it: CacheItem): seq<CacheItem>
      requires Valid() && it in all
      reads this`items, this`db, this`all, all
      decreases it.slot
    {
      assert ItemOk(it);
      if it.parent == null then [it] else [it] + Chain(it.parent)
    }

    /** Per period, the best update of the item nearest the head of the list. */
    ghost function NearestByPeriod(chain: seq<CacheItem>): map<nat, Update> {
      if chain == [] then map[] else NearestByPeriod(chain[1..])[chain[0].period := chain[0].bestUpdate]
    }

    /** Slots strictly decrease along parent pointers, so every branch is finite. */
    lemma {:induction false} ChainDescends(it: CacheItem)
      requires Valid() && it in all
      ensures forall i :: 0 <= i < |Chain(it)| ==> Chain(it)[i] in all && Chain(it)[i].slot <= it.slot
      ensures forall i, j :: 0 <= i < j < |Chain(it)| ==> Chain(it)[j].slot < Chain(it)[i].slot
      decreases it.slot
    {
      assert ItemOk(it);
      if it.parent != null { ChainDescends(it.parent); }
    }

    /** A walk: each item is the parent of the one before. */
    ghost predicate IsWalk(path: seq<CacheItem>)
      reads path
    {
      path != [] && forall k :: 0 <= k < |path| - 1 ==> path[k].parent == path[k + 1]
    }

    /** The branch is the walk from the item to one without a parent. */
    lemma {:induction false} ChainIsWalk(it: CacheItem)
      requires Valid() && it in all
      ensures IsWalk(Chain(it)) && Chain(it)[0] == it && Chain(it)[|Chain(it)| - 1].parent == null
      decreases it.slot
    {
      assert ItemOk(it);
      if it.parent != null {
        ChainIsWalk(it.parent);
        assert Chain(it) == [it] + Chain(it.parent);
      }
    }

    lemma WalkPrefix(path: seq<CacheItem>, n: nat)
      requires IsWalk(path) && 0 < n <= |path|
      ensures IsWalk(path[..n]) && path[..n][0] == path[0] && path[..n][n - 1] == path[n - 1]
    {
    }

    /** Every walk from the item is the beginning of its branch. */
    lemma {:induction false} WalkIsOnChain(path: seq<CacheItem>)
      requires Valid() && IsWalk(path) && path[0] in all
      ensures path <= Chain(path[0])
      decreases |path|
    {
      assert ItemOk(path[0]);
      if |path| > 1 {
        assert forall k :: 0 <= k < |path| - 1 ==> path[1..][k] == path[k + 1];
        assert path[0].parent == path[1];
        WalkIsOnChain(path[1..]);
        assert path == [path[0]] + path[1..];
      }
    }

    /** Whatever an item of the same period down the branch has seen, the head has seen. */
    lemma {:induction false} BranchIsSeen(it: CacheItem, i: nat)
      requires Valid() && it in all && i < |Chain(it)| && Chain(it)[i].period == it.period
      ensures Chain(it)[i].seen <= it.seen
      decreases it.slot
    {
      if i > 0 {
        var a := Chain(it)[i];
        assert ItemOk(it);
        var p := it.parent;
        assert Chain(p)[i - 1] == a;
        ChainDescends(p);
        assert ItemOk(a) && ItemOk(p);
        PeriodMonotone(cfg, a.slot, p.slot);
        PeriodMonotone(cfg, p.slot, it.slot);
        BranchIsSeen(p, i - 1);
      }
    }

    /** Branch-best invariant, for updates the order applies to: no own update of a same-period item on an
        item's branch, the item itself included, beats the item's stored best update. */
    lemma {:induction false} BranchBest(it: CacheItem, i: nat)
      requires Valid() && it in all && i < |Chain(it)| && Chain(it)[i].period == it.period
      requires AllWellFormed(it.seen)
      ensures !Beats(cfg, Chain(it)[i].own, it.bestUpdate)
    {
      BranchIsSeen(it, i);
      ChainDescends(it);
      assert ItemOk(it) && ItemOk(Chain(it)[i]);
      assert Chain(it)[i].own in it.seen;
    }

    /** The periods the walk collects are exactly those on the branch, and what it collects for a
        period is an update of that period which no same-period own update on the branch beats. */
    lemma {:induction false} NearestIsBranchBest(it: CacheItem, i: nat)
      requires Valid() && it in all && i < |Chain(it)|
      ensures var a, m := Chain(it)[i], NearestByPeriod(Chain(it));
              a.period in m && Fits(m[a.period], a.period)
      ensures var a, m := Chain(it)[i], NearestByPeriod(Chain(it));
              Uniform() ==> WellFormed(m[a.period], committee) && !Beats(cfg, a.own, m[a.period])
      decreases it.slot
    {
      var chain := Chain(it);
      assert ItemOk(it);
      if chain[i].period == it.period {
        if Uniform() { BranchBest(it, i); }
      } else {
        assert chain[1..] == Chain(it.parent);
        NearestIsBranchBest(it.parent, i - 1);
      }
    }

    lemma {:induction false} NearestPeriods(chain: seq<CacheItem>, p: nat)
      ensures p in NearestByPeriod(chain) <==> exists i :: 0 <= i < |chain| && chain[i].period == p
    {
      if chain != [] {
        var rest := chain[1..];
        NearestPeriods(rest, p);
        assert forall i :: 0 < i < |chain| ==> chain[i] == rest[i - 1];
        if p in NearestByPeriod(rest) {
          var i :| 0 <= i < |rest| && rest[i].period == p;
          assert chain[i + 1].period == p;
        }
      }
    }

    /** The walk both queries and migration make: the first update met for a period is kept. */
    method CollectByPeriod(head: CacheItem) returns (byPeriod: map<nat, Update>)
      requires Valid() && head in all
      ensures byPeriod == NearestByPeriod(Chain(head))
    {
      byPeriod := map[];
      var item: CacheItem? := head;
      while item != null
        invariant item != null ==> item in all
        invariant NearestByPeriod(Chain(head)) ==
                    (if item == null then map[] else NearestByPeriod(Chain(item))) + byPeriod
        decreases if item == null then 0 else item.slot + 1
      {
        assert ItemOk(item);
        assert item.parent != null ==> Chain(item)[1..] == Chain(item.parent);
        if item.period !in byPeriod {
          byPeriod := byPeriod[item.period := item.bestUpdate];
        }
        item := item.parent;
      }
    }

    /** Every update is of the period it stands for, and one the order applies to if all are. */
    ghost predicate AllFit(known: map<nat, Update>)
      reads this`db, this`all
    {
      && (forall p :: p in known ==> Fits(known[p], p))
      && (Uniform() ==> forall p :: p in known ==> WellFormed(known[p], committee))
    }

    lemma {:induction false} NearestFits(it: CacheItem)
      requires Valid() && it in all
      ensures AllFit(NearestByPeriod(Chain(it)))
    {
      var chain := Chain(it);
      forall p | p in NearestByPeriod(chain)
        ensures Fits(NearestByPeriod(chain)[p], p)
        ensures Uniform() ==> WellFormed(NearestByPeriod(chain)[p], committee)
      {
        NearestPeriods(chain, p);
        var i :| 0 <= i < |chain| && chain[i].period == p;
        NearestIsBranchBest(it, i);
      }
    }

    /** The update collected for a period is that of the first item of the period on the branch. */
    lemma {:induction false} NearestIsFirst(chain: seq<CacheItem>, i: nat)
      requires i < |chain| && forall k :: 0 <= k < i ==> chain[k].period != chain[i].period
      ensures chain[i].period in NearestByPeriod(chain)
      ensures NearestByPeriod(chain)[chain[i].period] == chain[i].bestUpdate
    {
      if i > 0 {
        assert forall k :: 0 <= k < i - 1 ==> chain[1..][k] == chain[k + 1];
        assert chain[0].period != chain[i].period;
        NearestIsFirst(chain[1..], i - 1);
      }
    }

    // -------------------------------------------------------------- finalization

    /** The parent pointers of all items ever made. */
    ghost function Parents(): map<CacheItem, CacheItem?>
      reads this`all, all
    {
      map it | it in all :: it.parent
    }

    /** What becomes of a parent pointer when its item is visited. */
    static ghost function Cut(parent: CacheItem?, finalizedSlot: nat): CacheItem? {
      if parent != null && parent.slot < finalizedSlot then null else parent
    }

    static ghost function CutAll(parents: map<CacheItem, CacheItem?>, visited: set<CacheItem>, finalizedSlot: nat)
      : map<CacheItem, CacheItem?>
    {
      map it | it in parents :: if it in visited then Cut(parents[it], finalizedSlot) else parents[it]
    }

    static lemma CutOneMore(parents: map<CacheItem, CacheItem?>, visited: set<CacheItem>, finalizedSlot: nat,
                            v: CacheItem)
      requires v in parents
      ensures var now := CutAll(parents, visited, finalizedSlot);
              CutAll(parents, visited + {v}, finalizedSlot) == now[v := Cut(now[v], finalizedSlot)]
    {
    }

    /** The items left when those of `todo` are still to be visited. */
    ghost function Remaining(was: map<Root, CacheItem>, todo: set<Root>, finalizedSlot: nat): map<Root, CacheItem> {
      map r | r in was && (r in todo || was[r].slot >= finalizedSlot) :: was[r]
    }

    lemma RemainingWithout(was: map<Root, CacheItem>, todo: set<Root>, finalizedSlot: nat, k: Root)
      requires k in todo && todo <= was.Keys
      ensures Remaining(was, todo - {k}, finalizedSlot)
              == Remaining(was, todo, finalizedSlot) - (if was[k].slot < finalizedSlot then {k} else {})
    {
    }

    /** Forgets items below the finalized slot and cuts the cached ones off from such parents. */
    method CleanCache(finalizedSlot: nat)
      requires Valid()
      modifies this`items, all`parent
      ensures Valid()
      ensures items == map r | r in old(items) && old(items)[r].slot >= finalizedSlot :: old(items)[r]
      ensures Parents() == CutAll(old(Parents()), old(items).Values, finalizedSlot)
      ensures NoParentBelow(finalizedSlot)
    {
      ghost var was, visited: set<CacheItem> := items, {};
      ghost var parents := Parents();
      var todo := items.Keys;
      assert Remaining(was, todo, finalizedSlot) == was && CutAll(parents, visited, finalizedSlot) == parents;
      while todo != {}
        invariant todo <= was.Keys && Valid() && items == Remaining(was, todo, finalizedSlot)
        invariant visited <= was.Values && forall r :: r in was && r !in todo ==> was[r] in visited
        invariant Parents() == CutAll(parents, visited, finalizedSlot)
      {
        var k :| k in todo;
        RemainingWithout(was, todo, finalizedSlot, k);
        CutOneMore(parents, visited, finalizedSlot, items[k]);
        CleanOne(k, items[k], finalizedSlot);
        visited := visited + {was[k]};
        todo := todo - {k};
      }
      assert visited == was.Values;
      CutMeansNone(parents, was, finalizedSlot);
    }

    ghost predicate NoParentBelow(slot: nat)
      reads this`items, items.Values
    {
      forall r :: r in items && items[r].parent != null ==> items[r].parent.slot >= slot
    }

    lemma CutMeansNone(parents: map<CacheItem, CacheItem?>, was: map<Root, CacheItem>, slot: nat)
      requires Valid() && items == Remaining(was, {}, slot) && Parents() == CutAll(parents, was.Values, slot)
      ensures NoParentBelow(slot)
    {
      forall r | r in items && items[r].parent != null
        ensures items[r].parent.slot >= slot
      {
        assert items[r] == was[r] && items[r] in Parents();
      }
    }

    method CleanOne(k: Root, v: CacheItem, finalizedSlot: nat)
      requires Valid() && k in items && items[k] == v
      modifies this`items, v`parent
      ensures Valid()
      ensures items == old(items) - (if v.slot < finalizedSlot then {k} else {})
      ensures Parents() == old(Parents())[v := Cut(old(v.parent), finalizedSlot)]
    {
      if v.slot < finalizedSlot {
        items := items - {k};
      }
      if v.parent != null && v.parent.slot < finalizedSlot {
        Orphan(v);
      }
    }

    method Orphan(v: CacheItem)
      requires Valid()
      modifies v`parent
      ensures Valid() && v.parent == null
    {
      v.parent := null;
      forall it | it in all
        ensures ItemOk(it)
      {
        assert old(ItemOk(it));
      }
    }

    /** What a migration writes: the branch bests, except the periods whose write failed. */
    ghost function Migrated(byPeriod: map<nat, Update>, writeFails: set<nat>): map<nat, Update> {
      map p | p in byPeriod && p !in writeFails :: byPeriod[p]
    }

    method MigrateToCold(finalized: Lookup, writeFails: set<nat>) returns (ok: bool)
      requires Valid()
      modifies this`items, this`db, all`parent
      ensures Valid()
      ensures ok <==> old(items) == map[] || finalized.Found?
      ensures !ok || old(items) == map[] ==> items == old(items) && db == old(db) && Parents() == old(Parents())
      ensures ok && old(items) != map[] ==>
                && items == (map r | r in old(items) && old(items)[r].slot >= finalized.slot :: old(items)[r])
                && db == old(db) + Migrated(old(CachedBranch(finalized.parentRoot)), writeFails)
                && Parents() == CutAll(old(Parents()), old(items).Values, finalized.slot)
      ensures old(Uniform()) ==> Uniform()
    {
      if |items| == 0 {
        return true;
      }
      if !finalized.Found? {
        return false;
      }
      SaveBranch(finalized.parentRoot, writeFails);
      CleanCache(finalized.slot);
      return true;
    }

    /** Writes the bests of the branch that ends at the given block, if it is cached. */
    method SaveBranch(head: Root, writeFails: set<nat>)
      requires Valid()
      modifies this`db
      ensures Valid() && (old(Uniform()) ==> Uniform())
      ensures db == old(db) + Migrated(old(CachedBranch(head)), writeFails)
    {
      if head in items {
        NearestFits(items[head]);
        var byPeriod := CollectByPeriod(items[head]);
        SaveAll(byPeriod, writeFails);
      }
    }

    method SaveAll(byPeriod: map<nat, Update>, writeFails: set<nat>)
      requires Valid()
      requires AllFit(byPeriod)
      modifies this`db
      ensures old(Uniform()) ==> Uniform()
      ensures Valid() && db == old(db) + Migrated(byPeriod, writeFails)
    {
      var todo := byPeriod.Keys;
      assert Migrated(byPeriod, writeFails + todo) == map[];
      while todo != {}
        invariant todo <= byPeriod.Keys
        invariant Valid() && (old(Uniform()) ==> Uniform())
        invariant db == old(db) + Migrated(byPeriod, writeFails + todo)
      {
        var p :| p in todo;
        OneMoreMigrated(byPeriod, writeFails, todo, p);
        if p !in writeFails {
          SaveUpdate(p, byPeriod[p]);
        }
        todo := todo - {p};
      }
      assert writeFails + todo == writeFails;
    }

    lemma OneMoreMigrated(byPeriod: map<nat, Update>, writeFails: set<nat>, todo: set<nat>, p: nat)
      requires p in todo && todo <= byPeriod.Keys
      ensures Migrated(byPeriod, writeFails + (todo - {p})) ==
                if p in writeFails then Migrated(byPeriod, writeFails + todo)
                else Migrated(byPeriod, writeFails + todo)[p := byPeriod[p]]
    {
    }

    method SaveUpdate(period: nat, u: Update)
      requires Valid() && Fits(u, period)
      modifies this`db
      ensures Valid() && db == old(db)[period := u]
      ensures old(Uniform()) && WellFormed(u, committee) ==> Uniform()
    {
      db := db[period := u];
    }

    // -------------------------------------------------------------- queries

    /** What the cache knows of the branch the head block extends. */
    ghost function CachedBranch(headParent: Root): map<nat, Update>
      requires Valid()
      reads this`items, this`db, this`all, all
    {
      if headParent in items then NearestByPeriod(Chain(items[headParent])) else map[]
    }

    method GetCacheUpdatesByPeriod(headParent: Root) returns (byPeriod: map<nat, Update>)
      requires Valid()
      ensures byPeriod == CachedBranch(headParent)
    {
      if headParent !in items {
        return map[];
      }
      byPeriod := CollectByPeriod(items[headParent]);
    }

    /** u lists what is known for start, start + 1, ... and stops only after `end` or before a gap. */
    ghost predicate IsFirstRun(known: map<nat, Update>, start: nat, end: nat, u: seq<Update>) {
      && start + |u| <= end + 1
      && (forall i {:trigger i in known} {:trigger known[i]} :: start <= i < start + |u| ==>
            i in known && u[i - start] == known[i])
      && (start + |u| == end + 1 || start + |u| !in known)
    }

    method FirstRun(known: map<nat, Update>, start: nat, end: nat) returns (updates: seq<Update>)
      requires start <= end
      ensures IsFirstRun(known, start, end, updates)
    {
      updates := [];
      var i := start;
      while i <= end
        invariant start <= i <= end + 1 && |updates| == i - start
        invariant forall k :: start <= k < i ==> k in known && updates[k - start] == known[k]
      {
        if i !in known {
          break;
        }
        updates := updates + [known[i]];
        i := i + 1;
      }
    }

    /** The first gap-free run of periods from the start, where the branch's own bests take precedence
        over the database's updates. */
    method LightClientUpdates(startPeriod: nat, endPeriod: nat, headParent: Root, dbError: bool)
      returns (r: Result<seq<Update>>)
      requires Valid()
      ensures r.Err? <==> dbError || startPeriod > endPeriod
      ensures r.Ok? ==> IsFirstRun(db + CachedBranch(headParent), startPeriod, endPeriod, r.value)
      ensures r.Ok? ==> RunFits(startPeriod, r.value)
    {
      if dbError || startPeriod > endPeriod {
        return Err;
      }
      var stored := map p | p in db && startPeriod <= p <= endPeriod :: db[p];
      var cached := GetCacheUpdatesByPeriod(headParent);
      var updates := FirstRun(stored + cached, startPeriod, endPeriod);
      RunAnswers(headParent, stored, startPeriod, endPeriod, updates);
      return Ok(updates);
    }

    /** Each update is of its own period, and one the order applies to if all are. */
    ghost predicate RunFits(start: nat, u: seq<Update>)
      reads this`db, this`all
    {
      forall i :: 0 <= i < |u| ==> Fits(u[i], start + i) && (Uniform() ==> WellFormed(u[i], committee))
    }

    lemma RunAnswers(headParent: Root, stored: map<nat, Update>, start: nat, end: nat, u: seq<Update>)
      requires Valid() && stored == map p | p in db && start <= p <= end :: db[p]
      requires IsFirstRun(stored + CachedBranch(headParent), start, end, u)
      ensures IsFirstRun(db + CachedBranch(headParent), start, end, u)
      ensures RunFits(start, u)
    {
      SameRunOfAll(stored, CachedBranch(headParent), start, end, u);
      KnownFits(headParent);
      RunOfFitting(db + CachedBranch(headParent), start, end, u);
    }

    lemma SameRunOfAll(stored: map<nat, Update>, cached: map<nat, Update>, start: nat, end: nat, u: seq<Update>)
      requires stored == map p | p in db && start <= p <= end :: db[p]
      requires IsFirstRun(stored + cached, start, end, u)
      ensures IsFirstRun(db + cached, start, end, u)
    {
      var some, every := stored + cached, db + cached;
      forall i | start <= i <= end
        ensures i in some <==> i in every
        ensures i in some ==> some[i] == every[i]
      {
      }
    }

    lemma RunOfFitting(known: map<nat, Update>, start: nat, end: nat, u: seq<Update>)
      requires IsFirstRun(known, start, end, u) && AllFit(known)
      ensures RunFits(start, u)
    {
      forall i | 0 <= i < |u|
        ensures Fits(u[i], start + i) && (Uniform() ==> WellFormed(u[i], committee))
      {
        assert start + i in known && u[start + i - start] == known[start + i];
      }
    }

    lemma KnownFits(headParent: Root)
      requires Valid()
      ensures AllFit(db + CachedBranch(headParent))
    {
      if headParent in items { NearestFits(items[headParent]); }
    }

    /** What the cache knows of a branch, by walks along the parent pointers: the period of every item of every
        walk from the head's parent has an answer, the best update of the first item of that period, which no
        own update of that period on the walk beats. */
    lemma {:induction false} WalkIsAnswered(headParent: Root, path: seq<CacheItem>, i: nat)
      requires Valid() && headParent in items && IsWalk(path) && path[0] == items[headParent] && i < |path|
      ensures path[i].period in CachedBranch(headParent)
      ensures (forall k :: 0 <= k < i ==> path[k].period != path[i].period) ==>
                CachedBranch(headParent)[path[i].period] == path[i].bestUpdate
      ensures Uniform() ==> !Beats(cfg, path[i].own, CachedBranch(headParent)[path[i].period])
    {
      var chain := Chain(path[0]);
      WalkIsOnChain(path);
      assert path[i] == chain[i];
      NearestIsBranchBest(path[0], i);
      if forall k :: 0 <= k < i ==> path[k].period != path[i].period {
        forall k | 0 <= k < i
          ensures chain[k].period != chain[i].period
        {
          assert path[k] == chain[k];
        }
        NearestIsFirst(chain, i);
      }
    }

    /** And only such periods have one. */
    lemma AnswerIsOnWalk(headParent: Root, p: nat) returns (path: seq<CacheItem>)
      requires Valid() && p in CachedBranch(headParent)
      ensures headParent in items && IsWalk(path) && path[0] == items[headParent] && path[|path| - 1].period == p
    {
      var chain := Chain(items[headParent]);
      ChainIsWalk(items[headParent]);
      NearestPeriods(chain, p);
      var i :| 0 <= i < |chain| && chain[i].period == p;
      WalkPrefix(chain, i + 1);
      path := chain[..i + 1];
    }

    /** The answer for a period on the branch is an update no same-period own update there beats. */
    lemma AnswerIsBranchBest(headParent: Root, i: nat)
      requires Valid() && Uniform() && headParent in items && i < |Chain(items[headParent])|
      ensures var a := Chain(items[headParent])[i];
              var known := db + CachedBranch(headParent);
              a.period in known && !Beats(cfg, a.own, known[a.period])
    {
      NearestIsBranchBest(items[headParent], i);
    }
  }
}
