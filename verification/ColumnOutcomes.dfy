/** What areDataColumnsAvailable returns, and when: from the actions of a run. */
module ColumnOutcomes {
  import opened Common
  import opened ColumnAvailability

  /** The least number of columns that is half of them. */
  lemma MinimumIsHalf()
    ensures var m := MinimumColumnCountToReconstruct(); 2 * m >= NUMBER_OF_COLUMNS > 2 * (m - 1)
  {
  }

  // ---------------------------------------------------------------- the beginning decides what is required

  ghost predicate BeganAt(acts: seq<Action>, k: nat, w: Wid) {
    k < |acts| && acts[k].Begin? && acts[k].w == w
  }

  ghost predicate IsNotRequired(a: Action, block: Block)
    requires a.Begin?
  {
    !a.inWindow || (!a.fails && block.commitments == 0)
  }

  ghost predicate HasBegun(s: State, w: Wid) {
    w in s.waiters && !s.waiters[w].at.Start?
  }

  /** Only Begin leads from Start to anything else, or to a return because nothing is required. */
  lemma WaiterMoves(s: State, a: Action, w: Wid)
    requires Enabled(s, a) && w in Apply(s, a).waiters
    ensures HasBegun(s, w) ==>
              && !(a.Begin? && a.w == w) && HasBegun(Apply(s, a), w)
              && Apply(s, a).waiters[w].block == s.waiters[w].block
              && (Apply(s, a).waiters[w].at.NotRequired? <==> s.waiters[w].at.NotRequired?)
    ensures !HasBegun(s, w) && HasBegun(Apply(s, a), w) ==>
              && a.Begin? && a.w == w
              && (Apply(s, a).waiters[w].at.NotRequired? <==> IsNotRequired(a, Apply(s, a).waiters[w].block))
    ensures w in s.waiters ==> Apply(s, a).waiters[w].block == s.waiters[w].block
  {
  }

  /** Every waiter that has begun has done so once, and has returned because nothing is required exactly if the
      block was outside the window then, or has no commitments. */
  lemma {:induction false} BeginOfWaiter(acts: seq<Action>, w: Wid) returns (k: nat)
    requires Exec(acts).At? && HasBegun(Exec(acts).s, w)
    ensures BeganAt(acts, k, w) && forall j: nat :: BeganAt(acts, j, w) ==> j == k
    ensures Exec(acts).s.waiters[w].at.NotRequired? <==> IsNotRequired(acts[k], Exec(acts).s.waiters[w].block)
  {
    var n := |acts| - 1;
    var before := Exec(acts[..n]).s;
    WaiterMoves(before, acts[n], w);
    if HasBegun(before, w) {
      k := BeginOfWaiter(acts[..n], w);
      assert forall j: nat :: j < n ==> (BeganAt(acts, j, w) <==> BeganAt(acts[..n], j, w));
    } else {
      k := n;
      forall j: nat | BeganAt(acts, j, w)
        ensures j == n
      {
        if j < n { NotBegunBefore(acts[..n], w, j); }
      }
    }
  }

  lemma {:induction false} NotBegunBefore(acts: seq<Action>, w: Wid, j: nat)
    requires Exec(acts).At? && BeganAt(acts, j, w)
    ensures HasBegun(Exec(acts).s, w)
  {
    var n := |acts| - 1;
    var before := Exec(acts[..n]).s;
    if j < n {
      NotBegunBefore(acts[..n], w, j);
      WaiterMoves(before, acts[n], w);
    }
  }

  /** areDataColumnsAvailable has returned nil for a block that was in the window and has commitments: at least
      half of the columns are stored, or every sampled one is. */
  lemma {:induction false} NilInWindowMeansStored(acts: seq<Action>, w: Wid, k: nat)
    requires Exec(acts).At? && w in Exec(acts).s.waiters && BeganAt(acts, k, w) && acts[k].inWindow
    requires var me := Exec(acts).s.waiters[w];
             me.block.commitments > 0 && (me.at.NotRequired? || me.at.Available?)
    ensures var s := Exec(acts).s;
            var (root, sampled) := (s.waiters[w].block.root, s.waiters[w].block.sampled);
            || 2 * |StoredOf(s.stored, root)| >= NUMBER_OF_COLUMNS
            || forall i :: i in sampled ==> (root, i) in s.stored
  {
    var j := BeginOfWaiter(acts, w);
    AvailabilityIsSound(acts, w);
  }

  // ---------------------------------------------------------------- the order of the code

  /** One step, seen from a waiter.  It subscribes before it looks at the store; it ends with nil at the first
      look if half of the columns are there, at the second if no sampled one is missing; it ends with an error
      only at the beginning, for too many sampled columns, or when cancelled. */
  ghost predicate WaiterGoesOn(s: State, a: Action, s': State, w: Wid)
    requires w in s.waiters
  {
    && w in s'.waiters
    && var (me, me') := (s.waiters[w], s'.waiters[w]);
    && me'.block == me.block
    && SubscriptionGoesOn(s, a, s', w)
    && var cols := StoredOf(s.stored, me.block.root);
    match me.at
    case Start =>
      if a.Begin? && a.w == w then
        && (IsNotRequired(a, me.block) ==> me'.at == NotRequired)
        && (!IsNotRequired(a, me.block) && a.fails ==> me'.at == Failed)
        && (!IsNotRequired(a, me.block) && !a.fails ==> me'.at == Subscribed && me'.subscribed)
      else me'.at == Start
    case Subscribed =>
      if a == CountStored(w)
      then me'.at == if 2 * |cols| >= NUMBER_OF_COLUMNS then Available else Counted(|cols|)
      else me'.at == me.at
    case Counted(count) =>
      if a == FindMissing(w) then
        if |me.block.sampled| > NUMBER_OF_COLUMNS then me'.at == Failed
        else if me.block.sampled <= cols then me'.at == Available
        else me'.at == Waiting(count, me.block.sampled - cols)
      else me'.at == me.at
    case Waiting(count, missing) =>
      if a == Receive(w) then
        && me.queue != [] && me'.queue == me.queue[1..]
        && (me.queue[0].root != me.block.root ==> me'.at == me.at)
        && (me.queue[0].root == me.block.root ==> Told(count, missing, me.queue[0].indices, me'.at))
      else if a == Cancel(w) then me'.at == Failed
      else me'.at == me.at
    case _ => me'.at == me.at
  }

  /** The subscription lasts until the waiter gives it up, which the feed then no longer waits for; notifications are
      queued as they are delivered and taken out as they are read. */
  ghost predicate SubscriptionGoesOn(s: State, a: Action, s': State, w: Wid)
    requires w in s.waiters && w in s'.waiters
  {
    var (me, me') := (s.waiters[w], s'.waiters[w]);
    && (if a == Unsubscribe(w) then !me'.subscribed && (s'.feed.Sending? ==> w !in s'.feed.pending)
        else me.subscribed ==> me'.subscribed)
    && (if a == Deliver(w) then s.feed.Sending? && me'.queue == me.queue + [s.feed.ident]
        else if a == Receive(w) then me.queue != [] && me'.queue == me.queue[1..]
        else me'.queue == me.queue)
  }

  /** The indices in the list. */
  ghost function Elements(indices: seq<Idx>): set<Idx> {
    set i | i in indices
  }

  /** What a notification does: the waiter ends if no column is missing any more, or at least half are counted;
      otherwise it has counted each missing column it was told of once. */
  ghost predicate Told(count: nat, missing: set<Idx>, indices: seq<Idx>, at: Progress) {
    if indices == [] then at == Waiting(count, missing)
    else
      var news := Elements(indices) * missing;
      if 2 * (count + |news|) >= NUMBER_OF_COLUMNS || missing - news == {} then at == Available
      else at == Waiting(count + |news|, missing - news)
  }

  lemma NewsOfFirst(missing: set<Idx>, indices: seq<Idx>)
    requires indices != []
    ensures var (left, rest) := (missing - {indices[0]}, indices[1..]);
            && |Elements(indices) * missing| == |Elements(rest) * left| + (if indices[0] in missing then 1 else 0)
            && missing - Elements(indices) * missing == left - Elements(rest) * left
  {
    var (x, left, rest) := (indices[0], missing - {indices[0]}, indices[1..]);
    assert Elements(indices) == {x} + Elements(rest);
    assert Elements(indices) * missing == Elements(rest) * left + (if x in missing then {x} else {});
  }

  /** What the first index alone brings about. */
  lemma ToldByFirst(count: nat, missing: set<Idx>, indices: seq<Idx>)
    requires indices != []
    requires var n := if indices[0] in missing then count + 1 else count;
             2 * n >= NUMBER_OF_COLUMNS || missing - {indices[0]} == {}
    ensures Told(count, missing, indices, Available)
  {
    NewsOfFirst(missing, indices);
  }

  /** What the others bring about, if the first does not end it. */
  lemma ToldByRest(count: nat, missing: set<Idx>, indices: seq<Idx>, n: nat, left: set<Idx>, at: Progress)
    requires indices != [] && n == (if indices[0] in missing then count + 1 else count)
    requires left == missing - {indices[0]} && left != {} && 2 * n < NUMBER_OF_COLUMNS
    requires Told(n, left, indices[1..], at)
    ensures Told(count, missing, indices, at)
  {
    NewsOfFirst(missing, indices);
    if indices[1..] == [] { assert Elements(indices[1..]) * left == {}; }
  }

  lemma {:induction false} AbsorbTells(count: nat, missing: set<Idx>, indices: seq<Idx>)
    requires missing != {} && 2 * count < NUMBER_OF_COLUMNS
    ensures Told(count, missing, indices, Absorb(count, missing, indices))
    decreases |indices|
  {
    if indices != [] {
      var n, left := if indices[0] in missing then count + 1 else count, missing - {indices[0]};
      if 2 * n >= NUMBER_OF_COLUMNS || left == {} {
        ToldByFirst(count, missing, indices);
      } else {
        AbsorbTells(n, left, indices[1..]);
        ToldByRest(count, missing, indices, n, left, Absorb(n, left, indices[1..]));
      }
    }
  }

  lemma NoneLeft(a: set<Idx>, b: set<Idx>)
    ensures a - b == {} <==> a <= b
  {
    forall x | x in a && a - b == {}
      ensures x in b
    {
      assert x !in a - b;
    }
  }

  lemma WaiterStep(s: State, a: Action, w: Wid)
    requires Inv(s) && Enabled(s, a) && w in s.waiters
    ensures WaiterGoesOn(s, a, Apply(s, a), w)
  {
    var me := s.waiters[w];
    var cols := StoredOf(s.stored, me.block.root);
    assert CountedOk(s.stored, me);
    NoneLeft(me.block.sampled, cols);
    if a == Receive(w) { AbsorbTells(me.at.count, me.at.missing, me.queue[0].indices); }
  }

  /** One step, seen from a goroutine in Save: it stores before it publishes, a failed write ends it with nothing
      stored, and its notification goes to everyone subscribed when it enters the feed. */
  ghost predicate SaverGoesOn(s: State, a: Action, s': State, p: Pid)
    requires p in s.savers
  {
    && p in s'.savers
    && var (me, me') := (s.savers[p], s'.savers[p]);
    match me
    case Writing(ident) =>
      if a == Write(p, true) then me' == Finished && s'.stored == s.stored
      else if a == Write(p, false) then
        me' == Publishing(ident) && forall r: Root, i: Idx ::
          (r, i) in s'.stored <==> (r, i) in s.stored || (r == ident.root && i in ident.indices)
      else me' == me
    case Publishing(ident) =>
      if a == BeginSend(p) then
        && me' == InFeed && s'.feed.Sending? && s'.feed.p == p && s'.feed.ident == ident
        && forall w :: w in s'.feed.pending <==> w in s.waiters && s.waiters[w].subscribed
      else me' == me
    case InFeed => me' == me || (me' == Finished && a == EndSend && s.feed.Sending? && s.feed.pending == {})
    case Finished => me' == me
  }

  lemma SaverStep(s: State, a: Action, p: Pid)
    requires Inv(s) && Enabled(s, a) && p in s.savers
    ensures SaverGoesOn(s, a, Apply(s, a), p)
  {
  }

  /** Every step of every run takes waiters and savers along their code. */
  lemma {:induction false} EveryStepGoesOn(acts: seq<Action>, a: Action, w: Wid, p: Pid)
    requires Exec(acts + [a]).At?
    ensures Exec(acts).At?
    ensures var (s, s') := (Exec(acts).s, Exec(acts + [a]).s);
            && (w in s.waiters ==> WaiterGoesOn(s, a, s', w))
            && (p in s.savers ==> SaverGoesOn(s, a, s', p))
  {
    assert (acts + [a])[..|acts|] == acts;
    RunKeepsInv(acts);
    var s := Exec(acts).s;
    if w in s.waiters { WaiterStep(s, a, w); }
    if p in s.savers { SaverStep(s, a, p); }
  }

  /** Nothing waits but the select, a saver for the feed, and the feed for room in a channel. */
  lemma {:induction false} OthersCanMove(acts: seq<Action>, w: Wid, p: Pid, x: bool, y: bool)
    requires Exec(acts).At?
    ensures var s := Exec(acts).s;
            && (p !in s.savers ==> forall ident :: Enabled(s, NewSaver(p, ident)))
            && (w !in s.waiters ==> forall block :: Enabled(s, NewWaiter(w, block)))
            && (p in s.savers && s.savers[p].Writing? ==> Enabled(s, Write(p, x)))
            && (p in s.savers && s.savers[p].Publishing? && s.feed.Quiet? ==> Enabled(s, BeginSend(p)))
            && (s.feed.Sending? && s.feed.pending == {} ==> Enabled(s, EndSend))
            && (s.feed.Sending? && w in s.feed.pending && w in s.waiters && s.waiters[w].queue == [] ==>
                  Enabled(s, Deliver(w)))
            && (w in s.waiters ==>
                  match s.waiters[w].at
                  case Start => Enabled(s, Begin(w, x, y))
                  case Subscribed => Enabled(s, CountStored(w))
                  case Counted(_) => Enabled(s, FindMissing(w))
                  case Waiting(_, _) => Enabled(s, Cancel(w)) && (s.waiters[w].queue != [] ==> Enabled(s, Receive(w)))
                  case _ => s.waiters[w].subscribed ==> Enabled(s, Unsubscribe(w)))
  {
  }

  // ---------------------------------------------------------------- a waiter with everything stored ends

  /** A waiter that is not given up on goes on waiting for no more than before, or ends with nil. */
  lemma {:induction false} OrderlyWaiter(acts: seq<Action>, more: seq<Action>, w: Wid)
    requires Exec(acts).At? && Exec(acts + more).At? && forall a :: a in more ==> Orderly(a)
    requires w in Exec(acts).s.waiters && Exec(acts).s.waiters[w].at.Waiting?
    ensures var (s, t) := (Exec(acts).s, Exec(acts + more).s);
            && w in t.waiters && t.waiters[w].block == s.waiters[w].block && s.stored <= t.stored
            && (t.waiters[w].at.Available? ||
                (t.waiters[w].at.Waiting? && t.waiters[w].at.missing <= s.waiters[w].at.missing))
    decreases |more|
  {
    if more == [] {
      assert acts + more == acts;
    } else {
      var n := |more| - 1;
      assert acts + more == (acts + more[..n]) + [more[n]];
      EveryStepGoesOn(acts + more[..n], more[n], w, 0);
      OrderlyWaiter(acts, more[..n], w);
      assert more[n] in more;
      StoredGrows(Exec(acts + more[..n]).s, more[n]);
    }
  }

  lemma StoredGrows(s: State, a: Action)
    requires Enabled(s, a)
    ensures s.stored <= Apply(s, a).stored
  {
  }

  /** All that the waiter misses is stored. */
  ghost predicate MissesOnlyStored(s: State, w: Wid) {
    && w in s.waiters && s.waiters[w].at.Waiting?
    && forall i :: i in s.waiters[w].at.missing ==> (s.waiters[w].block.root, i) in s.stored
  }

  /** One of the columns can be read. */
  lemma ReadOne(acts: seq<Action>, w: Wid, missing: set<Idx>) returns (more: seq<Action>)
    requires Exec(acts).At? && MissesOnlyStored(Exec(acts).s, w) && missing == Exec(acts).s.waiters[w].at.missing
    ensures Exec(acts + more).At? && w in Exec(acts + more).s.waiters && forall a :: a in more ==> Orderly(a)
    ensures var t := Exec(acts + more).s;
            t.waiters[w].at.Available? || (MissesOnlyStored(t, w) && |t.waiters[w].at.missing| < |missing|)
  {
    RunKeepsInv(acts);
    assert CountedOk(Exec(acts).s.stored, Exec(acts).s.waiters[w]);
    var i :| i in missing;
    more := StoredColumnCanBeRead(acts, w, i);
    OrderlyWaiter(acts, more, w);
    var t := Exec(acts + more).s;
    if t.waiters[w].at.Waiting? { SubsetSize(t.waiters[w].at.missing, missing - {i}); }
  }

  /** From every state of every run, a waiter whose missing columns are all stored can be brought to its end, with
      nil, by steps of the feed and of subscribers alone. */
  lemma {:induction false} StoredWaiterEnds(acts: seq<Action>, w: Wid) returns (more: seq<Action>)
    requires Exec(acts).At? && MissesOnlyStored(Exec(acts).s, w)
    ensures Exec(acts + more).At? && w in Exec(acts + more).s.waiters
    ensures Exec(acts + more).s.waiters[w].at.Available? && forall a :: a in more ==> Orderly(a)
    decreases |Exec(acts).s.waiters[w].at.missing|
  {
    more := ReadOne(acts, w, Exec(acts).s.waiters[w].at.missing);
    if !Exec(acts + more).s.waiters[w].at.Available? {
      var rest := StoredWaiterEnds(acts + more, w);
      assert acts + (more + rest) == acts + more + rest;
      more := more + rest;
    }
  }
}
