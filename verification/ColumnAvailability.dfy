/** Data columns being saved against blocks waiting for them: every interleaving of any number of Save
    calls, each of which stores columns and then publishes their indices through the feed, with any
    number of areDataColumnsAvailable calls, each of which subscribes, takes two snapshots of the
    store and then counts notifications. */
module ColumnAvailability {
  import opened Common

  type Root = nat
  type Idx = nat
  type Pid = nat
  type Wid = nat

  function MinimumColumnCountToReconstruct(): nat {
    (NUMBER_OF_COLUMNS + 1) / 2
  }

  /** The block being checked and the columns this node samples for it. */
  datatype Block = Block(root: Root, commitments: nat, sampled: set<Idx>)

  datatype Ident = Ident(root: Root, indices: seq<Idx>)

  /** A goroutine inside DataColumnStorage.Save. */
  datatype Saver = Writing(ident: Ident) | Publishing(ident: Ident) | InFeed | Finished

  /** The feed sends one notification at a time: `pending` are the subscribers it has yet to reach. */
  datatype Feed = Quiet | Sending(p: Pid, ident: Ident, pending: set<Wid>)

  datatype Progress =
    | Start
    | Subscribed                              // about to take the first snapshot
    | Counted(count: nat)                     // about to take the second one
    | Waiting(count: nat, missing: set<Idx>)  // at the select
    | NotRequired                             // returned nil: outside the window, or no commitments
    | Available                               // returned nil after checking
    | Failed                                  // returned an error

  /** A goroutine inside areDataColumnsAvailable.  `queue` is its subscription's channel, which has room
      for one notification; it unsubscribes only when it returns. */
  datatype Waiter = Waiter(block: Block, subscribed: bool, queue: seq<Ident>, at: Progress)

  datatype State = State(
    stored: set<(Root, Idx)>,
    savers: map<Pid, Saver>,
    feed: Feed,
    waiters: map<Wid, Waiter>)

  const Init := State({}, map[], Quiet, map[])

  datatype Action =
    | NewSaver(p: Pid, ident: Ident)
    | Write(p: Pid, fails: bool)
    | BeginSend(p: Pid)
    | Deliver(w: Wid)
    | EndSend
    | NewWaiter(w: Wid, block: Block)
    | Begin(w: Wid, inWindow: bool, fails: bool)
    | CountStored(w: Wid)
    | FindMissing(w: Wid)
    | Receive(w: Wid)
    | Cancel(w: Wid)
    | Unsubscribe(w: Wid)

  predicate Over(at: Progress) {
    at.NotRequired? || at.Available? || at.Failed?
  }

  predicate Enabled(s: State, a: Action) {
    match a
    case NewSaver(p, _) => p !in s.savers
    case Write(p, _) => p in s.savers && s.savers[p].Writing?
    case BeginSend(p) => p in s.savers && s.savers[p].Publishing? && s.feed.Quiet?
    case Deliver(w) => s.feed.Sending? && w in s.feed.pending && w in s.waiters && |s.waiters[w].queue| < 1
    case EndSend => s.feed.Sending? && s.feed.pending == {}
    case NewWaiter(w, _) => w !in s.waiters
    case Begin(w, _, _) => w in s.waiters && s.waiters[w].at.Start?
    case CountStored(w) => w in s.waiters && s.waiters[w].at.Subscribed?
    case FindMissing(w) => w in s.waiters && s.waiters[w].at.Counted?
    case Receive(w) => w in s.waiters && s.waiters[w].at.Waiting? && s.waiters[w].queue != []
    case Cancel(w) => w in s.waiters && s.waiters[w].at.Waiting?
    case Unsubscribe(w) => w in s.waiters && s.waiters[w].subscribed && Over(s.waiters[w].at)
  }

  function StoredOf(stored: set<(Root, Idx)>, r: Root): (cols: set<Idx>)
    ensures forall i: Idx :: i in cols <==> (r, i) in stored
  {
    set x | x in stored && x.0 == r :: x.1
  }

  function Pairs(ident: Ident): (xs: set<(Root, Idx)>)
    ensures forall r: Root, i: Idx :: (r, i) in xs <==> r == ident.root && i in ident.indices
  {
    set i | i in ident.indices :: (ident.root, i)
  }

  /** What one notification for the block does to the running count and the missing columns: the
      loop over its indices, which may return in the middle. */
  function Absorb(count: nat, missing: set<Idx>, indices: seq<Idx>): (at: Progress)
    ensures at.Waiting? || at.Available?
    decreases |indices|
  {
    if indices == [] then Waiting(count, missing)
    else
      var n := if indices[0] in missing then count + 1 else count;
      var left := missing - {indices[0]};
      if n >= MinimumColumnCountToReconstruct() then Available
      else if left == {} then Available
      else Absorb(n, left, indices[1..])
  }

  /** The same as the source writes it. */
  method ReadNotification(count: nat, missing: set<Idx>, indices: seq<Idx>) returns (w: Progress)
    ensures w == Absorb(count, missing, indices)
  {
    var n: nat, left := count, missing;
    for k := 0 to |indices|
      invariant Absorb(n, left, indices[k..]) == Absorb(count, missing, indices)
    {
      var index := indices[k];
      assert indices[k..][0] == index && indices[k..][1..] == indices[k + 1..];
      if index in left {
        n := n + 1;
      }
      if n >= MinimumColumnCountToReconstruct() {
        return Available;
      }
      left := left - {index};
      if left == {} {
        return Available;
      }
    }
    return Waiting(n, left);
  }

  /** The sampled columns that are not stored; an error when more are asked for than there are. */
  method MissingDataColumnIndices(stored: set<Idx>, expected: set<Idx>) returns (r: Option<set<Idx>>)
    ensures r.None? <==> |expected| > NUMBER_OF_COLUMNS
    ensures r.Some? ==> r.value == expected - stored
  {
    if |expected| == 0 {
      return Some({});
    }
    if |expected| > NUMBER_OF_COLUMNS {
      return None;
    }
    var missing, rest := {}, expected;
    while rest != {}
      invariant rest <= expected && missing == expected - rest - stored
      decreases |rest|
    {
      var column :| column in rest;
      if column !in stored {
        missing := missing + {column};
      }
      rest := rest - {column};
    }
    return Some(missing);
  }

  /** What the waiter's own step makes of it. */
  function Step(stored: set<(Root, Idx)>, w: Waiter, a: Action): Waiter
    requires match a
             case FindMissing(_) => w.at.Counted?
             case Receive(_) => w.at.Waiting? && w.queue != []
             case _ => true
  {
    var cols := StoredOf(stored, w.block.root);
    match a
    case Begin(_, inWindow, fails) =>
      if !inWindow || (!fails && w.block.commitments == 0) then w.(at := NotRequired)
      else if fails then w.(at := Failed)
      else w.(at := Subscribed, subscribed := true)
    case CountStored(_) =>
      w.(at := if |cols| >= MinimumColumnCountToReconstruct() then Available else Counted(|cols|))
    case FindMissing(_) =>
      if |w.block.sampled| > NUMBER_OF_COLUMNS then w.(at := Failed)
      else
        var missing := w.block.sampled - cols;
        w.(at := if missing == {} then Available else Waiting(w.at.count, missing))
    case Receive(_) =>
      var ident := w.queue[0];
      w.(queue := w.queue[1..],
         at := if ident.root == w.block.root then Absorb(w.at.count, w.at.missing, ident.indices) else w.at)
    case Cancel(_) => w.(at := Failed)
    case _ => w.(subscribed := false)
  }

  function Apply(s: State, a: Action): State
    requires Enabled(s, a)
  {
    match a
    case NewSaver(p, ident) => s.(savers := s.savers[p := Writing(ident)])
    case Write(p, fails) =>
      if fails then s.(savers := s.savers[p := Finished])
      else s.(stored := s.stored + Pairs(s.savers[p].ident), savers := s.savers[p := Publishing(s.savers[p].ident)])
    case BeginSend(p) =>
      var subscribers := set w | w in s.waiters && s.waiters[w].subscribed;
      s.(feed := Sending(p, s.savers[p].ident, subscribers), savers := s.savers[p := InFeed])
    case Deliver(w) =>
      var told := s.waiters[w].(queue := s.waiters[w].queue + [s.feed.ident]);
      s.(feed := s.feed.(pending := s.feed.pending - {w}), waiters := s.waiters[w := told])
    case EndSend => s.(feed := Quiet, savers := s.savers[s.feed.p := Finished])
    case NewWaiter(w, block) => s.(waiters := s.waiters[w := Waiter(block, false, [], Start)])
    case Unsubscribe(w) =>
      s.(waiters := s.waiters[w := Step(s.stored, s.waiters[w], a)],
         feed := if s.feed.Sending? then s.feed.(pending := s.feed.pending - {w}) else s.feed)
    case _ => s.(waiters := s.waiters[a.w := Step(s.stored, s.waiters[a.w], a)])
  }

  datatype Outcome = Stuck | At(s: State)

  function Exec(acts: seq<Action>): Outcome {
    if acts == [] then At(Init)
    else
      var before := Exec(acts[..|acts| - 1]);
      var a := acts[|acts| - 1];
      if before.At? && Enabled(before.s, a) then At(Apply(before.s, a)) else Stuck
  }

  // ---------------------------------------------------------------- the invariant

  /** A set of stored columns, none of them missing, that the running count counts. */
  ghost predicate Counts(counted: set<Idx>, cols: set<Idx>, count: nat, missing: set<Idx>) {
    counted <= cols && counted !! missing && |counted| == count
  }

  ghost predicate CountOk(cols: set<Idx>, count: nat, missing: set<Idx>) {
    exists counted :: Counts(counted, cols, count, missing)
  }

  ghost predicate Names(ident: Ident, r: Root, i: Idx) {
    ident.root == r && i in ident.indices
  }

  ghost predicate IsPublishing(s: State, p: Pid, r: Root, i: Idx) {
    p in s.savers && s.savers[p].Publishing? && Names(s.savers[p].ident, r, i)
  }

  ghost predicate Queued(queue: seq<Ident>, r: Root, i: Idx) {
    exists k :: 0 <= k < |queue| && Names(queue[k], r, i)
  }

  /** Column i is not stored, is about to be published, is being sent with the waiter still to be
      reached, or is in the waiter's channel. */
  ghost predicate WillBeTold(s: State, w: Wid, r: Root, i: Idx)
    requires w in s.waiters
  {
    || (r, i) !in s.stored
    || (exists p :: IsPublishing(s, p, r, i))
    || (s.feed.Sending? && w in s.feed.pending && Names(s.feed.ident, r, i))
    || Queued(s.waiters[w].queue, r, i)
  }

  /** Only stored columns are ever published. */
  ghost predicate PublishedAreStored(s: State) {
    && (forall p :: p in s.savers && s.savers[p].Publishing? ==> Pairs(s.savers[p].ident) <= s.stored)
    && (s.feed.Sending? ==> Pairs(s.feed.ident) <= s.stored)
    && (forall w :: w in s.waiters ==> forall k :: 0 <= k < |s.waiters[w].queue| ==>
          Pairs(s.waiters[w].queue[k]) <= s.stored)
  }

  ghost predicate SoundlyAvailable(b: Block, cols: set<Idx>) {
    |cols| >= MinimumColumnCountToReconstruct() || b.sampled <= cols
  }

  /** What the waiter has counted and concluded is true of the store. */
  ghost predicate CountedOk(stored: set<(Root, Idx)>, w: Waiter) {
    var cols := StoredOf(stored, w.block.root);
    match w.at
    case Counted(count) => count < MinimumColumnCountToReconstruct() && CountOk(cols, count, {})
    case Waiting(count, missing) =>
      && count < MinimumColumnCountToReconstruct()
      && missing != {}
      && CountOk(cols, count, missing)
      && w.block.sampled - missing <= cols
    case Available => SoundlyAvailable(w.block, cols)
    case _ => true
  }

  ghost predicate ToldOk(s: State, w: Wid)
    requires w in s.waiters
  {
    s.waiters[w].at.Waiting? ==>
      forall i :: i in s.waiters[w].at.missing ==> WillBeTold(s, w, s.waiters[w].block.root, i)
  }

  /** Subscribed from the first snapshot until it has returned, with at most one notification queued. */
  ghost predicate SubscriptionOk(w: Waiter) {
    && (w.at.Subscribed? || w.at.Counted? || w.at.Waiting? ==> w.subscribed)
    && (w.at.Start? ==> !w.subscribed)
    && |w.queue| <= 1
  }

  ghost predicate FeedOk(s: State) {
    s.feed.Sending? ==>
      && s.feed.p in s.savers && s.savers[s.feed.p].InFeed?
      && forall w :: w in s.feed.pending ==> w in s.waiters && s.waiters[w].subscribed
  }

  ghost predicate Inv(s: State) {
    && PublishedAreStored(s) && FeedOk(s)
    && forall w :: w in s.waiters ==>
         SubscriptionOk(s.waiters[w]) && CountedOk(s.stored, s.waiters[w]) && ToldOk(s, w)
  }

  // ---------------------------------------------------------------- what each action keeps

  lemma CountOkGrows(cols: set<Idx>, cols': set<Idx>, count: nat, missing: set<Idx>)
    requires CountOk(cols, count, missing) && cols <= cols'
    ensures CountOk(cols', count, missing)
  {
    var counted :| Counts(counted, cols, count, missing);
    assert Counts(counted, cols', count, missing);
  }

  lemma CountedOkGrows(stored: set<(Root, Idx)>, stored': set<(Root, Idx)>, w: Waiter)
    requires CountedOk(stored, w) && stored <= stored'
    ensures CountedOk(stored', w)
  {
    var cols, cols' := StoredOf(stored, w.block.root), StoredOf(stored', w.block.root);
    assert cols <= cols';
    SubsetSize(cols, cols');
    match w.at
    case Counted(count) => CountOkGrows(cols, cols', count, {});
    case Waiting(count, missing) => CountOkGrows(cols, cols', count, missing);
    case _ =>
  }

  /** A waiter that does not move itself is still told what it was going to be told. */
  lemma StillTold(s: State, a: Action, w: Wid, r: Root, i: Idx)
    requires FeedOk(s) && Enabled(s, a) && w in s.waiters && s.waiters[w].subscribed
    requires a.NewSaver? || a.Write? || a.BeginSend? || a.EndSend? || a.Deliver? || a.w != w
    requires WillBeTold(s, w, r, i)
    ensures WillBeTold(Apply(s, a), w, r, i)
  {
    var s' := Apply(s, a);
    if (r, i) !in s.stored {
      if (r, i) in s'.stored { assert IsPublishing(s', a.p, r, i); }
    } else if Queued(s.waiters[w].queue, r, i) {
      var k :| 0 <= k < |s.waiters[w].queue| && Names(s.waiters[w].queue[k], r, i);
      assert Names(s'.waiters[w].queue[k], r, i);
    } else if s.feed.Sending? && w in s.feed.pending && Names(s.feed.ident, r, i) {
      if a.Deliver? && a.w == w {
        assert Names(s'.waiters[w].queue[|s.waiters[w].queue|], r, i);
      }
    } else {
      var p :| IsPublishing(s, p, r, i);
      if !(a.BeginSend? && p == a.p) {
        assert IsPublishing(s', p, r, i);
      }
    }
  }

  ghost predicate ByWaiter(a: Action) {
    a.Begin? || a.CountStored? || a.FindMissing? || a.Receive? || a.Cancel? || a.Unsubscribe?
  }

  lemma OtherWaiterKeeps(s: State, a: Action, w: Wid)
    requires Inv(s) && Enabled(s, a) && w in s.waiters && !(ByWaiter(a) && a.w == w)
    ensures var s' := Apply(s, a);
            w in s'.waiters && SubscriptionOk(s'.waiters[w]) && CountedOk(s'.stored, s'.waiters[w]) && ToldOk(s', w)
  {
    var s' := Apply(s, a);
    CountedOkGrows(s.stored, s'.stored, s.waiters[w]);
    if s.waiters[w].at.Waiting? {
      forall i | i in s.waiters[w].at.missing
        ensures WillBeTold(s', w, s.waiters[w].block.root, i)
      {
        StillTold(s, a, w, s.waiters[w].block.root, i);
      }
    }
  }

  lemma {:induction false} AbsorbKeeps(b: Block, cols: set<Idx>, count: nat, missing: set<Idx>, indices: seq<Idx>)
    requires count < MinimumColumnCountToReconstruct() && missing != {}
    requires CountOk(cols, count, missing) && b.sampled - missing <= cols
    requires forall i :: i in indices ==> i in cols
    ensures match Absorb(count, missing, indices)
            case Waiting(n, left) =>
              && n < MinimumColumnCountToReconstruct() && left != {}
              && CountOk(cols, n, left) && b.sampled - left <= cols
              && left <= missing && (forall i :: i in indices ==> i !in left)
              && (forall i :: i in missing && i !in indices ==> i in left)
            case Available => SoundlyAvailable(b, cols)
            case _ => false
    decreases |indices|
  {
    if indices != [] {
      var i := indices[0];
      var counted :| Counts(counted, cols, count, missing);
      var n := if i in missing then count + 1 else count;
      var left := missing - {i};
      var counted' := if i in missing then counted + {i} else counted;
      assert i in cols && Counts(counted', cols, n, left);
      SubsetSize(counted', cols);
      if n < MinimumColumnCountToReconstruct() && left != {} {
        AbsorbKeeps(b, cols, n, left, indices[1..]);
        assert indices == [i] + indices[1..];
      }
    }
  }

  /** The waiter's own step: what it counts is stored, and what it now misses it will be told. */
  lemma OwnStepKeeps(s: State, a: Action)
    requires Inv(s) && Enabled(s, a) && ByWaiter(a)
    ensures var s' := Apply(s, a); var w := s'.waiters[a.w];
            SubscriptionOk(w) && CountedOk(s'.stored, w) && ToldOk(s', a.w)
  {
    var w := s.waiters[a.w];
    var cols := StoredOf(s.stored, w.block.root);
    match a
    case Receive(_) => ReceiveKeeps(s, a);
    case CountStored(_) => assert Counts(cols, cols, |cols|, {});
    case FindMissing(_) =>
      var missing := w.block.sampled - cols;
      var counted :| Counts(counted, cols, w.at.count, {});
      assert Counts(counted, cols, w.at.count, missing);
      assert forall i :: i in w.block.sampled ==> i in missing || i in cols;
    case _ =>
  }

  lemma ReceiveKeeps(s: State, a: Action)
    requires Inv(s) && Enabled(s, a) && a.Receive?
    ensures var s' := Apply(s, a); var w := s'.waiters[a.w];
            SubscriptionOk(w) && CountedOk(s'.stored, w) && ToldOk(s', a.w)
  {
    var w, s' := s.waiters[a.w], Apply(s, a);
    var ident, r := w.queue[0], w.block.root;
    var cols := StoredOf(s.stored, r);
    if ident.root == r {
      assert forall i :: i in ident.indices ==> (r, i) in Pairs(ident);
      AbsorbKeeps(w.block, cols, w.at.count, w.at.missing, ident.indices);
    }
    forall i | i in w.at.missing && !Names(ident, r, i)
      ensures WillBeTold(s', a.w, r, i)
    {
      assert WillBeTold(s, a.w, r, i);
      if exists p :: IsPublishing(s, p, r, i) {
        var p :| IsPublishing(s, p, r, i);
        assert IsPublishing(s', p, r, i);
      }
    }
  }

  lemma PublishedStay(s: State, a: Action)
    requires Inv(s) && Enabled(s, a)
    ensures PublishedAreStored(Apply(s, a))
  {
    var s' := Apply(s, a);
    forall w, k | w in s'.waiters && 0 <= k < |s'.waiters[w].queue|
      ensures Pairs(s'.waiters[w].queue[k]) <= s'.stored
    {
      if w in s.waiters {
        var queue := s.waiters[w].queue;
        assert s'.waiters[w].queue[k] in queue || (a.Deliver? && s'.waiters[w].queue[k] == s.feed.ident);
        assert forall x :: x in queue ==> Pairs(x) <= s.stored;
      }
    }
  }

  lemma ActionKeeps(s: State, a: Action)
    requires Inv(s) && Enabled(s, a)
    ensures Inv(Apply(s, a))
  {
    var s' := Apply(s, a);
    PublishedStay(s, a);
    forall w | w in s'.waiters
      ensures SubscriptionOk(s'.waiters[w]) && CountedOk(s'.stored, s'.waiters[w]) && ToldOk(s', w)
    {
      if ByWaiter(a) && a.w == w {
        OwnStepKeeps(s, a);
      } else if w in s.waiters {
        OtherWaiterKeeps(s, a, w);
      }
    }
  }

  lemma {:induction false} RunKeepsInv(acts: seq<Action>)
    requires Exec(acts).At?
    ensures Inv(Exec(acts).s)
  {
    if acts != [] {
      RunKeepsInv(acts[..|acts| - 1]);
      ActionKeeps(Exec(acts[..|acts| - 1]).s, acts[|acts| - 1]);
    }
  }

  // ---------------------------------------------------------------- results over every run

  /** Success after checking means enough columns to reconstruct are stored, or all sampled ones are. */
  lemma {:induction false} AvailabilityIsSound(acts: seq<Action>, w: Wid)
    requires Exec(acts).At? && w in Exec(acts).s.waiters && Exec(acts).s.waiters[w].at.Available?
    ensures var s := Exec(acts).s;
            var cols := StoredOf(s.stored, s.waiters[w].block.root);
            |cols| >= MinimumColumnCountToReconstruct() || s.waiters[w].block.sampled <= cols
  {
    RunKeepsInv(acts);
  }

  /** While waiting, the running count never exceeds the number of columns really stored. */
  lemma {:induction false} CountNeverExceedsStored(acts: seq<Action>, w: Wid)
    requires Exec(acts).At? && w in Exec(acts).s.waiters
    requires Exec(acts).s.waiters[w].at.Waiting? || Exec(acts).s.waiters[w].at.Counted?
    ensures var s := Exec(acts).s;
            s.waiters[w].at.count <= |StoredOf(s.stored, s.waiters[w].block.root)|
  {
    RunKeepsInv(acts);
    var s := Exec(acts).s;
    var at, cols := s.waiters[w].at, StoredOf(s.stored, s.waiters[w].block.root);
    var counted :| Counts(counted, cols, at.count, if at.Waiting? then at.missing else {});
    SubsetSize(counted, cols);
  }

  /** Waiter w is at the select and misses column i. */
  ghost predicate Misses(s: State, w: Wid, i: Idx) {
    w in s.waiters && s.waiters[w].at.Waiting? && i in s.waiters[w].at.missing
  }

  /** No notification is missed: a missing column is not stored, about to be published, or on its way. */
  lemma {:induction false} MissingWillBeTold(acts: seq<Action>, w: Wid, i: Idx)
    requires Exec(acts).At? && Misses(Exec(acts).s, w, i)
    ensures WillBeTold(Exec(acts).s, w, Exec(acts).s.waiters[w].block.root, i)
  {
    RunKeepsInv(acts);
  }

  /** The feed itself can go on. */
  ghost predicate FeedCanMove(s: State) {
    (exists p :: Enabled(s, BeginSend(p))) || (exists v :: Enabled(s, Deliver(v))) || Enabled(s, EndSend)
  }

  /** Waiter v has a step of its own, other than being cancelled. */
  ghost predicate CanMove(s: State, v: Wid) {
    Enabled(s, CountStored(v)) || Enabled(s, FindMissing(v)) || Enabled(s, Receive(v)) || Enabled(s, Unsubscribe(v))
  }

  /** A subscriber whose full channel holds up the feed is never itself waiting for anything. */
  lemma BlockerCanMove(s: State, v: Wid)
    requires Inv(s) && s.feed.Sending? && v in s.feed.pending && !Enabled(s, Deliver(v))
    ensures CanMove(s, v)
  {
    assert SubscriptionOk(s.waiters[v]);
  }

  /** No lost wakeup and no stuck publisher, whatever the other subscribers do: as soon as a column a
      waiter misses is stored, the waiter has something to read, or the feed can go on, or a subscriber
      with a full channel that holds it up can. */
  lemma {:induction false} StoredColumnGetsThrough(acts: seq<Action>, w: Wid, i: Idx)
    requires Exec(acts).At? && Misses(Exec(acts).s, w, i)
    requires (Exec(acts).s.waiters[w].block.root, i) in Exec(acts).s.stored
    ensures var s := Exec(acts).s;
            || Enabled(s, Receive(w))
            || FeedCanMove(s)
            || exists v :: s.feed.Sending? && v in s.feed.pending && CanMove(s, v)
  {
    RunKeepsInv(acts);
    var s := Exec(acts).s;
    var r := s.waiters[w].block.root;
    assert WillBeTold(s, w, r, i);
    if s.feed.Sending? {
      if s.feed.pending != {} {
        var v :| v in s.feed.pending;
        if !Enabled(s, Deliver(v)) { BlockerCanMove(s, v); }
      }
    } else if s.waiters[w].queue == [] {
      var p :| IsPublishing(s, p, r, i);
      assert Enabled(s, BeginSend(p));
    }
  }

  // ---------------------------------------------------------------- and it can always be read

  function RunFrom(s: State, acts: seq<Action>): Outcome {
    if acts == [] then At(s)
    else
      var before := RunFrom(s, acts[..|acts| - 1]);
      var a := acts[|acts| - 1];
      if before.At? && Enabled(before.s, a) then At(Apply(before.s, a)) else Stuck
  }

  lemma {:induction false} ExecGoesOn(acts: seq<Action>, more: seq<Action>)
    requires Exec(acts).At?
    ensures Exec(acts + more) == RunFrom(Exec(acts).s, more)
  {
    if more == [] {
      assert acts + more == acts;
    } else {
      assert (acts + more)[..|acts + more| - 1] == acts + more[..|more| - 1];
      ExecGoesOn(acts, more[..|more| - 1]);
    }
  }

  lemma {:induction false} RunGoesOn(s: State, first: seq<Action>, more: seq<Action>)
    requires RunFrom(s, first).At?
    ensures RunFrom(s, first + more) == RunFrom(RunFrom(s, first).s, more)
  {
    if more == [] {
      assert first + more == first;
    } else {
      assert (first + more)[..|first + more| - 1] == first + more[..|more| - 1];
      RunGoesOn(s, first, more[..|more| - 1]);
    }
  }

  /** A step of the feed, or of a subscriber that is not given up on. */
  ghost predicate Orderly(a: Action) {
    || a.BeginSend? || a.Deliver? || a.EndSend?
    || a.CountStored? || a.FindMissing? || a.Receive? || a.Unsubscribe?
  }

  /** Nothing but such steps lead from s to t. */
  ghost predicate Leads(s: State, acts: seq<Action>, t: State) {
    RunFrom(s, acts) == At(t) && (forall a :: a in acts ==> Orderly(a)) && Inv(t) && t.stored == s.stored
  }

  lemma OneStep(s: State, a: Action)
    requires Inv(s) && Enabled(s, a) && Orderly(a)
    ensures Leads(s, [a], Apply(s, a))
  {
    assert [a][..0] == [];
    assert RunFrom(s, [a][..0]) == At(s);
    ActionKeeps(s, a);
  }

  lemma Chained(s: State, acts: seq<Action>, t: State, more: seq<Action>, u: State)
    requires Leads(s, acts, t) && Leads(t, more, u)
    ensures Leads(s, acts + more, u)
  {
    RunGoesOn(s, acts, more);
  }

  /** How many steps a subscriber is from making room in its channel or leaving. */
  ghost function Stage(at: Progress): nat {
    match at
    case Subscribed => 3
    case Counted(_) => 2
    case Waiting(_, _) => 1
    case _ => 0
  }

  /** The step a subscriber with a full channel takes. */
  ghost function NextStep(s: State, v: Wid): (a: Action)
    requires Inv(s) && v in s.waiters && s.waiters[v].subscribed && s.waiters[v].queue != []
    ensures Orderly(a) && Enabled(s, a)
  {
    assert SubscriptionOk(s.waiters[v]);
    match s.waiters[v].at
    case Subscribed => CountStored(v)
    case Counted(_) => FindMissing(v)
    case Waiting(_, _) => Receive(v)
    case _ => Unsubscribe(v)
  }

  /** The send in progress can get past any one subscriber. */
  lemma {:induction false} GetPast(s: State, v: Wid) returns (acts: seq<Action>, t: State)
    requires Inv(s) && s.feed.Sending? && v in s.feed.pending
    ensures Leads(s, acts, t) && t.feed.Sending? && t.feed.pending == s.feed.pending - {v}
    decreases Stage(s.waiters[v].at), |s.waiters[v].queue|
  {
    if Enabled(s, Deliver(v)) {
      OneStep(s, Deliver(v));
      return [Deliver(v)], Apply(s, Deliver(v));
    }
    var a := NextStep(s, v);
    OneStep(s, a);
    t := Apply(s, a);
    acts := [a];
    if !a.Unsubscribe? {
      var more, u := GetPast(t, v);
      Chained(s, acts, t, more, u);
      return acts + more, u;
    }
  }

  /** The send in progress can be brought to its end. */
  lemma {:induction false} FinishSend(s: State) returns (acts: seq<Action>, t: State)
    requires Inv(s) && s.feed.Sending?
    ensures Leads(s, acts, t) && t.feed.Quiet?
    decreases |s.feed.pending|
  {
    if s.feed.pending == {} {
      OneStep(s, EndSend);
      return [EndSend], Apply(s, EndSend);
    }
    var v :| v in s.feed.pending;
    acts, t := GetPast(s, v);
    var more, u := FinishSend(t);
    Chained(s, acts, t, more, u);
    return acts + more, u;
  }

  /** Reading a notification that names the column settles it. */
  lemma ReadSettles(s: State, w: Wid, i: Idx)
    requires Inv(s) && Misses(s, w, i) && s.waiters[w].queue != []
    requires Names(s.waiters[w].queue[0], s.waiters[w].block.root, i)
    ensures !Misses(Apply(s, Receive(w)), w, i)
  {
    var me := s.waiters[w];
    var ident, cols := me.queue[0], StoredOf(s.stored, me.block.root);
    assert forall j :: j in ident.indices ==> (me.block.root, j) in Pairs(ident);
    AbsorbKeeps(me.block, cols, me.at.count, me.at.missing, ident.indices);
  }

  /** With the feed quiet, a stored column the waiter misses is published and read. */
  lemma PublishAndRead(s: State, w: Wid, i: Idx) returns (acts: seq<Action>, t: State)
    requires Inv(s) && Misses(s, w, i) && (s.waiters[w].block.root, i) in s.stored
    requires s.feed.Quiet? && s.waiters[w].queue == []
    ensures Leads(s, acts, t) && !Misses(t, w, i)
  {
    var r := s.waiters[w].block.root;
    assert WillBeTold(s, w, r, i) && SubscriptionOk(s.waiters[w]);
    var p :| IsPublishing(s, p, r, i);
    OneStep(s, BeginSend(p));
    var s1 := Apply(s, BeginSend(p));
    OneStep(s1, Deliver(w));
    var s2 := Apply(s1, Deliver(w));
    OneStep(s2, Receive(w));
    ReadSettles(s2, w, i);
    t := Apply(s2, Receive(w));
    Chained(s, [BeginSend(p)], s1, [Deliver(w)], s2);
    Chained(s, [BeginSend(p)] + [Deliver(w)], s2, [Receive(w)], t);
    acts := [BeginSend(p)] + [Deliver(w)] + [Receive(w)];
  }

  /** With the feed quiet, whatever is in the waiter's channel is read first. */
  lemma ReadAndPublish(s: State, w: Wid, i: Idx) returns (acts: seq<Action>, t: State)
    requires Inv(s) && Misses(s, w, i) && (s.waiters[w].block.root, i) in s.stored && s.feed.Quiet?
    ensures Leads(s, acts, t) && !Misses(t, w, i)
  {
    if s.waiters[w].queue == [] {
      acts, t := PublishAndRead(s, w, i);
    } else {
      assert SubscriptionOk(s.waiters[w]);
      OneStep(s, Receive(w));
      acts, t := [Receive(w)], Apply(s, Receive(w));
      if Misses(t, w, i) {
        var more, u := PublishAndRead(t, w, i);
        Chained(s, acts, t, more, u);
        return acts + more, u;
      }
    }
  }

  /** From every reachable state a stored column can be brought to a waiter that misses it, by steps of
      the feed and of subscribers alone: no subscriber can hold the feed up for good. */
  lemma {:induction false} StoredColumnCanBeRead(acts: seq<Action>, w: Wid, i: Idx) returns (more: seq<Action>)
    requires Exec(acts).At? && Misses(Exec(acts).s, w, i)
    requires (Exec(acts).s.waiters[w].block.root, i) in Exec(acts).s.stored
    ensures Exec(acts + more).At? && !Misses(Exec(acts + more).s, w, i)
    ensures forall a :: a in more ==> Orderly(a)
  {
    RunKeepsInv(acts);
    var s := Exec(acts).s;
    more := [];
    var t := s;
    if s.feed.Sending? {
      more, t := FinishSend(s);
    }
    assert Leads(s, more, t);
    if Misses(t, w, i) {
      SameBlock(s, more, t, w);
      var rest, u := ReadAndPublish(t, w, i);
      Chained(s, more, t, rest, u);
      more := more + rest;
    }
    ExecGoesOn(acts, more);
  }

  lemma {:induction false} SameBlock(s: State, acts: seq<Action>, t: State, w: Wid)
    requires RunFrom(s, acts) == At(t) && w in s.waiters
    ensures w in t.waiters && t.waiters[w].block == s.waiters[w].block
  {
    if acts != [] {
      SameBlock(s, acts[..|acts| - 1], RunFrom(s, acts[..|acts| - 1]).s, w);
    }
  }
}
