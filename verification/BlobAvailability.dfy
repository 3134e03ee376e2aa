/** Blobs arriving against a block waiting for them: every interleaving of ReceiveBlob, which stores a
    blob and then notifies, of the writers that store one and do not, and of areBlobsAvailable, which
    checks the disk and then waits for notifications, with blobNotifierMap between them. */
module BlobAvailability {
  import opened Common

  type Root = nat
  type Idx = nat
  type ChanId = nat
  type Pid = nat

  /** Facts about blocks: a root has one slot, hence one limit on its blobs, and one list of
      commitments, given by their lengths. */
  datatype Blocks = Blocks(maxBlobs: Root -> nat, commitments: Root -> seq<nat>)

  /** A goroutine inside ReceiveBlob. */
  datatype Receiver =
    | Saving(root: Root, idx: Idx)    // about to write the blob
    | Notifying(root: Root, idx: Idx) // written; about to enter notifyIndex
    | Sending(ch: ChanId, idx: Idx)   // notifyIndex has released the mutex; at the channel send
    | Returned

  /** The goroutine syncing a block: at most one per root, by currentlySyncingBlock. */
  datatype Waiter =
    | Started
    | Checked(missing: set<Idx>)               // disk checked; about to call forRoot
    | Waiting(ch: ChanId, missing: set<Idx>)   // at the select
    | AllSeen                                  // about to call delete
    | Available(inWindow: bool)                // areBlobsAvailable returned nil
    | Unavailable                              // ... or an error

  datatype Chan = Chan(cap: nat, buf: seq<Idx>)

  /** `told` and `quiet` record what happened to a root since its last disk check: the indices ReceiveBlob
      has called notifyIndex for, and those other writers have stored. */
  datatype State = State(
    stored: set<(Root, Idx)>,
    notifiers: map<Root, ChanId>,
    seen: map<Root, set<Idx>>,
    chans: seq<Chan>,
    receivers: map<Pid, Receiver>,
    waiters: map<Root, Waiter>,
    told: set<(Root, Idx)>,
    quiet: set<(Root, Idx)>)

  const Init := State({}, map[], map[], [], map[], map[], {}, {})

  datatype Action =
    | NewReceiver(p: Pid, root: Root, idx: Idx)
    | Save(p: Pid, fails: bool)
    | SaveQuietly(r: Root, i: Idx)
    | Notify(p: Pid)
    | Send(p: Pid)
    | BeginSync(r: Root)
    | CheckDisk(r: Root, inWindow: bool)
    | ForRoot(r: Root)
    | Recv(r: Root)
    | Cancel(r: Root)
    | DeleteNotifier(r: Root)
    | EndSync(r: Root)

  predicate Enabled(s: State, a: Action) {
    match a
    case NewReceiver(p, _, _) => p !in s.receivers
    case Save(p, _) => p in s.receivers && s.receivers[p].Saving?
    case SaveQuietly(_, _) => true
    case Notify(p) => p in s.receivers && s.receivers[p].Notifying?
    case Send(p) =>
      && p in s.receivers && s.receivers[p].Sending?
      && s.receivers[p].ch < |s.chans|
      && |s.chans[s.receivers[p].ch].buf| < s.chans[s.receivers[p].ch].cap
    case BeginSync(r) => r !in s.waiters
    case CheckDisk(r, _) => r in s.waiters && s.waiters[r].Started?
    case ForRoot(r) => r in s.waiters && s.waiters[r].Checked?
    case Recv(r) =>
      && r in s.waiters && s.waiters[r].Waiting?
      && s.waiters[r].ch < |s.chans|
      && s.chans[s.waiters[r].ch].buf != []
    case Cancel(r) => r in s.waiters && s.waiters[r].Waiting?
    case DeleteNotifier(r) => r in s.waiters && s.waiters[r].AllSeen?
    case EndSync(r) => r in s.waiters && (s.waiters[r].Started? || s.waiters[r].Available? || s.waiters[r].Unavailable?)
  }

  function Seen(s: State, r: Root): set<Idx> {
    if r in s.seen then s.seen[r] else {}
  }

  /** Indices with a commitment. */
  function Committed(b: Blocks, r: Root): set<Idx> {
    set i: Idx | 0 <= i < |b.commitments(r)| && b.commitments(r)[i] > 0
  }

  /** Committed indices that are not on disk. */
  function MissingIndices(b: Blocks, stored: set<(Root, Idx)>, r: Root): (missing: set<Idx>)
    ensures forall i: Idx :: i in missing <==> i in Committed(b, r) && (r, i) !in stored
  {
    set i | i in Committed(b, r) && (r, i) !in stored
  }

  /** The channel for the root and the state that has it, created when it is not there yet. */
  function WithChannel(b: Blocks, s: State, r: Root): (State, ChanId) {
    if r in s.notifiers then (s, s.notifiers[r])
    else (s.(chans := s.chans + [Chan(b.maxBlobs(r), [])], notifiers := s.notifiers[r := |s.chans|]), |s.chans|)
  }

  function SetReceiver(s: State, p: Pid, me: Receiver): State {
    s.(receivers := s.receivers[p := me])
  }

  function SetWaiter(s: State, r: Root, me: Waiter): State {
    s.(waiters := s.waiters[r := me])
  }

  function Without(xs: set<(Root, Idx)>, r: Root): set<(Root, Idx)> {
    set x | x in xs && x.0 != r
  }

  /** The record for a root starts anew at its disk check. */
  function Forget(s: State, r: Root): State {
    s.(told := Without(s.told, r), quiet := Without(s.quiet, r))
  }

  function CheckResult(b: Blocks, s: State, r: Root, inWindow: bool): Waiter {
    var expected := |b.commitments(r)|;
    if !inWindow then Available(false)
    else if expected == 0 then Available(true)
    else if expected > b.maxBlobs(r) then Unavailable
    else
      var missing := MissingIndices(b, s.stored, r);
      if missing == {} then Available(true) else Checked(missing)
  }

  function Apply(b: Blocks, s: State, a: Action): State
    requires Enabled(s, a)
  {
    match a
    case NewReceiver(p, r, i) => SetReceiver(s, p, Saving(r, i))
    case Save(p, fails) =>
      var me := s.receivers[p];
      if fails then SetReceiver(s, p, Returned)
      else SetReceiver(s.(stored := s.stored + {(me.root, me.idx)}), p, Notifying(me.root, me.idx))
    case SaveQuietly(r, i) => s.(stored := s.stored + {(r, i)}, quiet := s.quiet + {(r, i)})
    case Notify(p) =>
      var me := s.receivers[p];
      var s0 := s.(told := s.told + {(me.root, me.idx)});
      if me.idx >= b.maxBlobs(me.root) || me.idx in Seen(s, me.root) then SetReceiver(s0, p, Returned)
      else
        var (s1, c) := WithChannel(b, s0, me.root);
        SetReceiver(s1.(seen := s1.seen[me.root := Seen(s, me.root) + {me.idx}]), p, Sending(c, me.idx))
    case Send(p) =>
      var me := s.receivers[p];
      var ch := s.chans[me.ch];
      SetReceiver(s.(chans := s.chans[me.ch := ch.(buf := ch.buf + [me.idx])]), p, Returned)
    case BeginSync(r) => SetWaiter(s, r, Started)
    case CheckDisk(r, inWindow) => SetWaiter(Forget(s, r), r, CheckResult(b, s, r, inWindow))
    case ForRoot(r) =>
      var (s1, c) := WithChannel(b, s, r);
      SetWaiter(s1, r, Waiting(c, s.waiters[r].missing))
    case Recv(r) =>
      var c := s.waiters[r].ch;
      var ch := s.chans[c];
      var missing := s.waiters[r].missing - {ch.buf[0]};
      SetWaiter(s.(chans := s.chans[c := ch.(buf := ch.buf[1..])]), r,
                if missing == {} then AllSeen else Waiting(c, missing))
    case Cancel(r) => SetWaiter(s, r, Unavailable)
    case DeleteNotifier(r) => SetWaiter(s.(seen := s.seen - {r}, notifiers := s.notifiers - {r}), r, Available(true))
    case EndSync(r) => s.(waiters := s.waiters - {r})
  }

  datatype Outcome = Stuck | At(s: State)

  function Exec(b: Blocks, acts: seq<Action>): Outcome {
    if acts == [] then At(Init)
    else
      var before := Exec(b, acts[..|acts| - 1]);
      var a := acts[|acts| - 1];
      if before.At? && Enabled(before.s, a) then At(Apply(b, before.s, a)) else Stuck
  }

  // ---------------------------------------------------------------- the invariant

  /** What the invariant is about: `notifying` are the blobs stored by a goroutine that has yet to
      enter notifyIndex, `sending` the indices about to be put into a channel. */
  datatype View = View(
    stored: set<(Root, Idx)>,
    notifiers: map<Root, ChanId>,
    seen: map<Root, set<Idx>>,
    chans: seq<Chan>,
    notifying: set<(Root, Idx)>,
    sending: set<(ChanId, Idx)>,
    told: set<(Root, Idx)>,
    quiet: set<(Root, Idx)>)

  ghost function NotifyingSet(s: State): set<(Root, Idx)> {
    set p | p in s.receivers && s.receivers[p].Notifying? :: (s.receivers[p].root, s.receivers[p].idx)
  }

  ghost function SendingSet(s: State): set<(ChanId, Idx)> {
    set p | p in s.receivers && s.receivers[p].Sending? :: (s.receivers[p].ch, s.receivers[p].idx)
  }

  ghost function ViewOf(s: State): View {
    View(s.stored, s.notifiers, s.seen, s.chans, NotifyingSet(s), SendingSet(s), s.told, s.quiet)
  }

  function SeenIn(v: View, r: Root): set<Idx> {
    if r in v.seen then v.seen[r] else {}
  }

  /** i is in channel c or about to be put there. */
  ghost predicate InFlight(v: View, c: ChanId, i: Idx) {
    (c < |v.chans| && i in v.chans[c].buf) || (c, i) in v.sending
  }

  /** A channel holds each index at most once, and only indices below its capacity. */
  ghost predicate ChannelsOk(v: View) {
    && (forall c :: 0 <= c < |v.chans| ==> NoDuplicates(v.chans[c].buf))
    && (forall c, i :: 0 <= c < |v.chans| && i in v.chans[c].buf ==> i < v.chans[c].cap)
    && (forall c: ChanId, i: Idx {:trigger (c, i) in v.sending} :: (c, i) in v.sending ==>
          c < |v.chans| && i < v.chans[c].cap && i !in v.chans[c].buf)
  }

  /** seen remembers everything given to the registered channel, and only stored blobs are seen. */
  ghost predicate RegistryOk(b: Blocks, v: View) {
    && (forall r :: r in v.notifiers ==> v.notifiers[r] < |v.chans| && v.chans[v.notifiers[r]].cap == b.maxBlobs(r))
    && (forall r, q :: r in v.notifiers && q in v.notifiers && v.notifiers[r] == v.notifiers[q] ==> r == q)
    && (forall r, i: Idx :: r in v.notifiers && InFlight(v, v.notifiers[r], i) ==> i in SeenIn(v, r))
    && (forall r: Root, i: Idx :: i in SeenIn(v, r) ==> (r, i) in v.stored)
    && v.notifying <= v.stored && v.quiet <= v.stored
  }

  /** A blob the waiter misses is on its way through the registered channel if it has been notified since
      the disk check, and otherwise not stored, about to be notified, or stored by a quiet writer. */
  ghost predicate AccountedFor(v: View, r: Root, i: Idx) {
    && (i in SeenIn(v, r) <==> (r, i) in v.told)
    && (i in SeenIn(v, r) ==> r in v.notifiers && InFlight(v, v.notifiers[r], i))
    && (i !in SeenIn(v, r) && (r, i) in v.stored ==> (r, i) in v.notifying || (r, i) in v.quiet)
  }

  ghost predicate MissingOk(b: Blocks, v: View, r: Root, missing: set<Idx>) {
    && (forall i :: i in missing ==> i < b.maxBlobs(r) && AccountedFor(v, r, i))
    && (forall i :: i in Committed(b, r) ==> i in missing || (r, i) in v.stored)
  }

  ghost predicate AllStored(b: Blocks, stored: set<(Root, Idx)>, r: Root) {
    forall i :: i in Committed(b, r) ==> (r, i) in stored
  }

  ghost predicate WaiterOk(b: Blocks, v: View, r: Root, w: Waiter) {
    match w
    case Checked(missing) => MissingOk(b, v, r, missing)
    case Waiting(c, missing) => r in v.notifiers && v.notifiers[r] == c && MissingOk(b, v, r, missing)
    case AllSeen => AllStored(b, v.stored, r)
    case Available(inWindow) => inWindow ==> AllStored(b, v.stored, r)
    case _ => true
  }

  ghost predicate WaitersOk(b: Blocks, v: View, waiters: map<Root, Waiter>) {
    forall r :: r in waiters ==> WaiterOk(b, v, r, waiters[r])
  }

  /** No two goroutines are about to put the same index into the same channel. */
  ghost predicate SendersApart(s: State) {
    forall p, q ::
      p in s.receivers && q in s.receivers && s.receivers[p].Sending? && s.receivers[p] == s.receivers[q] ==> p == q
  }

  ghost predicate Inv(b: Blocks, s: State) {
    ChannelsOk(ViewOf(s)) && RegistryOk(b, ViewOf(s)) && WaitersOk(b, ViewOf(s), s.waiters) && SendersApart(s)
  }

  // ---------------------------------------------------------------- moves of the view

  /** A waiter is all right as long as what it misses stays accounted for. */
  lemma WaiterStaysOk(b: Blocks, v: View, v': View, q: Root, w: Waiter)
    requires WaiterOk(b, v, q, w) && v'.notifiers == v.notifiers && v.stored <= v'.stored
    requires forall j: Idx :: AccountedFor(v, q, j) ==> AccountedFor(v', q, j)
    ensures WaiterOk(b, v', q, w)
  {
  }

  lemma SaveMove(b: Blocks, v: View, v': View, r: Root, i: Idx, waiters: map<Root, Waiter>)
    requires ChannelsOk(v) && RegistryOk(b, v) && WaitersOk(b, v, waiters)
    requires v' == v.(stored := v.stored + {(r, i)}, notifying := v.notifying + {(r, i)})
    ensures ChannelsOk(v') && RegistryOk(b, v') && WaitersOk(b, v', waiters)
  {
    assert forall c: ChanId, j: Idx :: InFlight(v', c, j) == InFlight(v, c, j);
    forall q | q in waiters
      ensures WaiterOk(b, v', q, waiters[q])
    {
      assert forall j: Idx :: AccountedFor(v, q, j) ==> AccountedFor(v', q, j);
      WaiterStaysOk(b, v, v', q, waiters[q]);
    }
  }

  /** A writer that does not notify. */
  lemma QuietMove(b: Blocks, v: View, v': View, r: Root, i: Idx, waiters: map<Root, Waiter>)
    requires ChannelsOk(v) && RegistryOk(b, v) && WaitersOk(b, v, waiters)
    requires v' == v.(stored := v.stored + {(r, i)}, quiet := v.quiet + {(r, i)})
    ensures ChannelsOk(v') && RegistryOk(b, v') && WaitersOk(b, v', waiters)
  {
    assert forall c: ChanId, j: Idx :: InFlight(v', c, j) == InFlight(v, c, j);
    forall q | q in waiters
      ensures WaiterOk(b, v', q, waiters[q])
    {
      assert forall j: Idx :: AccountedFor(v, q, j) ==> AccountedFor(v', q, j);
      WaiterStaysOk(b, v, v', q, waiters[q]);
    }
  }

  /** A goroutine leaves notifyIndex early: the index is out of range or already seen. */
  lemma SkipMove(b: Blocks, v: View, v': View, r: Root, i: Idx, waiters: map<Root, Waiter>)
    requires ChannelsOk(v) && RegistryOk(b, v) && WaitersOk(b, v, waiters)
    requires i >= b.maxBlobs(r) || i in SeenIn(v, r)
    requires v' == v.(notifying := v'.notifying, told := v.told + {(r, i)})
    requires v.notifying - {(r, i)} <= v'.notifying <= v.notifying
    ensures ChannelsOk(v') && RegistryOk(b, v') && WaitersOk(b, v', waiters)
  {
    assert forall c: ChanId, j: Idx :: InFlight(v', c, j) == InFlight(v, c, j);
    forall q | q in waiters
      ensures WaiterOk(b, v', q, waiters[q])
    {
      SkipKeepsWaiter(b, v, v', r, i, q, waiters[q]);
    }
  }

  lemma SkipKeepsWaiter(b: Blocks, v: View, v': View, r: Root, i: Idx, q: Root, w: Waiter)
    requires WaiterOk(b, v, q, w) && (i >= b.maxBlobs(r) || i in SeenIn(v, r))
    requires v' == v.(notifying := v'.notifying, told := v.told + {(r, i)}) && v.notifying - {(r, i)} <= v'.notifying
    ensures WaiterOk(b, v', q, w)
  {
    assert forall j: Idx :: j < b.maxBlobs(q) && AccountedFor(v, q, j) ==> AccountedFor(v', q, j);
  }

  lemma CreateChannel(b: Blocks, v: View, v': View, r: Root)
    requires ChannelsOk(v) && RegistryOk(b, v) && r !in v.notifiers
    requires v' == v.(chans := v.chans + [Chan(b.maxBlobs(r), [])], notifiers := v.notifiers[r := |v.chans|])
    ensures ChannelsOk(v') && RegistryOk(b, v')
    ensures forall c: ChanId, j: Idx :: InFlight(v', c, j) == InFlight(v, c, j)
  {
    CreateMovesNothing(b, v, v', r);
    assert forall q: Root :: SeenIn(v', q) == SeenIn(v, q);
    forall q, j: Idx | q in v'.notifiers && InFlight(v', v'.notifiers[q], j)
      ensures j in SeenIn(v', q)
    {
      assert q != r;
    }
  }

  lemma CreateMovesNothing(b: Blocks, v: View, v': View, r: Root)
    requires ChannelsOk(v)
    requires v' == v.(chans := v.chans + [Chan(b.maxBlobs(r), [])], notifiers := v.notifiers[r := |v.chans|])
    ensures ChannelsOk(v')
    ensures forall j: Idx :: !InFlight(v', |v.chans|, j)
    ensures forall c: ChanId, j: Idx :: InFlight(v', c, j) == InFlight(v, c, j)
  {
  }

  lemma CreateMove(b: Blocks, v: View, v': View, r: Root, waiters: map<Root, Waiter>)
    requires ChannelsOk(v) && RegistryOk(b, v) && WaitersOk(b, v, waiters)
    requires r !in v.notifiers
    requires v' == v.(chans := v.chans + [Chan(b.maxBlobs(r), [])], notifiers := v.notifiers[r := |v.chans|])
    ensures ChannelsOk(v') && RegistryOk(b, v') && WaitersOk(b, v', waiters)
  {
    CreateChannel(b, v, v', r);
    forall q | q in waiters
      ensures WaiterOk(b, v', q, waiters[q])
    {
      assert WaiterOk(b, v, q, waiters[q]);
    }
  }

  /** notifyIndex marks the index seen and picks the registered channel for it. */
  lemma AssignMove(b: Blocks, v: View, v': View, r: Root, i: Idx, waiters: map<Root, Waiter>)
    requires ChannelsOk(v) && RegistryOk(b, v) && WaitersOk(b, v, waiters)
    requires r in v.notifiers && (r, i) in v.notifying && i < b.maxBlobs(r) && i !in SeenIn(v, r)
    requires v' == v.(seen := v.seen[r := SeenIn(v, r) + {i}], sending := v.sending + {(v.notifiers[r], i)},
                      notifying := v'.notifying, told := v.told + {(r, i)})
    requires v.notifying - {(r, i)} <= v'.notifying <= v.notifying
    ensures ChannelsOk(v') && RegistryOk(b, v') && WaitersOk(b, v', waiters)
  {
    var c := v.notifiers[r];
    assert !InFlight(v, c, i);
    assert forall d: ChanId, j: Idx :: InFlight(v', d, j) == (InFlight(v, d, j) || (d == c && j == i));
    assert forall q: Root :: SeenIn(v', q) == if q == r then SeenIn(v, r) + {i} else SeenIn(v, q);
    forall q | q in waiters
      ensures WaiterOk(b, v', q, waiters[q])
    {
      assert WaiterOk(b, v, q, waiters[q]);
      assert forall j: Idx :: AccountedFor(v, q, j) ==> AccountedFor(v', q, j);
    }
  }

  lemma PutMove(b: Blocks, v: View, v': View, c: ChanId, i: Idx, waiters: map<Root, Waiter>)
    requires ChannelsOk(v) && RegistryOk(b, v) && WaitersOk(b, v, waiters)
    requires (c, i) in v.sending
    requires v' == v.(sending := v.sending - {(c, i)}, chans := v.chans[c := v.chans[c].(buf := v.chans[c].buf + [i])])
    ensures ChannelsOk(v') && RegistryOk(b, v') && WaitersOk(b, v', waiters)
  {
    assert forall d: ChanId, j: Idx :: InFlight(v', d, j) == InFlight(v, d, j);
    forall q | q in waiters
      ensures WaiterOk(b, v', q, waiters[q])
    {
      assert forall j: Idx :: AccountedFor(v, q, j) ==> AccountedFor(v', q, j);
      WaiterStaysOk(b, v, v', q, waiters[q]);
    }
  }

  lemma TakeChannel(b: Blocks, v: View, v': View, r: Root, c: ChanId)
    requires ChannelsOk(v) && RegistryOk(b, v) && r in v.notifiers && c == v.notifiers[r] && v.chans[c].buf != []
    requires v' == v.(chans := v.chans[c := v.chans[c].(buf := v.chans[c].buf[1..])])
    ensures ChannelsOk(v') && RegistryOk(b, v')
    ensures forall d: ChanId, j: Idx :: InFlight(v', d, j) ==> InFlight(v, d, j)
    ensures forall d: ChanId, j: Idx :: InFlight(v, d, j) && !(d == c && j == v.chans[c].buf[0]) ==> InFlight(v', d, j)
  {
    var buf := v.chans[c].buf;
    assert buf == [buf[0]] + buf[1..];
    assert forall j :: j in buf[1..] ==> j in buf;
    assert forall d: ChanId, j: Idx :: InFlight(v', d, j) ==> InFlight(v, d, j);
    assert forall q: Root :: SeenIn(v', q) == SeenIn(v, q);
  }

  /** The waiter of r takes the first index off its channel. */
  lemma TakeMove(b: Blocks, v: View, v': View, r: Root, waiters: map<Root, Waiter>, waiters': map<Root, Waiter>)
    requires ChannelsOk(v) && RegistryOk(b, v) && WaitersOk(b, v, waiters)
    requires r in waiters && waiters[r].Waiting? && v.chans[v.notifiers[r]].buf != []
    requires var c := v.notifiers[r]; v' == v.(chans := v.chans[c := v.chans[c].(buf := v.chans[c].buf[1..])])
    requires var missing := waiters[r].missing - {v.chans[v.notifiers[r]].buf[0]};
             waiters' == waiters[r := if missing == {} then AllSeen else Waiting(v.notifiers[r], missing)]
    ensures ChannelsOk(v') && RegistryOk(b, v') && WaitersOk(b, v', waiters')
  {
    var c := v.notifiers[r];
    assert WaiterOk(b, v, r, waiters[r]);
    TakeChannel(b, v, v', r, c);
    var i := v.chans[c].buf[0];
    assert InFlight(v, c, i);
    assert i in SeenIn(v, r) && (r, i) in v.stored;
    assert forall j :: j in waiters[r].missing ==> j in waiters[r].missing - {i} || j == i;
    forall q | q in waiters'
      ensures WaiterOk(b, v', q, waiters'[q])
    {
      assert WaiterOk(b, v, q, waiters[q]);
    }
  }

  lemma DeleteMove(b: Blocks, v: View, v': View, r: Root, waiters: map<Root, Waiter>, waiters': map<Root, Waiter>)
    requires ChannelsOk(v) && RegistryOk(b, v) && WaitersOk(b, v, waiters)
    requires r in waiters && waiters[r].AllSeen?
    requires v' == v.(seen := v.seen - {r}, notifiers := v.notifiers - {r})
    requires waiters' == waiters[r := Available(true)]
    ensures ChannelsOk(v') && RegistryOk(b, v') && WaitersOk(b, v', waiters')
  {
    assert forall d: ChanId, j: Idx :: InFlight(v', d, j) == InFlight(v, d, j);
    assert forall q: Root :: SeenIn(v', q) == if q == r then {} else SeenIn(v, q);
    assert WaiterOk(b, v, r, waiters[r]);
    forall q | q in waiters && q != r
      ensures WaiterOk(b, v', q, waiters[q])
    {
      DeleteKeepsWaiter(b, v, v', r, q, waiters[q]);
    }
  }

  lemma DeleteKeepsWaiter(b: Blocks, v: View, v': View, r: Root, q: Root, w: Waiter)
    requires WaiterOk(b, v, q, w) && q != r
    requires v' == v.(seen := v.seen - {r}, notifiers := v.notifiers - {r})
    ensures WaiterOk(b, v', q, w)
  {
    assert forall j: Idx :: AccountedFor(v, q, j) ==> AccountedFor(v', q, j);
  }

  // ---------------------------------------------------------------- what each action keeps

  lemma NotifyingAfter(s: State, p: Pid, me: Receiver, s': State)
    requires s'.receivers == s.receivers[p := me]
    ensures var was := if p in s.receivers && s.receivers[p].Notifying?
                       then {(s.receivers[p].root, s.receivers[p].idx)} else {};
            var now := if me.Notifying? then {(me.root, me.idx)} else {};
            NotifyingSet(s) - was + now <= NotifyingSet(s') <= NotifyingSet(s) + now
  {
    var was := if p in s.receivers && s.receivers[p].Notifying?
               then {(s.receivers[p].root, s.receivers[p].idx)} else {};
    forall x | x in NotifyingSet(s) - was
      ensures x in NotifyingSet(s')
    {
      var q :| q in s.receivers && s.receivers[q].Notifying? && x == (s.receivers[q].root, s.receivers[q].idx);
      assert s'.receivers[q] == s.receivers[q];
    }
    if me.Notifying? { assert s'.receivers[p] == me; }
  }

  lemma SendingAfter(s: State, p: Pid, me: Receiver, s': State)
    requires SendersApart(s) && s'.receivers == s.receivers[p := me]
    ensures var was := if p in s.receivers && s.receivers[p].Sending?
                       then {(s.receivers[p].ch, s.receivers[p].idx)} else {};
            var now := if me.Sending? then {(me.ch, me.idx)} else {};
            SendingSet(s') == SendingSet(s) - was + now
  {
    var was := if p in s.receivers && s.receivers[p].Sending?
               then {(s.receivers[p].ch, s.receivers[p].idx)} else {};
    var now := if me.Sending? then {(me.ch, me.idx)} else {};
    forall x | x in SendingSet(s) - was
      ensures x in SendingSet(s')
    {
      var q :| q in s.receivers && s.receivers[q].Sending? && x == (s.receivers[q].ch, s.receivers[q].idx);
      assert s'.receivers[q] == s.receivers[q];
    }
    forall x | x in SendingSet(s')
      ensures x in SendingSet(s) - was + now
    {
      var q :| q in s'.receivers && s'.receivers[q].Sending? && x == (s'.receivers[q].ch, s'.receivers[q].idx);
      if q != p && p in s.receivers && s.receivers[p].Sending? { assert s.receivers[q] != s.receivers[p]; }
    }
    if me.Sending? { assert s'.receivers[p] == me; }
  }

  lemma ReceiverStartsOrSaves(b: Blocks, s: State, a: Action)
    requires Inv(b, s) && Enabled(s, a) && (a.NewReceiver? || a.Save?)
    ensures Inv(b, Apply(b, s, a))
  {
    if a.Save? && !a.fails {
      SaveKeeps(b, s, a.p);
    } else {
      var s' := Apply(b, s, a);
      NotifyingAfter(s, a.p, s'.receivers[a.p], s');
      SendingAfter(s, a.p, s'.receivers[a.p], s');
      assert ViewOf(s') == ViewOf(s);
    }
  }

  lemma SaveKeeps(b: Blocks, s: State, p: Pid)
    requires Inv(b, s) && Enabled(s, Save(p, false))
    ensures Inv(b, Apply(b, s, Save(p, false)))
  {
    var s' := Apply(b, s, Save(p, false));
    NotifyingAfter(s, p, s'.receivers[p], s');
    SendingAfter(s, p, s'.receivers[p], s');
    SaveMove(b, ViewOf(s), ViewOf(s'), s.receivers[p].root, s.receivers[p].idx, s.waiters);
  }

  lemma SkipKeeps(b: Blocks, s: State, p: Pid)
    requires Inv(b, s) && Enabled(s, Notify(p))
    requires s.receivers[p].idx >= b.maxBlobs(s.receivers[p].root) || s.receivers[p].idx in Seen(s, s.receivers[p].root)
    ensures Inv(b, Apply(b, s, Notify(p)))
  {
    var s' := Apply(b, s, Notify(p));
    NotifyingAfter(s, p, Returned, s');
    SendingAfter(s, p, Returned, s');
    SkipMove(b, ViewOf(s), ViewOf(s'), s.receivers[p].root, s.receivers[p].idx, s.waiters);
  }

  lemma WithChannelKeeps(b: Blocks, s: State, r: Root)
    requires Inv(b, s)
    ensures var (s1, c) := WithChannel(b, s, r);
            Inv(b, s1) && s1.receivers == s.receivers && s1.waiters == s.waiters && s1.seen == s.seen
            && s1.stored == s.stored && s1.told == s.told && r in s1.notifiers && s1.notifiers[r] == c
  {
    var s1 := WithChannel(b, s, r).0;
    assert NotifyingSet(s1) == NotifyingSet(s) && SendingSet(s1) == SendingSet(s);
    if r !in s.notifiers { CreateMove(b, ViewOf(s), ViewOf(s1), r, s.waiters); }
  }

  lemma AssignKeeps(b: Blocks, s1: State, p: Pid, s': State)
    requires Inv(b, s1) && p in s1.receivers && s1.receivers[p].Notifying? && s1.receivers[p].root in s1.notifiers
    requires var me := s1.receivers[p];
             && me.idx < b.maxBlobs(me.root) && me.idx !in Seen(s1, me.root)
             && s' == SetReceiver(s1.(seen := s1.seen[me.root := Seen(s1, me.root) + {me.idx}],
                                      told := s1.told + {(me.root, me.idx)}),
                                  p, Sending(s1.notifiers[me.root], me.idx))
    ensures Inv(b, s')
  {
    var me := s1.receivers[p];
    NotifyingAfter(s1, p, s'.receivers[p], s');
    SendingAfter(s1, p, s'.receivers[p], s');
    assert (me.root, me.idx) in NotifyingSet(s1);
    AssignMove(b, ViewOf(s1), ViewOf(s'), me.root, me.idx, s1.waiters);
    NewSenderApart(b, s1, s1, p, s');
  }

  lemma NotifyKeeps(b: Blocks, s: State, a: Action)
    requires Inv(b, s) && Enabled(s, a) && a.Notify?
    ensures Inv(b, Apply(b, s, a))
  {
    var me := s.receivers[a.p];
    if me.idx >= b.maxBlobs(me.root) || me.idx in Seen(s, me.root) {
      SkipKeeps(b, s, a.p);
    } else {
      WithChannelKeeps(b, s, me.root);
      AssignKeeps(b, WithChannel(b, s, me.root).0, a.p, Apply(b, s, a));
    }
  }

  lemma NewSenderApart(b: Blocks, s: State, s1: State, p: Pid, s': State)
    requires RegistryOk(b, ViewOf(s1)) && SendersApart(s) && s1.receivers == s.receivers
    requires p in s.receivers && s.receivers[p].Notifying? && s.receivers[p].root in s1.notifiers
    requires s.receivers[p].idx !in SeenIn(ViewOf(s1), s.receivers[p].root)
    requires s'.receivers == s.receivers[p := Sending(s1.notifiers[s.receivers[p].root], s.receivers[p].idx)]
    ensures SendersApart(s')
  {
    var me, v := s.receivers[p], ViewOf(s1);
    var c := s1.notifiers[me.root];
    assert !InFlight(v, c, me.idx);
    assert forall q :: q in s1.receivers && s1.receivers[q].Sending? ==>
                         (s1.receivers[q].ch, s1.receivers[q].idx) in v.sending;
  }

  lemma SendKeeps(b: Blocks, s: State, a: Action)
    requires Inv(b, s) && Enabled(s, a) && a.Send?
    ensures Inv(b, Apply(b, s, a))
  {
    var s' := Apply(b, s, a);
    NotifyingAfter(s, a.p, s'.receivers[a.p], s');
    SendingAfter(s, a.p, s'.receivers[a.p], s');
    assert (s.receivers[a.p].ch, s.receivers[a.p].idx) in SendingSet(s);
    PutMove(b, ViewOf(s), ViewOf(s'), s.receivers[a.p].ch, s.receivers[a.p].idx, s.waiters);
  }

  lemma CheckedWaiterOk(b: Blocks, s: State, r: Root, inWindow: bool)
    requires RegistryOk(b, ViewOf(s))
    ensures WaiterOk(b, ViewOf(Forget(s, r)), r, CheckResult(b, s, r, inWindow))
  {
    assert forall i :: i in Committed(b, r) ==> i in MissingIndices(b, s.stored, r) || (r, i) in s.stored;
    if |b.commitments(r)| == 0 { assert Committed(b, r) == {}; }
  }

  /** Replacing one waiter's state. */
  lemma OneWaiterChanges(b: Blocks, v: View, waiters: map<Root, Waiter>, r: Root, w: Waiter)
    requires WaitersOk(b, v, waiters) && WaiterOk(b, v, r, w)
    ensures WaitersOk(b, v, waiters[r := w])
  {
  }

  lemma CheckKeeps(b: Blocks, s: State, a: Action)
    requires Inv(b, s) && Enabled(s, a) && a.CheckDisk?
    ensures Inv(b, Apply(b, s, a))
  {
    var s1 := Forget(s, a.r);
    ForgetMove(b, ViewOf(s), ViewOf(s1), a.r, s.waiters);
    CheckedWaiterOk(b, s, a.r, a.inWindow);
    OneWaiterChanges(b, ViewOf(s1), s.waiters, a.r, CheckResult(b, s, a.r, a.inWindow));
    assert ViewOf(Apply(b, s, a)) == ViewOf(s1);
  }

  lemma ForgetMove(b: Blocks, v: View, v': View, r: Root, waiters: map<Root, Waiter>)
    requires ChannelsOk(v) && RegistryOk(b, v) && WaitersOk(b, v, waiters)
    requires r in waiters && waiters[r].Started?
    requires v' == v.(told := Without(v.told, r), quiet := Without(v.quiet, r))
    ensures ChannelsOk(v') && RegistryOk(b, v') && WaitersOk(b, v', waiters)
  {
    assert forall c: ChanId, j: Idx :: InFlight(v', c, j) == InFlight(v, c, j);
    forall q | q in waiters
      ensures WaiterOk(b, v', q, waiters[q])
    {
      assert WaiterOk(b, v, q, waiters[q]);
      assert q != r ==> forall j: Idx :: AccountedFor(v, q, j) ==> AccountedFor(v', q, j);
    }
  }

  lemma ForRootKeeps(b: Blocks, s: State, a: Action)
    requires Inv(b, s) && Enabled(s, a) && a.ForRoot?
    ensures Inv(b, Apply(b, s, a))
  {
    var s' := Apply(b, s, a);
    assert NotifyingSet(s') == NotifyingSet(s) && SendingSet(s') == SendingSet(s);
    if a.r in s.notifiers {
      assert ViewOf(s') == ViewOf(s);
    } else {
      CreateMove(b, ViewOf(s), ViewOf(s'), a.r, s.waiters);
    }
    assert WaiterOk(b, ViewOf(s'), a.r, s.waiters[a.r]);
    OneWaiterChanges(b, ViewOf(s'), s.waiters, a.r, s'.waiters[a.r]);
  }

  lemma RecvKeeps(b: Blocks, s: State, a: Action)
    requires Inv(b, s) && Enabled(s, a) && a.Recv?
    ensures Inv(b, Apply(b, s, a))
  {
    var s' := Apply(b, s, a);
    assert NotifyingSet(s') == NotifyingSet(s) && SendingSet(s') == SendingSet(s);
    assert WaiterOk(b, ViewOf(s), a.r, s.waiters[a.r]);
    TakeMove(b, ViewOf(s), ViewOf(s'), a.r, s.waiters, s'.waiters);
  }

  lemma DeleteKeeps(b: Blocks, s: State, a: Action)
    requires Inv(b, s) && Enabled(s, a) && a.DeleteNotifier?
    ensures Inv(b, Apply(b, s, a))
  {
    var s' := Apply(b, s, a);
    assert NotifyingSet(s') == NotifyingSet(s) && SendingSet(s') == SendingSet(s);
    DeleteMove(b, ViewOf(s), ViewOf(s'), a.r, s.waiters, s'.waiters);
  }

  lemma SyncKeeps(b: Blocks, s: State, a: Action)
    requires Inv(b, s) && Enabled(s, a) && (a.BeginSync? || a.Cancel? || a.EndSync?)
    ensures Inv(b, Apply(b, s, a))
  {
    assert ViewOf(Apply(b, s, a)) == ViewOf(s);
  }

  lemma ActionKeeps(b: Blocks, s: State, a: Action)
    requires Inv(b, s) && Enabled(s, a)
    ensures Inv(b, Apply(b, s, a))
  {
    match a
    case NewReceiver(_, _, _) => ReceiverStartsOrSaves(b, s, a);
    case Save(_, _) => ReceiverStartsOrSaves(b, s, a);
    case SaveQuietly(r, i) =>
      var s' := Apply(b, s, a);
      assert NotifyingSet(s') == NotifyingSet(s) && SendingSet(s') == SendingSet(s);
      QuietMove(b, ViewOf(s), ViewOf(s'), r, i, s.waiters);
    case Notify(_) => NotifyKeeps(b, s, a);
    case Send(_) => SendKeeps(b, s, a);
    case CheckDisk(_, _) => CheckKeeps(b, s, a);
    case ForRoot(_) => ForRootKeeps(b, s, a);
    case Recv(_) => RecvKeeps(b, s, a);
    case DeleteNotifier(_) => DeleteKeeps(b, s, a);
    case _ => SyncKeeps(b, s, a);
  }

  lemma {:induction false} RunKeepsInv(b: Blocks, acts: seq<Action>)
    requires Exec(b, acts).At?
    ensures Inv(b, Exec(b, acts).s)
  {
    if acts == [] {
      assert NotifyingSet(Init) == {} && SendingSet(Init) == {};
    } else {
      RunKeepsInv(b, acts[..|acts| - 1]);
      ActionKeeps(b, Exec(b, acts[..|acts| - 1]).s, acts[|acts| - 1]);
    }
  }

  // ---------------------------------------------------------------- results over every run

  /** Inside the retention window areBlobsAvailable returns success only when every committed blob is
      stored. */
  lemma {:induction false} AvailableMeansStored(b: Blocks, acts: seq<Action>, r: Root, i: Idx)
    requires Exec(b, acts).At? && r in Exec(b, acts).s.waiters && Exec(b, acts).s.waiters[r] == Available(true)
    requires i < |b.commitments(r)| && b.commitments(r)[i] > 0
    ensures (r, i) in Exec(b, acts).s.stored
  {
    RunKeepsInv(b, acts);
    var s := Exec(b, acts).s;
    assert WaiterOk(b, ViewOf(s), r, s.waiters[r]);
    assert i in Committed(b, r);
  }

  /** The waiter of r is at the select and misses index i. */
  ghost predicate Misses(s: State, r: Root, i: Idx) {
    r in s.waiters && s.waiters[r].Waiting? && i in s.waiters[r].missing
  }

  ghost predicate ToNotify(s: State, r: Root, i: Idx) {
    exists p :: p in s.receivers && s.receivers[p] == Notifying(r, i)
  }

  /** Index i is in the channel the waiter of r reads, or a goroutine is at the send to it. */
  ghost predicate ComesThrough(s: State, r: Root, i: Idx)
    requires r in s.waiters && s.waiters[r].Waiting?
  {
    var c := s.waiters[r].ch;
    (c < |s.chans| && i in s.chans[c].buf) || exists p :: p in s.receivers && s.receivers[p] == Sending(c, i)
  }

  /** Action k of the run is ReceiveBlob calling notifyIndex for the index, and root r's disk has not been
      checked since. */
  ghost predicate NotifiedAt(b: Blocks, acts: seq<Action>, k: nat, r: Root, i: Idx) {
    && k < |acts| && acts[k].Notify?
    && Exec(b, acts[..k]).At? && acts[k].p in Exec(b, acts[..k]).s.receivers
    && Exec(b, acts[..k]).s.receivers[acts[k].p] == Notifying(r, i)
    && NoCheckSince(acts, k, r)
  }

  ghost predicate StoredQuietlyAt(acts: seq<Action>, k: nat, r: Root, i: Idx) {
    k < |acts| && acts[k] == SaveQuietly(r, i) && NoCheckSince(acts, k, r)
  }

  ghost predicate NoCheckSince(acts: seq<Action>, k: nat, r: Root) {
    forall j :: k < j < |acts| ==> !(acts[j].CheckDisk? && acts[j].r == r)
  }

  ghost predicate Notified(b: Blocks, acts: seq<Action>, r: Root, i: Idx) {
    exists k: nat :: NotifiedAt(b, acts, k, r, i)
  }

  ghost predicate StoredQuietly(acts: seq<Action>, r: Root, i: Idx) {
    exists k: nat :: StoredQuietlyAt(acts, k, r, i)
  }

  /** The state's record says what happened in the run. */
  lemma {:induction false} RecordIsHistory(b: Blocks, acts: seq<Action>, r: Root, i: Idx)
    requires Exec(b, acts).At?
    ensures (r, i) in Exec(b, acts).s.told <==> Notified(b, acts, r, i)
    ensures (r, i) in Exec(b, acts).s.quiet <==> StoredQuietly(acts, r, i)
  {
    if acts != [] {
      var before, a := acts[..|acts| - 1], acts[|acts| - 1];
      RecordIsHistory(b, before, r, i);
      LastAction(b, acts, r, i);
    }
  }

  ghost predicate ChecksRoot(a: Action, r: Root) {
    a.CheckDisk? && a.r == r
  }

  lemma LastAction(b: Blocks, acts: seq<Action>, r: Root, i: Idx)
    requires Exec(b, acts).At? && acts != []
    ensures var n := |acts| - 1; var before := acts[..n];
            && (Notified(b, acts, r, i) <==>
                  || NotifiedAt(b, acts, n, r, i)
                  || (Notified(b, before, r, i) && !ChecksRoot(acts[n], r)))
            && (StoredQuietly(acts, r, i) <==>
                  acts[n] == SaveQuietly(r, i) || (StoredQuietly(before, r, i) && !ChecksRoot(acts[n], r)))
  {
    var n := |acts| - 1;
    var before := acts[..n];
    forall k: nat | k < n
      ensures NotifiedAt(b, acts, k, r, i) <==> NotifiedAt(b, before, k, r, i) && !ChecksRoot(acts[n], r)
      ensures StoredQuietlyAt(acts, k, r, i) <==> StoredQuietlyAt(before, k, r, i) && !ChecksRoot(acts[n], r)
    {
      assert acts[..k] == before[..k];
      assert NoCheckSince(acts, k, r) <==> NoCheckSince(before, k, r) && !ChecksRoot(acts[n], r);
    }
    assert acts[n] == SaveQuietly(r, i) ==> StoredQuietlyAt(acts, n, r, i);
  }

  lemma ViewOfMissing(b: Blocks, s: State, r: Root, i: Idx)
    requires Inv(b, s) && Misses(s, r, i)
    ensures AccountedFor(ViewOf(s), r, i)
    ensures ComesThrough(s, r, i) <==> i in SeenIn(ViewOf(s), r)
    ensures ToNotify(s, r, i) <==> (r, i) in NotifyingSet(s)
  {
    var v, c := ViewOf(s), s.waiters[r].ch;
    assert WaiterOk(b, v, r, s.waiters[r]);
    assert ComesThrough(s, r, i) <==> InFlight(v, c, i) by {
      if (c, i) in v.sending {
        var p :| p in s.receivers && s.receivers[p].Sending? && (c, i) == (s.receivers[p].ch, s.receivers[p].idx);
        assert s.receivers[p] == Sending(c, i);
      }
    }
    if (r, i) in v.notifying {
      var p :| p in s.receivers && s.receivers[p].Notifying? && (r, i) == (s.receivers[p].root, s.receivers[p].idx);
      assert s.receivers[p] == Notifying(r, i);
    }
  }

  /** At every moment of every run an index the waiter misses is in its channel, or at the send to it,
      exactly when ReceiveBlob has called notifyIndex for it since the disk check. */
  lemma {:induction false} ComesThroughIffNotified(b: Blocks, acts: seq<Action>, r: Root, i: Idx)
    requires Exec(b, acts).At? && Misses(Exec(b, acts).s, r, i)
    ensures ComesThrough(Exec(b, acts).s, r, i) <==> Notified(b, acts, r, i)
  {
    RunKeepsInv(b, acts);
    ViewOfMissing(b, Exec(b, acts).s, r, i);
    RecordIsHistory(b, acts, r, i);
  }

  /** Where a blob the waiter still misses can be, at every moment of every run. */
  lemma {:induction false} MissingIsAccountedFor(b: Blocks, acts: seq<Action>, r: Root, i: Idx)
    requires Exec(b, acts).At? && Misses(Exec(b, acts).s, r, i)
    ensures var s := Exec(b, acts).s;
            (r, i) !in s.stored || ToNotify(s, r, i) || ComesThrough(s, r, i) || StoredQuietly(acts, r, i)
  {
    RunKeepsInv(b, acts);
    ViewOfMissing(b, Exec(b, acts).s, r, i);
    RecordIsHistory(b, acts, r, i);
  }

  /** Exactly when a wakeup is lost: the blob is stored and nothing is on its way to the waiter that misses
      it if and only if a writer that does not notify has stored it since the disk check, and no
      ReceiveBlob of it has notified since then or is about to. */
  lemma {:induction false} WakeupLostIff(b: Blocks, acts: seq<Action>, r: Root, i: Idx)
    requires Exec(b, acts).At? && Misses(Exec(b, acts).s, r, i)
    ensures var s := Exec(b, acts).s;
            (r, i) in s.stored && !ToNotify(s, r, i) && !ComesThrough(s, r, i) <==>
              StoredQuietly(acts, r, i) && !Notified(b, acts, r, i) && !ToNotify(s, r, i)
  {
    RunKeepsInv(b, acts);
    ViewOfMissing(b, Exec(b, acts).s, r, i);
    RecordIsHistory(b, acts, r, i);
  }

  /** No goroutine is between storing a blob and sending its index. */
  ghost predicate ReceiversQuiet(s: State) {
    forall p :: p in s.receivers ==> s.receivers[p].Saving? || s.receivers[p].Returned?
  }

  /** Once no receiver is in between, what the waiter misses is in its own channel exactly as far as it has
      been notified since the disk check: all of it if and only if all of it has been. */
  lemma {:induction false} ChannelHoldsAllIffNotified(b: Blocks, acts: seq<Action>, r: Root)
    requires Exec(b, acts).At? && r in Exec(b, acts).s.waiters && Exec(b, acts).s.waiters[r].Waiting?
    requires ReceiversQuiet(Exec(b, acts).s)
    ensures var s := Exec(b, acts).s;
            && s.waiters[r].ch < |s.chans|
            && forall i :: i in s.waiters[r].missing ==>
                 (i in s.chans[s.waiters[r].ch].buf <==> Notified(b, acts, r, i))
  {
    RunKeepsInv(b, acts);
    var s := Exec(b, acts).s;
    assert WaiterOk(b, ViewOf(s), r, s.waiters[r]);
    forall i | i in s.waiters[r].missing
      ensures i in s.chans[s.waiters[r].ch].buf <==> Notified(b, acts, r, i)
    {
      ComesThroughIffNotified(b, acts, r, i);
    }
  }

  /** No lost wakeup without quiet writers: once everything missing is stored, by ReceiveBlob alone since
      the disk check, and no receiver is in between, everything missing is in the waiter's channel. */
  lemma {:induction false} NoLostWakeup(b: Blocks, acts: seq<Action>, r: Root)
    requires Exec(b, acts).At? && r in Exec(b, acts).s.waiters && Exec(b, acts).s.waiters[r].Waiting?
    requires var s := Exec(b, acts).s;
             && (forall i :: i in s.waiters[r].missing ==> (r, i) in s.stored && !StoredQuietly(acts, r, i))
             && ReceiversQuiet(s)
    ensures var s := Exec(b, acts).s;
            s.waiters[r].ch < |s.chans| && forall i :: i in s.waiters[r].missing ==> i in s.chans[s.waiters[r].ch].buf
  {
    ChannelHoldsAllIffNotified(b, acts, r);
    var s := Exec(b, acts).s;
    forall i | i in s.waiters[r].missing
      ensures i in s.chans[s.waiters[r].ch].buf
    {
      MissingIsAccountedFor(b, acts, r, i);
    }
  }

  // ---------------------------------------------------------------- a waiter that is never woken

  /** The waiter waits for an index that nothing is bringing, or has given up. */
  ghost predicate Asleep(s: State, r: Root, i: Idx) {
    && r in s.waiters
    && (s.waiters[r].Unavailable? || (Misses(s, r, i) && !ComesThrough(s, r, i)))
    && !ToNotify(s, r, i)
  }

  /** ReceiveBlob gets past storing the index, or the waiter's caller is done with it. */
  ghost predicate Wakes(s: State, a: Action, r: Root, i: Idx) {
    || (a.Save? && !a.fails && a.p in s.receivers && s.receivers[a.p] == Saving(r, i))
    || a == EndSync(r)
  }

  lemma SleepsOn(b: Blocks, s: State, a: Action, r: Root, i: Idx)
    requires Inv(b, s) && Enabled(s, a) && Asleep(s, r, i) && !Wakes(s, a, r, i)
    ensures Asleep(Apply(b, s, a), r, i)
  {
    OnlySaveLeadsToNotify(b, s, a, r, i);
    if Misses(s, r, i) && a != Cancel(r) {
      StillMissing(b, s, a, r, i);
      StillNotComing(b, s, a, r, i);
    }
  }

  lemma OnlySaveLeadsToNotify(b: Blocks, s: State, a: Action, r: Root, i: Idx)
    requires Enabled(s, a)
    ensures ToNotify(Apply(b, s, a), r, i) ==> ToNotify(s, r, i) || Wakes(s, a, r, i)
  {
    var s' := Apply(b, s, a);
    if ToNotify(s', r, i) && !Wakes(s, a, r, i) {
      var p :| p in s'.receivers && s'.receivers[p] == Notifying(r, i);
      assert p in s.receivers && s.receivers[p] == Notifying(r, i);
    }
  }

  lemma OnlyNotifyTells(b: Blocks, s: State, a: Action, r: Root, i: Idx)
    requires Enabled(s, a)
    ensures (r, i) in Apply(b, s, a).told ==> (r, i) in s.told || ToNotify(s, r, i)
  {
  }

  lemma StillMissing(b: Blocks, s: State, a: Action, r: Root, i: Idx)
    requires Enabled(s, a) && Misses(s, r, i) && !ComesThrough(s, r, i) && a != Cancel(r)
    ensures Misses(Apply(b, s, a), r, i)
  {
    if a == Recv(r) {
      var c := s.waiters[r].ch;
      assert s.chans[c].buf[0] in s.chans[c].buf;
      assert i in s.waiters[r].missing - {s.chans[c].buf[0]};
    } else {
      assert Apply(b, s, a).waiters[r] == s.waiters[r];
    }
  }

  lemma StillNotComing(b: Blocks, s: State, a: Action, r: Root, i: Idx)
    requires Inv(b, s) && Enabled(s, a) && Misses(s, r, i) && !ComesThrough(s, r, i) && !ToNotify(s, r, i)
    requires Misses(Apply(b, s, a), r, i)
    ensures !ComesThrough(Apply(b, s, a), r, i)
  {
    ViewOfMissing(b, s, r, i);
    OnlyNotifyTells(b, s, a, r, i);
    var s' := Apply(b, s, a);
    assert Inv(b, s') by { ActionKeeps(b, s, a); }
    ViewOfMissing(b, s', r, i);
  }

  lemma {:induction false} ExecGoesOn(b: Blocks, acts: seq<Action>, more: seq<Action>)
    requires Exec(b, acts + more).At? && more != []
    ensures var before := more[..|more| - 1];
            && Exec(b, acts + before).At? && Enabled(Exec(b, acts + before).s, more[|more| - 1])
            && Exec(b, acts + more).s == Apply(b, Exec(b, acts + before).s, more[|more| - 1])
  {
    assert (acts + more)[..|acts + more| - 1] == acts + more[..|more| - 1];
  }

  /** Each later action leaves the waiter be: none is ReceiveBlob storing the index, or the end of the sync. */
  ghost predicate NothingWakes(b: Blocks, acts: seq<Action>, more: seq<Action>, r: Root, i: Idx) {
    forall k :: 0 <= k < |more| && Exec(b, acts + more[..k]).At? ==> !Wakes(Exec(b, acts + more[..k]).s, more[k], r, i)
  }

  /** A lost wakeup is lost for good: whatever else happens, the waiter waits until it is cancelled. */
  lemma {:induction false} SleepsUntilCancelled(b: Blocks, acts: seq<Action>, more: seq<Action>, r: Root, i: Idx)
    requires Exec(b, acts + more).At? && Exec(b, acts).At? && Asleep(Exec(b, acts).s, r, i)
    requires NothingWakes(b, acts, more, r, i)
    ensures Asleep(Exec(b, acts + more).s, r, i)
    decreases |more|
  {
    if more == [] {
      assert acts + more == acts;
    } else {
      var n := |more| - 1;
      ExecGoesOn(b, acts, more);
      forall k | 0 <= k < n
        ensures more[..n][..k] == more[..k]
      {
      }
      SleepsUntilCancelled(b, acts, more[..n], r, i);
      RunKeepsInv(b, acts + more[..n]);
      SleepsOn(b, Exec(b, acts + more[..n]).s, more[n], r, i);
    }
  }

  /** The run of the lost wakeup: a block checks the disk and starts to wait, and then its one blob is
      stored by a writer that does not notify. */
  const LostRun: seq<Action> := [BeginSync(1), CheckDisk(1, true), ForRoot(1), SaveQuietly(1, 0)]

  lemma {:induction false} WaiterIsNeverWoken(b: Blocks)
    requires b.maxBlobs(1) == 6 && b.commitments(1) == [48]
    ensures Exec(b, LostRun).At?
    ensures var s := Exec(b, LostRun).s;
            && Misses(s, 1, 0) && s.waiters[1].missing == {0} && (1, 0) in s.stored
            && Asleep(s, 1, 0) && s.receivers == map[]
            && s.waiters[1].ch < |s.chans| && s.chans[s.waiters[1].ch].buf == []
  {
    assert LostRun[..3] == [BeginSync(1), CheckDisk(1, true), ForRoot(1)];
    assert LostRun[..3][..2] == [BeginSync(1), CheckDisk(1, true)];
    assert [BeginSync(1), CheckDisk(1, true)][..1] == [BeginSync(1)];
    assert [BeginSync(1)][..0] == [];
    assert Exec(b, []) == At(Init);
    var s1 := Apply(b, Init, BeginSync(1));
    assert Exec(b, [BeginSync(1)]) == At(s1);
    assert MissingIndices(b, s1.stored, 1) == {0};
    var s2 := Apply(b, s1, CheckDisk(1, true));
    assert s2.waiters[1] == Checked({0});
    assert Exec(b, [BeginSync(1), CheckDisk(1, true)]) == At(s2);
    var s3 := Apply(b, s2, ForRoot(1));
    assert Exec(b, LostRun[..3]) == At(s3);
  }

  lemma {:induction false} DistinctFit(buf: seq<Idx>, n: nat)
    requires NoDuplicates(buf) && forall i :: i in buf ==> i < n
    ensures |buf| <= n
  {
    if buf == [] {
      return;
    }
    assert buf[0] in buf;
    if n - 1 in buf {
      var k :| 0 <= k < |buf| && buf[k] == n - 1;
      var rest := buf[..k] + buf[k + 1..];
      forall x | x in rest
        ensures x < n - 1
      {
        var j :| 0 <= j < |rest| && rest[j] == x;
        var m := if j < k then j else j + 1;
        assert x == buf[m] && m != k && buf[m] in buf;
      }
      DistinctFit(rest, n - 1);
    } else {
      DistinctFit(buf, n - 1);
    }
  }

  /** The notifier never blocks: a goroutine at the channel send always finds buffer space. */
  lemma {:induction false} NotifierNeverBlocks(b: Blocks, acts: seq<Action>, p: Pid)
    requires Exec(b, acts).At? && p in Exec(b, acts).s.receivers && Exec(b, acts).s.receivers[p].Sending?
    ensures Enabled(Exec(b, acts).s, Send(p))
    ensures var s := Exec(b, acts).s;
            var c := s.receivers[p].ch;
            c < |s.chans| && |s.chans[c].buf| < s.chans[c].cap && s.receivers[p].idx !in s.chans[c].buf
  {
    RunKeepsInv(b, acts);
    var s := Exec(b, acts).s;
    var v := ViewOf(s);
    var c, i := s.receivers[p].ch, s.receivers[p].idx;
    assert (c, i) in v.sending;
    DistinctFit(v.chans[c].buf + [i], v.chans[c].cap);
  }
}
