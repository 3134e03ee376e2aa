/** The keyed multilock as a step system: a registry of one-slot channels shared by any
    number of locks, with a cleaner that drains, closes and forgets idle channels while
    other goroutines may still be waiting on them.  Every sequence of enabled actions is
    one interleaving of Lock, Unlock, Yield and Clean.  */
module Multilock {
  import opened Common
  import opened KeyOrder

  type ChanId = nat
  type Pid = nat

  /** A channel of capacity one. */
  datatype Chan = Chan(key: Key, token: bool, open: bool)

  datatype Pc =
    | Idle
    | Fetching                                            // Lock: about to call getChan
    | InGetChan                                           // inside getChan, owning the registry mutex
    | Waiting(ch: ChanId)                                 // Lock: at the receive from ch
    | Holding                                             // Lock has returned
    | Releasing(sent: nat)                                // Unlock: sending the tokens back
    | WantClean                                           // Clean: at the registry mutex
    | Scanning(todo: set<Key>, doomed: set<Key>)          // Clean: ranging over the registry
    | Closing(key: Key, todo: set<Key>, doomed: set<Key>) // Clean: token drained, about to close

  /** One Lock object (or, with no keys, one goroutine that only calls Clean). */
  datatype Proc = Proc(keys: seq<Key>, chans: seq<ChanId>, pc: Pc)

  datatype Mutex = Free | OwnedBy(owner: Pid)

  datatype State = State(
    chans: seq<Chan>,
    registry: map<Key, ChanId>,
    mutex: Mutex,
    procs: map<Pid, Proc>,
    panicked: bool)

  const Init := State([], map[], Free, map[], false)

  datatype Action =
    | New(p: Pid, keys: seq<Key>)
    | BeginLock(p: Pid)
    | EnterGetChan(p: Pid)
    | LeaveGetChan(p: Pid)
    | Receive(p: Pid)
    | BeginUnlock(p: Pid)
    | Send(p: Pid)
    | FinishSends(p: Pid)
    | BeginClean(p: Pid)
    | EnterClean(p: Pid)
    | Visit(p: Pid, key: Key)
    | Close(p: Pid)
    | LeaveClean(p: Pid)

  /** The action's goroutine is at that point of its code and the operation does not block. */
  ghost predicate Enabled(s: State, a: Action) {
    if a.New? then a.p !in s.procs && StrictlySorted(a.keys) && !s.panicked
    else
      && !s.panicked
      && a.p in s.procs
      && var me := s.procs[a.p];
      match a
      case BeginLock(_) => me.pc.Idle? && me.keys != []
      case EnterGetChan(_) => me.pc.Fetching? && s.mutex.Free?
      case LeaveGetChan(_) => me.pc.InGetChan? && |me.chans| < |me.keys|
      case Receive(_) =>
        && me.pc.Waiting?
        && me.pc.ch < |s.chans|
        && (s.chans[me.pc.ch].token || !s.chans[me.pc.ch].open)
      case BeginUnlock(_) => me.pc.Holding?
      case Send(_) =>
        && me.pc.Releasing?
        && me.pc.sent < |me.chans|
        && me.chans[me.pc.sent] < |s.chans|
        && (s.chans[me.chans[me.pc.sent]].open ==> !s.chans[me.chans[me.pc.sent]].token)
      case FinishSends(_) => me.pc.Releasing? && me.pc.sent == |me.chans|
      case BeginClean(_) => me.pc.Idle?
      case EnterClean(_) => me.pc.WantClean? && s.mutex.Free?
      case Visit(_, k) =>
        && me.pc.Scanning?
        && k in me.pc.todo
        && k in s.registry
        && s.registry[k] < |s.chans|
      case Close(_) => me.pc.Closing? && me.pc.key in s.registry && s.registry[me.pc.key] < |s.chans|
      case LeaveClean(_) => me.pc.Scanning? && me.pc.todo == {}
  }

  function SetProc(s: State, p: Pid, me: Proc): State {
    s.(procs := s.procs[p := me])
  }

  function SetChan(s: State, c: ChanId, ch: Chan): State
    requires c < |s.chans|
  {
    s.(chans := s.chans[c := ch])
  }

  /** What the action does. */
  ghost function Apply(s: State, a: Action): State
    requires Enabled(s, a)
  {
    if a.New? then SetProc(s, a.p, Proc(a.keys, [], Idle))
    else
      var me := s.procs[a.p];
      match a
      case BeginLock(p) => SetProc(s, p, me.(chans := [], pc := Fetching))
      case EnterGetChan(p) => SetProc(s.(mutex := OwnedBy(p)), p, me.(pc := InGetChan))
      case LeaveGetChan(p) =>
        var key := me.keys[|me.chans|];
        if key in s.registry then
          SetProc(s.(mutex := Free), p, me.(pc := Waiting(s.registry[key])))
        else
          SetProc(s.(mutex := Free,
                     chans := s.chans + [Chan(key, true, true)],
                     registry := s.registry[key := |s.chans|]),
                  p, me.(pc := Waiting(|s.chans|)))
      case Receive(p) =>
        var c := me.pc.ch;
        if s.chans[c].token then
          SetProc(SetChan(s, c, s.chans[c].(token := false)), p,
                  me.(chans := me.chans + [c],
                      pc := if |me.chans| + 1 == |me.keys| then Holding else Fetching))
        else
          SetProc(s, p, me.(pc := Fetching))
      case BeginUnlock(p) => SetProc(s, p, me.(pc := Releasing(0)))
      case Send(p) =>
        var c := me.chans[me.pc.sent];
        if s.chans[c].open then
          SetProc(SetChan(s, c, s.chans[c].(token := true)), p, me.(pc := Releasing(me.pc.sent + 1)))
        else
          s.(panicked := true)
      case FinishSends(p) => SetProc(s, p, me.(chans := [], pc := WantClean))
      case BeginClean(p) => SetProc(s, p, me.(pc := WantClean))
      case EnterClean(p) =>
        SetProc(s.(mutex := OwnedBy(p)), p, me.(pc := Scanning(s.registry.Keys, {})))
      case Visit(p, k) =>
        var c := s.registry[k];
        var todo := me.pc.todo - {k};
        if s.chans[c].token || !s.chans[c].open then
          SetProc(SetChan(s, c, s.chans[c].(token := false)), p, me.(pc := Closing(k, todo, me.pc.doomed)))
        else
          SetProc(s, p, me.(pc := Scanning(todo, me.pc.doomed)))
      case Close(p) =>
        var c := s.registry[me.pc.key];
        if s.chans[c].open then
          SetProc(SetChan(s, c, s.chans[c].(open := false)), p,
                  me.(pc := Scanning(me.pc.todo, me.pc.doomed + {me.pc.key})))
        else
          s.(panicked := true)
      case LeaveClean(p) =>
        SetProc(s.(mutex := Free, registry := s.registry - me.pc.doomed), p, me.(pc := Idle))
  }

  /** The state a sequence of actions leads to; Stuck when some action in it is not enabled. */
  datatype Outcome = Stuck | At(s: State)

  ghost function RunFrom(s: State, acts: seq<Action>): Outcome {
    if acts == [] then At(s)
    else
      var before := RunFrom(s, acts[..|acts| - 1]);
      var a := acts[|acts| - 1];
      if before.At? && Enabled(before.s, a) then At(Apply(before.s, a)) else Stuck
  }

  ghost function Exec(acts: seq<Action>): Outcome {
    RunFrom(Init, acts)
  }

  lemma {:induction false} OneMoreAction(s: State, acts: seq<Action>, a: Action)
    requires RunFrom(s, acts).At? && Enabled(RunFrom(s, acts).s, a)
    ensures RunFrom(s, acts + [a]) == At(Apply(RunFrom(s, acts).s, a))
  {
    assert (acts + [a])[..|acts|] == acts;
  }

  // ---------------------------------------------------------------- where the tokens are

  /** Channels whose token the process has received and not yet sent back. */
  ghost function Held(me: Proc): set<ChanId> {
    var from := if me.pc.Releasing? then me.pc.sent else 0;
    set i | from <= i < |me.chans| :: me.chans[i]
  }

  /** The part of a state that token bookkeeping depends on.  `doomed` are the keys whose channel
      the running Clean has closed but not yet deleted, `drained` the key whose token it has taken
      and whose channel it is about to close. */
  datatype View = View(
    chans: seq<Chan>,
    registry: map<Key, ChanId>,
    doomed: set<Key>,
    drained: set<Key>,
    held: map<Pid, set<ChanId>>)

  ghost function HeldMap(s: State): map<Pid, set<ChanId>> {
    map p | p in s.procs :: Held(s.procs[p])
  }

  ghost function CleanerPc(s: State): Pc {
    if s.mutex.OwnedBy? && s.mutex.owner in s.procs then s.procs[s.mutex.owner].pc else Idle
  }

  ghost function DoomedBy(pc: Pc): set<Key> {
    match pc
    case Scanning(_, doomed) => doomed
    case Closing(_, _, doomed) => doomed
    case _ => {}
  }

  ghost function DrainedBy(pc: Pc): set<Key> {
    if pc.Closing? then {pc.key} else {}
  }

  ghost function ViewOf(s: State): View {
    View(s.chans, s.registry, DoomedBy(CleanerPc(s)), DrainedBy(CleanerPc(s)), HeldMap(s))
  }

  // ---------------------------------------------------------------- the invariant

  ghost predicate RegistryOk(v: View) {
    forall k :: k in v.registry ==> v.registry[k] < |v.chans| && v.chans[v.registry[k]].key == k
  }

  /** Only registered channels are open, and a registered one is closed only while doomed. */
  ghost predicate OpenIffLive(v: View) {
    && (forall c :: 0 <= c < |v.chans| && v.chans[c].open ==>
          v.chans[c].key in v.registry && v.registry[v.chans[c].key] == c)
    && (forall k :: k in v.registry && v.registry[k] < |v.chans| ==>
          (v.chans[v.registry[k]].open <==> k !in v.doomed))
  }

  ghost predicate ClosedEmpty(v: View) {
    forall c :: 0 <= c < |v.chans| && (!v.chans[c].open || v.chans[c].key in v.drained) ==> !v.chans[c].token
  }

  /** A held token is nowhere else: not buffered, not drained, and its channel is open. */
  ghost predicate HeldApart(v: View) {
    forall p, c: ChanId {:trigger c in v.held[p]} :: p in v.held && c in v.held[p] ==>
      c < |v.chans| && v.chans[c].open && !v.chans[c].token && v.chans[c].key !in v.drained
  }

  ghost predicate HeldOnce(v: View) {
    forall p, q, c: ChanId :: p in v.held && q in v.held && c in v.held[p] && c in v.held[q] ==> p == q
  }

  ghost predicate SomeoneHolds(v: View, c: ChanId) {
    exists p :: p in v.held && c in v.held[p]
  }

  /** No token is lost: an open channel without a buffered token has a holder or is being drained. */
  ghost predicate Accounted(v: View) {
    forall c :: 0 <= c < |v.chans| && v.chans[c].open && !v.chans[c].token && v.chans[c].key !in v.drained ==>
      SomeoneHolds(v, c)
  }

  ghost predicate TokensOk(v: View) {
    RegistryOk(v) && OpenIffLive(v) && ClosedEmpty(v) && HeldApart(v) && HeldOnce(v) && Accounted(v)
  }

  ghost predicate InCritical(pc: Pc) {
    pc.InGetChan? || pc.Scanning? || pc.Closing?
  }

  ghost predicate ProcOk(chans: seq<Chan>, registered: set<Key>, me: Proc) {
    && StrictlySorted(me.keys)
    && |me.chans| <= |me.keys|
    && (forall i :: 0 <= i < |me.chans| ==>
          me.chans[i] < |chans| && chans[me.chans[i]].key == me.keys[i])
    && match me.pc
       case Fetching => |me.chans| < |me.keys|
       case InGetChan => |me.chans| < |me.keys|
       case Waiting(ch) => |me.chans| < |me.keys| && ch < |chans| && chans[ch].key == me.keys[|me.chans|]
       case Holding => 0 < |me.chans| == |me.keys|
       case Releasing(sent) => sent <= |me.chans| == |me.keys|
       case Scanning(todo, doomed) =>
         me.chans == [] && todo <= registered && doomed <= registered && todo !! doomed
       case Closing(k, todo, doomed) =>
         && me.chans == [] && todo <= registered && doomed <= registered && todo !! doomed
         && k in registered && k !in todo && k !in doomed
       case _ => me.chans == []
  }

  ghost predicate ProcsOk(s: State) {
    forall p :: p in s.procs ==> ProcOk(s.chans, s.registry.Keys, s.procs[p])
  }

  ghost predicate MutexOk(s: State) {
    && (s.mutex.OwnedBy? ==> s.mutex.owner in s.procs && InCritical(s.procs[s.mutex.owner].pc))
    && (forall p :: p in s.procs && InCritical(s.procs[p].pc) ==> s.mutex == OwnedBy(p))
  }

  ghost predicate Inv(s: State) {
    !s.panicked && TokensOk(ViewOf(s)) && ProcsOk(s) && MutexOk(s)
  }

  // ---------------------------------------------------------------- what each token move keeps

  lemma CreateKeeps(v: View, key: Key, v': View)
    requires TokensOk(v) && key !in v.registry && key !in v.doomed && key !in v.drained
    requires v' == v.(chans := v.chans + [Chan(key, true, true)], registry := v.registry[key := |v.chans|])
    ensures TokensOk(v')
  {
    forall c | 0 <= c < |v'.chans| && v'.chans[c].open && !v'.chans[c].token && v'.chans[c].key !in v'.drained
      ensures SomeoneHolds(v', c)
    {
      assert SomeoneHolds(v, c);
    }
  }

  lemma TakeKeeps(v: View, p: Pid, c: ChanId, v': View)
    requires TokensOk(v) && p in v.held && c < |v.chans| && v.chans[c].token
    requires v' == v.(chans := v.chans[c := v.chans[c].(token := false)], held := v.held[p := v.held[p] + {c}])
    ensures TokensOk(v')
  {
    forall d | 0 <= d < |v'.chans| && v'.chans[d].open && !v'.chans[d].token && v'.chans[d].key !in v'.drained
      ensures SomeoneHolds(v', d)
    {
      if d == c {
        assert p in v'.held && c in v'.held[p];
      } else {
        assert SomeoneHolds(v, d);
        var q :| q in v.held && d in v.held[q];
        assert q in v'.held && d in v'.held[q];
      }
    }
  }

  lemma PutKeeps(v: View, p: Pid, c: ChanId, v': View)
    requires TokensOk(v) && p in v.held && c in v.held[p] && c < |v.chans|
    requires v' == v.(chans := v.chans[c := v.chans[c].(token := true)], held := v.held[p := v.held[p] - {c}])
    ensures TokensOk(v')
  {
    forall d | 0 <= d < |v'.chans| && v'.chans[d].open && !v'.chans[d].token && v'.chans[d].key !in v'.drained
      ensures SomeoneHolds(v', d)
    {
      assert SomeoneHolds(v, d);
      var q :| q in v.held && d in v.held[q];
      assert q in v'.held && d in v'.held[q];
    }
  }

  lemma DrainKeeps(v: View, k: Key, v': View)
    requires TokensOk(v) && k in v.registry && v.drained == {} && v.chans[v.registry[k]].token
    requires v' == v.(chans := v.chans[v.registry[k] := v.chans[v.registry[k]].(token := false)], drained := {k})
    ensures TokensOk(v')
  {
    var e := v.registry[k];
    forall d | 0 <= d < |v'.chans| && v'.chans[d].open && !v'.chans[d].token && v'.chans[d].key !in v'.drained
      ensures SomeoneHolds(v', d)
    {
      assert SomeoneHolds(v, d);
    }
    forall d | 0 <= d < |v'.chans| && v'.chans[d].key == k
      ensures !v'.chans[d].token
    {
      if d != e { assert !v.chans[d].open; }
    }
  }

  lemma CloseKeeps(v: View, k: Key, v': View)
    requires TokensOk(v) && k in v.registry && v.drained == {k} && v.chans[v.registry[k]].open
    requires v' == v.(chans := v.chans[v.registry[k] := v.chans[v.registry[k]].(open := false)],
                      drained := {}, doomed := v.doomed + {k})
    ensures TokensOk(v')
  {
    forall d | 0 <= d < |v'.chans| && v'.chans[d].open && !v'.chans[d].token && v'.chans[d].key !in v'.drained
      ensures SomeoneHolds(v', d)
    {
      assert v.chans[d].key != k;
      assert SomeoneHolds(v, d);
    }
  }

  lemma ForgetKeeps(v: View, v': View)
    requires TokensOk(v) && v.drained == {}
    requires v' == v.(registry := v.registry - v.doomed, doomed := {})
    ensures TokensOk(v')
  {
    forall d | 0 <= d < |v'.chans| && v'.chans[d].open && !v'.chans[d].token && v'.chans[d].key !in v'.drained
      ensures SomeoneHolds(v', d)
    {
      assert SomeoneHolds(v, d);
    }
  }

  // ---------------------------------------------------------------- what each action keeps

  lemma HeldMapAfter(s: State, p: Pid, me: Proc, s': State)
    requires s'.procs == s.procs[p := me]
    ensures HeldMap(s') == HeldMap(s)[p := Held(me)]
  {
  }

  /** Channels are only ever added, and a channel keeps its key. */
  ghost predicate ChansGrow(chans: seq<Chan>, chans': seq<Chan>) {
    |chans| <= |chans'| && forall c :: 0 <= c < |chans| ==> chans'[c].key == chans[c].key
  }

  lemma ProcsStayOk(s: State, p: Pid, s': State)
    requires ProcsOk(s) && p in s'.procs && s'.procs == s.procs[p := s'.procs[p]]
    requires ChansGrow(s.chans, s'.chans) && s.registry.Keys <= s'.registry.Keys
    requires ProcOk(s'.chans, s'.registry.Keys, s'.procs[p])
    ensures ProcsOk(s')
  {
    forall q | q in s'.procs
      ensures ProcOk(s'.chans, s'.registry.Keys, s'.procs[q])
    {
      if q != p { assert ProcOk(s.chans, s.registry.Keys, s.procs[q]); }
    }
  }

  /** Actions that move no token and close no channel. */
  ghost predicate Quiet(a: Action) {
    a.BeginLock? || a.EnterGetChan? || a.BeginUnlock? || a.FinishSends? || a.BeginClean? || a.EnterClean?
  }

  lemma QuietMovesNothing(s: State, a: Action)
    requires ProcsOk(s) && MutexOk(s) && Enabled(s, a) && Quiet(a)
    ensures ViewOf(Apply(s, a)) == ViewOf(s)
  {
    var s' := Apply(s, a);
    HeldMapAfter(s, a.p, s'.procs[a.p], s');
    assert ProcOk(s.chans, s.registry.Keys, s.procs[a.p]);
    assert Held(s'.procs[a.p]) == Held(s.procs[a.p]);
    assert HeldMap(s') == HeldMap(s);
  }

  lemma QuietKeeps(s: State, a: Action)
    requires Inv(s) && Enabled(s, a) && Quiet(a)
    ensures Inv(Apply(s, a))
  {
    QuietMovesNothing(s, a);
    assert ProcOk(s.chans, s.registry.Keys, s.procs[a.p]);
    ProcsStayOk(s, a.p, Apply(s, a));
  }

  lemma JoinKeeps(v: View, p: Pid, v': View)
    requires TokensOk(v) && p !in v.held && v' == v.(held := v.held[p := {}])
    ensures TokensOk(v')
  {
    forall d | 0 <= d < |v'.chans| && v'.chans[d].open && !v'.chans[d].token && v'.chans[d].key !in v'.drained
      ensures SomeoneHolds(v', d)
    {
      assert SomeoneHolds(v, d);
      var q :| q in v.held && d in v.held[q];
      assert q in v'.held && d in v'.held[q];
    }
  }

  lemma NewKeeps(s: State, a: Action)
    requires Inv(s) && Enabled(s, a) && a.New?
    ensures Inv(Apply(s, a))
  {
    var s' := Apply(s, a);
    HeldMapAfter(s, a.p, s'.procs[a.p], s');
    assert Held(s'.procs[a.p]) == {};
    assert CleanerPc(s') == CleanerPc(s);
    JoinKeeps(ViewOf(s), a.p, ViewOf(s'));
    ProcsStayOk(s, a.p, s');
  }

  lemma LeaveGetChanKeeps(s: State, a: Action)
    requires Inv(s) && Enabled(s, a) && a.LeaveGetChan?
    ensures Inv(Apply(s, a))
  {
    var s' := Apply(s, a);
    var me := s.procs[a.p];
    var key := me.keys[|me.chans|];
    HeldMapAfter(s, a.p, s'.procs[a.p], s');
    assert Held(s'.procs[a.p]) == Held(me);
    assert HeldMap(s') == HeldMap(s);
    if key in s.registry {
      assert ViewOf(s') == ViewOf(s);
    } else {
      CreateKeeps(ViewOf(s), key, ViewOf(s'));
    }
    assert ProcOk(s.chans, s.registry.Keys, me);
    ProcsStayOk(s, a.p, s');
  }

  lemma HeldAfterReceive(me: Proc, c: ChanId, pc: Pc)
    requires me.pc.Waiting? && !pc.Releasing?
    ensures Held(me.(chans := me.chans + [c], pc := pc)) == Held(me) + {c}
  {
    var chans := me.chans + [c];
    assert chans[|me.chans|] == c;
    forall d | d in Held(me) + {c}
      ensures d in Held(me.(chans := chans, pc := pc))
    {
      if d != c {
        var i :| 0 <= i < |me.chans| && me.chans[i] == d;
        assert chans[i] == d;
      }
    }
  }

  lemma ReceiveKeepsProcs(s: State, a: Action)
    requires ProcsOk(s) && MutexOk(s) && Enabled(s, a) && a.Receive?
    ensures ProcsOk(Apply(s, a)) && MutexOk(Apply(s, a))
  {
    assert ProcOk(s.chans, s.registry.Keys, s.procs[a.p]);
    ProcsStayOk(s, a.p, Apply(s, a));
  }

  lemma ReceiveMovesToken(s: State, a: Action)
    requires MutexOk(s) && Enabled(s, a) && a.Receive?
    ensures var me := s.procs[a.p]; var v := ViewOf(s);
            ViewOf(Apply(s, a)) ==
              if s.chans[me.pc.ch].token then
                v.(chans := v.chans[me.pc.ch := v.chans[me.pc.ch].(token := false)],
                   held := v.held[a.p := v.held[a.p] + {me.pc.ch}])
              else v
  {
    var s' := Apply(s, a);
    var me, me' := s.procs[a.p], s'.procs[a.p];
    HeldMapAfter(s, a.p, me', s');
    assert CleanerPc(s') == CleanerPc(s);
    if s.chans[me.pc.ch].token {
      HeldAfterReceive(me, me.pc.ch, me'.pc);
    } else {
      assert Held(me') == Held(me);
      assert HeldMap(s') == HeldMap(s);
    }
  }

  lemma ReceiveKeeps(s: State, a: Action)
    requires Inv(s) && Enabled(s, a) && a.Receive?
    ensures Inv(Apply(s, a))
  {
    var c := s.procs[a.p].pc.ch;
    ReceiveKeepsProcs(s, a);
    ReceiveMovesToken(s, a);
    if s.chans[c].token { TakeKeeps(ViewOf(s), a.p, c, ViewOf(Apply(s, a))); }
  }

  /** A lock that is sending tokens back finds the channel open and its slot empty. */
  lemma SendTargetReady(s: State, p: Pid)
    requires Inv(s) && p in s.procs && s.procs[p].pc.Releasing? && s.procs[p].pc.sent < |s.procs[p].chans|
    ensures var c := s.procs[p].chans[s.procs[p].pc.sent];
            c in HeldMap(s)[p] && c < |s.chans| && s.chans[c].open && !s.chans[c].token
  {
    var c := s.procs[p].chans[s.procs[p].pc.sent];
    assert c in Held(s.procs[p]);
    var v := ViewOf(s);
    assert p in v.held && c in v.held[p];
  }

  lemma SendMovesToken(s: State, a: Action)
    requires ProcsOk(s) && MutexOk(s) && Enabled(s, a) && a.Send?
    requires s.chans[s.procs[a.p].chans[s.procs[a.p].pc.sent]].open
    ensures var c := s.procs[a.p].chans[s.procs[a.p].pc.sent]; var v := ViewOf(s);
            ViewOf(Apply(s, a)) ==
              v.(chans := v.chans[c := v.chans[c].(token := true)], held := v.held[a.p := v.held[a.p] - {c}])
  {
    var s' := Apply(s, a);
    HeldMapAfter(s, a.p, s'.procs[a.p], s');
    HeldAfterSend(s, s.procs[a.p]);
    assert CleanerPc(s') == CleanerPc(s);
  }

  lemma SendKeeps(s: State, a: Action)
    requires Inv(s) && Enabled(s, a) && a.Send?
    ensures Inv(Apply(s, a))
  {
    SendTargetReady(s, a.p);
    SendMovesToken(s, a);
    SendKeepsProcs(s, a);
    PutKeeps(ViewOf(s), a.p, s.procs[a.p].chans[s.procs[a.p].pc.sent], ViewOf(Apply(s, a)));
  }

  lemma SendKeepsProcs(s: State, a: Action)
    requires ProcsOk(s) && MutexOk(s) && Enabled(s, a) && a.Send?
    requires s.chans[s.procs[a.p].chans[s.procs[a.p].pc.sent]].open
    ensures ProcsOk(Apply(s, a)) && MutexOk(Apply(s, a))
  {
    assert ProcOk(s.chans, s.registry.Keys, s.procs[a.p]);
    ProcsStayOk(s, a.p, Apply(s, a));
  }

  lemma HeldAfterSend(s: State, me: Proc)
    requires ProcOk(s.chans, s.registry.Keys, me) && me.pc.Releasing? && me.pc.sent < |me.chans|
    ensures Held(me.(pc := Releasing(me.pc.sent + 1))) == Held(me) - {me.chans[me.pc.sent]}
  {
    forall i | me.pc.sent < i < |me.chans|
      ensures me.chans[i] != me.chans[me.pc.sent]
    {
      if me.chans[i] == me.chans[me.pc.sent] { SortedKeysAreDistinct(me.keys, i, me.pc.sent); }
    }
  }

  lemma VisitMovesToken(s: State, a: Action)
    requires MutexOk(s) && Enabled(s, a) && a.Visit? && s.chans[s.registry[a.key]].open
    ensures var v := ViewOf(s); var c := s.registry[a.key];
            ViewOf(Apply(s, a)) ==
              if s.chans[c].token then
                v.(chans := v.chans[c := v.chans[c].(token := false)], drained := {a.key})
              else v
  {
    var s' := Apply(s, a);
    HeldMapAfter(s, a.p, s'.procs[a.p], s');
    assert Held(s'.procs[a.p]) == Held(s.procs[a.p]);
    assert HeldMap(s') == HeldMap(s);
    assert s.mutex == OwnedBy(a.p);
  }

  lemma VisitKeeps(s: State, a: Action)
    requires Inv(s) && Enabled(s, a) && a.Visit?
    ensures Inv(Apply(s, a))
  {
    var s' := Apply(s, a);
    assert s.mutex == OwnedBy(a.p);
    assert ProcOk(s.chans, s.registry.Keys, s.procs[a.p]);
    var v := ViewOf(s);
    assert v.chans[v.registry[a.key]].open;
    VisitMovesToken(s, a);
    if s.chans[s.registry[a.key]].token { DrainKeeps(v, a.key, ViewOf(s')); }
    ProcsStayOk(s, a.p, s');
  }

  lemma CloseActionKeeps(s: State, a: Action)
    requires Inv(s) && Enabled(s, a) && a.Close?
    ensures Inv(Apply(s, a))
  {
    var s' := Apply(s, a);
    HeldMapAfter(s, a.p, s'.procs[a.p], s');
    assert s.mutex == OwnedBy(a.p);
    assert HeldMap(s') == HeldMap(s);
    assert ProcOk(s.chans, s.registry.Keys, s.procs[a.p]);
    CloseKeeps(ViewOf(s), s.procs[a.p].pc.key, ViewOf(s'));
    ProcsStayOk(s, a.p, s');
  }

  lemma LeaveCleanKeeps(s: State, a: Action)
    requires Inv(s) && Enabled(s, a) && a.LeaveClean?
    ensures Inv(Apply(s, a))
  {
    var s' := Apply(s, a);
    HeldMapAfter(s, a.p, s'.procs[a.p], s');
    assert s.mutex == OwnedBy(a.p);
    assert HeldMap(s') == HeldMap(s);
    ForgetKeeps(ViewOf(s), ViewOf(s'));
  }

  lemma ActionKeeps(s: State, a: Action)
    requires Inv(s) && Enabled(s, a)
    ensures Inv(Apply(s, a))
  {
    match a
    case LeaveGetChan(_) => LeaveGetChanKeeps(s, a);
    case Receive(_) => ReceiveKeeps(s, a);
    case Send(_) => SendKeeps(s, a);
    case Visit(_, _) => VisitKeeps(s, a);
    case Close(_) => CloseActionKeeps(s, a);
    case LeaveClean(_) => LeaveCleanKeeps(s, a);
    case New(_, _) => NewKeeps(s, a);
    case _ => QuietKeeps(s, a);
  }

  lemma {:induction false} RunKeepsInv(acts: seq<Action>)
    requires Exec(acts).At?
    ensures Inv(Exec(acts).s)
  {
    if acts == [] {
      assert HeldMap(Init) == map[];
    } else {
      var before := acts[..|acts| - 1];
      RunKeepsInv(before);
      ActionKeeps(Exec(before).s, acts[|acts| - 1]);
    }
  }

  // ---------------------------------------------------------------- safety over every run

  ghost predicate HoldsKey(s: State, p: Pid, k: Key) {
    p in s.procs && exists c :: c in Held(s.procs[p]) && c < |s.chans| && s.chans[c].key == k
  }

  lemma HoldingOwnsItsKeys(s: State, p: Pid, k: Key)
    requires Inv(s) && p in s.procs && s.procs[p].pc.Holding? && k in s.procs[p].keys
    ensures HoldsKey(s, p, k)
  {
    var me := s.procs[p];
    assert ProcOk(s.chans, s.registry.Keys, me);
    var i :| 0 <= i < |me.keys| && me.keys[i] == k;
    assert me.chans[i] in Held(me);
  }

  lemma KeyHasOneHolder(s: State, p: Pid, q: Pid, k: Key)
    requires Inv(s) && HoldsKey(s, p, k) && HoldsKey(s, q, k)
    ensures p == q
  {
    var v := ViewOf(s);
    var c :| c in Held(s.procs[p]) && c < |s.chans| && s.chans[c].key == k;
    var d :| d in Held(s.procs[q]) && d < |s.chans| && s.chans[d].key == k;
    assert c in v.held[p] && d in v.held[q];
    assert v.registry[k] == c && v.registry[k] == d;
  }

  lemma HeldKeyIsOut(s: State, p: Pid, k: Key)
    requires Inv(s) && HoldsKey(s, p, k)
    ensures k in s.registry && s.registry[k] < |s.chans|
    ensures s.chans[s.registry[k]].open && !s.chans[s.registry[k]].token
  {
    var v := ViewOf(s);
    var c :| c in Held(s.procs[p]) && c < |s.chans| && s.chans[c].key == k;
    assert c in v.held[p];
  }

  /** Mutual exclusion: no interleaving lets two locks be past Lock and before Unlock with a
      common key, stale and closed channels included. */
  lemma MutualExclusion(acts: seq<Action>, p: Pid, q: Pid, k: Key)
    requires Exec(acts).At?
    requires var s := Exec(acts).s;
             && p in s.procs && s.procs[p].pc.Holding? && k in s.procs[p].keys
             && q in s.procs && s.procs[q].pc.Holding? && k in s.procs[q].keys
    ensures p == q
  {
    RunKeepsInv(acts);
    HoldingOwnsItsKeys(Exec(acts).s, p, k);
    HoldingOwnsItsKeys(Exec(acts).s, q, k);
    KeyHasOneHolder(Exec(acts).s, p, q, k);
  }

  /** Outside a running Clean every registered channel is open, and its one token is either in
      its buffer with no holder, or out of it with exactly one holder. */
  lemma TokenConservation(acts: seq<Action>, k: Key)
    requires Exec(acts).At?
    requires var s := Exec(acts).s;
             k in s.registry && (s.mutex.OwnedBy? && s.mutex.owner in s.procs ==> s.procs[s.mutex.owner].pc.InGetChan?)
    ensures var s := Exec(acts).s;
            && s.registry[k] < |s.chans| && s.chans[s.registry[k]].open
            && (s.chans[s.registry[k]].token ==> forall p :: !HoldsKey(s, p, k))
            && (!s.chans[s.registry[k]].token ==>
                  exists p :: HoldsKey(s, p, k) && forall q :: HoldsKey(s, q, k) ==> q == p)
  {
    RunKeepsInv(acts);
    var s := Exec(acts).s;
    var v := ViewOf(s);
    var c := v.registry[k];
    if v.chans[c].token {
      forall p
        ensures !HoldsKey(s, p, k)
      {
        if HoldsKey(s, p, k) {
          HeldKeyIsOut(s, p, k);
          assert false;
        }
      }
    } else {
      assert SomeoneHolds(v, c);
      var p :| p in v.held && c in v.held[p];
      assert HoldsKey(s, p, k);
      forall q | HoldsKey(s, q, k)
        ensures q == p
      {
        KeyHasOneHolder(s, q, p, k);
      }
    }
  }

  /** getChan only ever hands out the open, registered channel of the key, so a lock whose receive
      failed on a closed channel retries on its replacement. */
  lemma GetChanReturnsOpenChannel(acts: seq<Action>, p: Pid)
    requires Exec(acts).At? && Enabled(Exec(acts).s, LeaveGetChan(p))
    ensures var s' := Apply(Exec(acts).s, LeaveGetChan(p));
            var me := s'.procs[p];
            && me.pc.Waiting? && |me.chans| < |me.keys| && me.pc.ch < |s'.chans|
            && s'.chans[me.pc.ch].open
            && s'.registry[me.keys[|me.chans|]] == me.pc.ch
  {
    RunKeepsInv(acts);
    var s := Exec(acts).s;
    LeaveGetChanKeeps(s, LeaveGetChan(p));
    var s' := Apply(s, LeaveGetChan(p));
    var v := ViewOf(s');
    assert v.doomed == {};
    assert v.registry[s'.procs[p].keys[|s'.procs[p].chans|]] == s'.procs[p].pc.ch;
  }

  /** Unlock's sends neither block nor hit a closed channel, and no goroutine ever panics. */
  lemma UnlockNeverBlocksOrPanics(acts: seq<Action>, p: Pid)
    requires Exec(acts).At?
    ensures !Exec(acts).s.panicked
    ensures var s := Exec(acts).s;
            p in s.procs && s.procs[p].pc.Releasing? && s.procs[p].pc.sent < |s.procs[p].chans| ==>
              Enabled(s, Send(p)) && !Apply(s, Send(p)).panicked
  {
    RunKeepsInv(acts);
    var s := Exec(acts).s;
    if p in s.procs && s.procs[p].pc.Releasing? && s.procs[p].pc.sent < |s.procs[p].chans| {
      SendTargetReady(s, p);
    }
  }

  /** No send and no close ever meets a closed channel: what Unlock sends to is open and empty, and what Clean
      closes is open. */
  lemma NoClosedChannelIsUsed(acts: seq<Action>, p: Pid)
    requires Exec(acts).At? && p in Exec(acts).s.procs
    ensures var s := Exec(acts).s;
            var me := s.procs[p];
            && (me.pc.Releasing? && me.pc.sent < |me.chans| ==>
                  && me.chans[me.pc.sent] < |s.chans|
                  && s.chans[me.chans[me.pc.sent]].open && !s.chans[me.chans[me.pc.sent]].token)
            && (me.pc.Closing? ==>
                  && me.pc.key in s.registry && s.registry[me.pc.key] < |s.chans|
                  && s.chans[s.registry[me.pc.key]].open && !s.chans[s.registry[me.pc.key]].token)
  {
    RunKeepsInv(acts);
    var s := Exec(acts).s;
    var me, v := s.procs[p], ViewOf(s);
    assert ProcOk(s.chans, s.registry.Keys, me);
    if me.pc.Releasing? && me.pc.sent < |me.chans| { SendTargetReady(s, p); }
    if me.pc.Closing? {
      assert s.mutex == OwnedBy(p);
      assert me.pc.key in v.registry;
    }
  }

  /** Clean never removes a key some lock holds, not even one only part of the way through Lock. */
  lemma CleanSparesHeldKeys(acts: seq<Action>, cleaner: Pid, p: Pid, k: Key)
    requires Exec(acts).At? && Enabled(Exec(acts).s, LeaveClean(cleaner))
    requires HoldsKey(Exec(acts).s, p, k)
    ensures k in Apply(Exec(acts).s, LeaveClean(cleaner)).registry
  {
    RunKeepsInv(acts);
    var s := Exec(acts).s;
    assert s.mutex == OwnedBy(cleaner);
    HeldKeyIsOut(s, p, k);
    assert k in ViewOf(s).registry;
  }

  // ---------------------------------------------------------------- deadlock freedom

  ghost predicate IsWaiting(s: State, p: Pid) {
    p in s.procs && s.procs[p].pc.Waiting? && |s.procs[p].chans| < |s.procs[p].keys|
  }

  ghost function AwaitedKey(s: State, p: Pid): Key
    requires IsWaiting(s, p)
  {
    s.procs[p].keys[|s.procs[p].chans|]
  }

  /** p is blocked on a channel whose token q has. */
  ghost predicate WaitsFor(s: State, p: Pid, q: Pid) {
    && IsWaiting(s, p)
    && s.procs[p].pc.ch < |s.chans|
    && s.chans[s.procs[p].pc.ch].open
    && !s.chans[s.procs[p].pc.ch].token
    && q in s.procs
    && s.procs[p].pc.ch in Held(s.procs[q])
  }

  lemma WaitedKeysRise(s: State, p: Pid, q: Pid)
    requires Inv(s) && WaitsFor(s, p, q) && IsWaiting(s, q)
    ensures Less(AwaitedKey(s, p), AwaitedKey(s, q))
  {
    var me := s.procs[q];
    assert ProcOk(s.chans, s.registry.Keys, me) && ProcOk(s.chans, s.registry.Keys, s.procs[p]);
    var i :| 0 <= i < |me.chans| && me.chans[i] == s.procs[p].pc.ch;
    assert me.keys[i] == AwaitedKey(s, p);
  }

  ghost predicate WaitPath(s: State, path: seq<Pid>) {
    forall i :: 0 <= i < |path| - 1 ==> WaitsFor(s, path[i], path[i + 1])
  }

  /** p waits, and if q waits too then for a later key. */
  ghost predicate HopRises(s: State, p: Pid, q: Pid) {
    IsWaiting(s, p) && (IsWaiting(s, q) ==> Less(AwaitedKey(s, p), AwaitedKey(s, q)))
  }

  lemma {:induction false} PathKeysRise(s: State, path: seq<Pid>)
    requires |path| >= 2 && IsWaiting(s, path[|path| - 1])
    requires forall i :: 0 <= i < |path| - 1 ==> HopRises(s, path[i], path[i + 1])
    ensures IsWaiting(s, path[0]) && Less(AwaitedKey(s, path[0]), AwaitedKey(s, path[|path| - 1]))
  {
    var n := |path|;
    assert HopRises(s, path[n - 2], path[n - 1]);
    if n > 2 {
      PathKeysRise(s, path[..n - 1]);
      LessTransitive(AwaitedKey(s, path[0]), AwaitedKey(s, path[n - 2]), AwaitedKey(s, path[n - 1]));
    }
  }

  /** The waits-for relation has no cycle in any reachable state. */
  lemma NoWaitCycle(acts: seq<Action>, path: seq<Pid>)
    requires Exec(acts).At? && |path| >= 2 && WaitPath(Exec(acts).s, path)
    ensures path[0] != path[|path| - 1]
  {
    var s := Exec(acts).s;
    RunKeepsInv(acts);
    assert WaitsFor(s, path[0], path[1]);
    forall i | 0 <= i < |path| - 1
      ensures HopRises(s, path[i], path[i + 1])
    {
      assert WaitsFor(s, path[i], path[i + 1]);
      if IsWaiting(s, path[i + 1]) { WaitedKeysRise(s, path[i], path[i + 1]); }
    }
    if path[0] == path[|path| - 1] {
      PathKeysRise(s, path);
      LessIrreflexive(AwaitedKey(s, path[0]));
    }
  }

  /** p cannot take its next step before q does something. */
  ghost predicate BlockedOn(s: State, p: Pid, q: Pid) {
    || WaitsFor(s, p, q)
    || (p in s.procs && (s.procs[p].pc.Fetching? || s.procs[p].pc.WantClean?) && s.mutex == OwnedBy(q))
    || (IsWaiting(s, p) && AwaitedKey(s, p) in DrainedBy(CleanerPc(s)) && s.mutex == OwnedBy(q))
  }

  ghost predicate BlockChain(s: State, path: seq<Pid>) {
    forall i :: 0 <= i < |path| - 1 ==> BlockedOn(s, path[i], path[i + 1])
  }

  /** q is inside its critical section with Lock completed, or its pending operation does not block. */
  ghost predicate CanProceed(s: State, q: Pid) {
    && q in s.procs
    && (s.procs[q].pc.Holding? ||
        exists a: Action :: a.p == q && !a.New? && !a.BeginLock? && !a.BeginClean? && Enabled(s, a))
  }

  lemma CriticalCanProceed(s: State, q: Pid)
    requires Inv(s) && q in s.procs && InCritical(s.procs[q].pc)
    ensures CanProceed(s, q)
  {
    var me := s.procs[q];
    assert ProcOk(s.chans, s.registry.Keys, me);
    assert RegistryOk(ViewOf(s));
    match me.pc
    case InGetChan => assert Enabled(s, LeaveGetChan(q));
    case Closing(k, _, _) => assert k in ViewOf(s).registry; assert Enabled(s, Close(q));
    case Scanning(todo, _) =>
      if todo == {} {
        assert Enabled(s, LeaveClean(q));
      } else {
        var k :| k in todo;
        assert k in ViewOf(s).registry;
        assert Enabled(s, Visit(q, k));
      }
  }

  lemma NotWaitingProgress(s: State, p: Pid) returns (path: seq<Pid>)
    requires Inv(s) && p in s.procs && !s.procs[p].pc.Idle? && !s.procs[p].pc.Waiting?
    ensures 0 < |path| && path[0] == p && BlockChain(s, path) && CanProceed(s, path[|path| - 1])
  {
    path := [p];
    var me := s.procs[p];
    assert ProcOk(s.chans, s.registry.Keys, me);
    if InCritical(me.pc) {
      CriticalCanProceed(s, p);
    } else if me.pc.Fetching? || me.pc.WantClean? {
      if s.mutex.Free? {
        assert Enabled(s, if me.pc.Fetching? then EnterGetChan(p) else EnterClean(p));
      } else {
        CriticalCanProceed(s, s.mutex.owner);
        path := [p, s.mutex.owner];
      }
    } else if me.pc.Releasing? {
      if me.pc.sent < |me.chans| {
        SendTargetReady(s, p);
        assert Enabled(s, Send(p));
      } else {
        assert Enabled(s, FinishSends(p));
      }
    }
  }

  ghost function WaitersAbove(s: State, k: Key): set<Pid> {
    set q | q in s.procs.Keys && IsWaiting(s, q) && Less(k, AwaitedKey(s, q))
  }

  lemma WaitersShrink(s: State, p: Pid, q: Pid)
    requires IsWaiting(s, p) && IsWaiting(s, q) && Less(AwaitedKey(s, p), AwaitedKey(s, q))
    ensures |WaitersAbove(s, AwaitedKey(s, q))| < |WaitersAbove(s, AwaitedKey(s, p))|
  {
    var k, k' := AwaitedKey(s, p), AwaitedKey(s, q);
    forall r | r in WaitersAbove(s, k')
      ensures r in WaitersAbove(s, k) - {q}
    {
      LessTransitive(k, k', AwaitedKey(s, r));
      LessIrreflexive(k');
    }
    SubsetSize(WaitersAbove(s, k'), WaitersAbove(s, k) - {q});
  }

  /** A lock blocked on an open channel that is not being drained waits for some other one, which is
      in the middle of an operation. */
  lemma HolderOf(s: State, p: Pid) returns (q: Pid)
    requires Inv(s) && IsWaiting(s, p) && s.procs[p].pc.ch < |s.chans|
    requires var ch := s.chans[s.procs[p].pc.ch]; ch.open && !ch.token && ch.key !in DrainedBy(CleanerPc(s))
    ensures WaitsFor(s, p, q) && !s.procs[q].pc.Idle?
    ensures s.procs[q].pc.Waiting? ==> IsWaiting(s, q)
  {
    var v := ViewOf(s);
    assert SomeoneHolds(v, s.procs[p].pc.ch);
    q :| q in v.held && s.procs[p].pc.ch in v.held[q];
    assert ProcOk(s.chans, s.registry.Keys, s.procs[q]);
  }

  lemma {:induction false} WaitingProgress(s: State, p: Pid) returns (path: seq<Pid>)
    requires Inv(s) && IsWaiting(s, p)
    ensures 0 < |path| && path[0] == p && BlockChain(s, path) && CanProceed(s, path[|path| - 1])
    decreases |WaitersAbove(s, AwaitedKey(s, p))|
  {
    assert ProcOk(s.chans, s.registry.Keys, s.procs[p]);
    var v := ViewOf(s);
    var ch := s.procs[p].pc.ch;
    if v.chans[ch].token || !v.chans[ch].open {
      assert Enabled(s, Receive(p));
      path := [p];
    } else if v.chans[ch].key in v.drained {
      CriticalCanProceed(s, s.mutex.owner);
      path := [p, s.mutex.owner];
    } else {
      var q := HolderOf(s, p);
      var rest;
      if s.procs[q].pc.Waiting? {
        WaitedKeysRise(s, p, q);
        WaitersShrink(s, p, q);
        rest := WaitingProgress(s, q);
      } else {
        rest := NotWaitingProgress(s, q);
      }
      path := [p] + rest;
    }
  }

  /** Deadlock freedom: whatever goroutine p is in the middle of, following who blocks whom from p
      ends, in finitely many hops, at a goroutine that can take a step or is free to call Unlock. */
  lemma DeadlockFree(acts: seq<Action>, p: Pid)
    requires Exec(acts).At? && p in Exec(acts).s.procs && !Exec(acts).s.procs[p].pc.Idle?
    ensures exists path: seq<Pid> ::
              0 < |path| && path[0] == p && BlockChain(Exec(acts).s, path) && CanProceed(Exec(acts).s, path[|path| - 1])
  {
    RunKeepsInv(acts);
    var s := Exec(acts).s;
    assert ProcOk(s.chans, s.registry.Keys, s.procs[p]);
    var path;
    if s.procs[p].pc.Waiting? { path := WaitingProgress(s, p); } else { path := NotWaitingProgress(s, p); }
  }
}
