/** What a goroutine in the middle of Lock or Unlock does next, and that every Lock is served: once nobody
    starts a new operation, every run ends, and it ends with all locks taken and given back. */
module MultilockProgress {
  import opened Common
  import opened KeyOrder
  import opened Multilock

  // ---------------------------------------------------------------- the order of the code

  ghost predicate InLock(pc: Pc) {
    pc.Fetching? || pc.InGetChan? || pc.Waiting?
  }

  ghost predicate InClean(pc: Pc) {
    pc.WantClean? || pc.Scanning? || pc.Closing?
  }

  /** The process has a token of its own for every key. */
  ghost predicate HasAllKeys(s: State, p: Pid)
    requires p in s.procs
  {
    var me := s.procs[p];
    && |me.chans| == |me.keys|
    && forall i :: 0 <= i < |me.keys| ==>
         && me.chans[i] < |s.chans| && s.chans[me.chans[i]].key == me.keys[i]
         && s.chans[me.chans[i]].open && !s.chans[me.chans[i]].token && me.chans[i] in Held(me)
  }

  lemma HoldingHasAllKeys(s: State, p: Pid)
    requires Inv(s) && p in s.procs && s.procs[p].pc.Holding?
    ensures HasAllKeys(s, p)
  {
    var me, v := s.procs[p], ViewOf(s);
    assert ProcOk(s.chans, s.registry.Keys, me);
    forall i | 0 <= i < |me.keys|
      ensures me.chans[i] in Held(me) && s.chans[me.chans[i]].open && !s.chans[me.chans[i]].token
    {
      assert me.chans[i] in v.held[p];
    }
  }

  /** One step of the system while p is in Lock.  It keeps what it has received; a receive that fails on a
      closed channel leads back to getChan for the same key; Lock returns with a token for each key. */
  ghost predicate LockGoesOn(s: State, a: Action, s': State, p: Pid)
    requires p in s.procs
  {
    && p in s'.procs
    && var (me, me') := (s.procs[p], s'.procs[p]);
    && me'.keys == me.keys
    && (InLock(me'.pc) || (me'.pc.Holding? && HasAllKeys(s', p)))
    && (me'.pc.Holding? <==> |me'.chans| == |me.keys|)
    && (a.p != p ==> me' == me)
    && (a != Receive(p) ==> me'.chans == me.chans)
    && (a == Receive(p) ==> me.pc.Waiting? && Received(s, me, me'))
  }

  ghost predicate Received(s: State, me: Proc, me': Proc)
    requires me.pc.Waiting?
  {
    && me.pc.ch < |s.chans| && |me.chans| < |me.keys| && s.chans[me.pc.ch].key == me.keys[|me.chans|]
    && (if s.chans[me.pc.ch].token then me'.chans == me.chans + [me.pc.ch] else me' == me.(pc := Fetching))
  }

  /** One step while p sends its tokens back: one after the other and in order, and Clean only after the last. */
  ghost predicate UnlockGoesOn(s: State, a: Action, s': State, p: Pid)
    requires p in s.procs && s.procs[p].pc.Releasing?
  {
    && p in s'.procs
    && var (me, me') := (s.procs[p], s'.procs[p]);
    && me'.keys == me.keys && |me.chans| == |me.keys|
    && (if a == Send(p) then me' == me.(pc := Releasing(me.pc.sent + 1)) && TokenIsBack(s', me)
        else if a == FinishSends(p) then me' == Proc(me.keys, [], WantClean) && me.pc.sent == |me.keys|
        else me' == me)
  }

  ghost predicate TokenIsBack(s': State, me: Proc)
    requires me.pc.Releasing?
  {
    me.pc.sent < |me.chans| && me.chans[me.pc.sent] < |s'.chans| && s'.chans[me.chans[me.pc.sent]].token
  }

  /** One step elsewhere: a holder keeps its lock until it calls Unlock, a cleaner goes on until it has been
      through the registry and leaves Clean, an idle process stays so until it starts something. */
  ghost predicate OtherwiseGoesOn(s: State, a: Action, s': State, p: Pid)
    requires p in s.procs
  {
    && p in s'.procs
    && var (me, me') := (s.procs[p], s'.procs[p]);
    && me'.keys == me.keys
    && (me.pc.Holding? ==> me' == if a == BeginUnlock(p) then me.(pc := Releasing(0)) else me)
    && (InClean(me.pc) ==>
          if a == LeaveClean(p) then me'.pc.Idle? && me.pc.Scanning? && me.pc.todo == {} else InClean(me'.pc))
    && (me.pc.Idle? ==>
          me' == if a == BeginLock(p) then Proc(me.keys, [], Fetching)
                 else if a == BeginClean(p) then me.(pc := WantClean) else me)
  }

  /** A step moves its own process only. */
  lemma OthersUnmoved(s: State, a: Action, p: Pid)
    requires Enabled(s, a) && p in s.procs && a.p != p
    ensures p in Apply(s, a).procs && Apply(s, a).procs[p] == s.procs[p]
  {
  }

  lemma ReceiveStep(s: State, p: Pid)
    requires Inv(s) && Enabled(s, Receive(p))
    ensures LockGoesOn(s, Receive(p), Apply(s, Receive(p)), p)
  {
    var s' := Apply(s, Receive(p));
    ReceiveKeeps(s, Receive(p));
    assert ProcOk(s.chans, s.registry.Keys, s.procs[p]);
    if s'.procs[p].pc.Holding? { HoldingHasAllKeys(s', p); }
  }

  lemma LockStep(s: State, a: Action, p: Pid)
    requires Inv(s) && Enabled(s, a) && p in s.procs && InLock(s.procs[p].pc)
    ensures LockGoesOn(s, a, Apply(s, a), p)
  {
    assert ProcOk(s.chans, s.registry.Keys, s.procs[p]);
    if a.p != p {
      OthersUnmoved(s, a, p);
    } else if a.Receive? {
      ReceiveStep(s, p);
    } else {
      assert a.EnterGetChan? || a.LeaveGetChan?;
    }
  }

  lemma SendStep(s: State, p: Pid)
    requires Inv(s) && Enabled(s, Send(p))
    ensures UnlockGoesOn(s, Send(p), Apply(s, Send(p)), p)
  {
    assert ProcOk(s.chans, s.registry.Keys, s.procs[p]);
    SendTargetReady(s, p);
  }

  lemma FinishStep(s: State, p: Pid)
    requires Inv(s) && Enabled(s, FinishSends(p))
    ensures UnlockGoesOn(s, FinishSends(p), Apply(s, FinishSends(p)), p)
  {
    assert ProcOk(s.chans, s.registry.Keys, s.procs[p]);
  }

  lemma UnlockStep(s: State, a: Action, p: Pid)
    requires Inv(s) && Enabled(s, a) && p in s.procs && s.procs[p].pc.Releasing?
    ensures UnlockGoesOn(s, a, Apply(s, a), p)
  {
    if a.p != p {
      assert ProcOk(s.chans, s.registry.Keys, s.procs[p]);
      OthersUnmoved(s, a, p);
    } else if a.Send? {
      SendStep(s, p);
    } else {
      FinishStep(s, p);
    }
  }

  lemma OtherStep(s: State, a: Action, p: Pid)
    requires Inv(s) && Enabled(s, a) && p in s.procs
    ensures OtherwiseGoesOn(s, a, Apply(s, a), p)
  {
    if a.p != p {
      OthersUnmoved(s, a, p);
    } else {
      assert ProcOk(s.chans, s.registry.Keys, s.procs[p]);
    }
  }

  lemma LastStep(acts: seq<Action>, a: Action)
    requires Exec(acts + [a]).At?
    ensures Exec(acts).At? && Inv(Exec(acts).s) && Enabled(Exec(acts).s, a)
    ensures Exec(acts + [a]).s == Apply(Exec(acts).s, a)
  {
    assert (acts + [a])[..|acts|] == acts;
    RunKeepsInv(acts);
  }

  /** Every step of every run takes each process along its code. */
  lemma EveryStepGoesOn(acts: seq<Action>, a: Action, p: Pid)
    requires Exec(acts + [a]).At?
    ensures Exec(acts).At?
    ensures var (s, s') := (Exec(acts).s, Exec(acts + [a]).s);
            p in s.procs ==>
              && (InLock(s.procs[p].pc) ==> LockGoesOn(s, a, s', p))
              && (s.procs[p].pc.Releasing? ==> UnlockGoesOn(s, a, s', p))
              && OtherwiseGoesOn(s, a, s', p)
  {
    LastStep(acts, a);
    var s := Exec(acts).s;
    if p in s.procs {
      OtherStep(s, a, p);
      if InLock(s.procs[p].pc) { LockStep(s, a, p); }
      if s.procs[p].pc.Releasing? { UnlockStep(s, a, p); }
    }
  }

  /** Whoever is free to start an operation can. */
  lemma OperationsCanStart(acts: seq<Action>, p: Pid, keys: seq<Key>)
    requires Exec(acts).At?
    ensures var s := Exec(acts).s;
            && (p !in s.procs && StrictlySorted(keys) ==>
                  Exec(acts + [New(p, keys)]) == At(s.(procs := s.procs[p := Proc(keys, [], Idle)])))
            && (p in s.procs && s.procs[p].pc.Idle? ==> Exec(acts + [BeginClean(p)]).At?)
            && (p in s.procs && s.procs[p].pc.Idle? && s.procs[p].keys != [] ==> Exec(acts + [BeginLock(p)]).At?)
            && (p in s.procs && s.procs[p].pc.Holding? ==> Exec(acts + [BeginUnlock(p)]).At?)
  {
    RunKeepsInv(acts);
    forall a | Enabled(Exec(acts).s, a)
      ensures Exec(acts + [a]) == At(Apply(Exec(acts).s, a))
    {
      OneMoreAction(Init, acts, a);
    }
  }

  // ---------------------------------------------------------------- every run in which nobody starts anew

  /** Any step but the start of a lock object, a Lock or a Clean: a holder's Unlock goes on. */
  ghost predicate Draining(a: Action) {
    !a.New? && !a.BeginLock? && !a.BeginClean?
  }

  ghost predicate StillToClean(pc: Pc) {
    InLock(pc) || pc.Holding? || pc.Releasing? || pc.WantClean?
  }

  /** Processes that are still to clean. */
  ghost function BeforeClean(s: State): set<Pid> {
    set p | p in s.procs.Keys && StillToClean(s.procs[p].pc)
  }

  ghost function CleaningLeft(pc: Pc): nat {
    match pc
    case Scanning(todo, _) => 2 * |todo| + 1
    case Closing(_, todo, _) => 2 * |todo| + 2
    case _ => 0
  }

  /** Steps left to a process as long as no channel is closed; at a closed one it has to try again. */
  ghost function StepsLeft(chans: seq<Chan>, me: Proc): nat {
    var n, left := |me.keys|, if |me.chans| <= |me.keys| then |me.keys| - |me.chans| else 0;
    match me.pc
    case Fetching => n + 3 + 4 * left
    case InGetChan => n + 2 + 4 * left
    case Waiting(ch) => if ch < |chans| && !chans[ch].open then n + 4 + 4 * left else n + 1 + 4 * left
    case Holding => n + 3
    case Releasing(sent) => if sent <= n then n + 2 - sent else 0
    case WantClean => 1
    case _ => 0
  }

  ghost function Work(s: State): set<(Pid, int)> {
    set p, i | p in s.procs.Keys && 0 <= i < StepsLeft(s.chans, s.procs[p]) :: (p, i)
  }

  ghost predicate Less3(a: nat, b: nat, c: nat, a': nat, b': nat, c': nat) {
    a < a' || (a == a' && (b < b' || (b == b' && c < c')))
  }

  ghost predicate Closer(s: State, s': State) {
    Less3(|BeforeClean(s')|, CleaningLeft(CleanerPc(s')), |Work(s')|,
          |BeforeClean(s)|, CleaningLeft(CleanerPc(s)), |Work(s)|)
  }

  lemma BeforeCleanAfter(s: State, s': State, p: Pid)
    requires p in s.procs && p in s'.procs && s'.procs == s.procs[p := s'.procs[p]]
    requires StillToClean(s.procs[p].pc) == StillToClean(s'.procs[p].pc)
    ensures BeforeClean(s') == BeforeClean(s)
  {
  }

  lemma EnterCleanIsCloser(s: State, p: Pid)
    requires Inv(s) && Enabled(s, EnterClean(p))
    ensures Closer(s, Apply(s, EnterClean(p)))
  {
    var s' := Apply(s, EnterClean(p));
    assert BeforeClean(s') == BeforeClean(s) - {p} && p in BeforeClean(s);
  }

  lemma VisitIsCloser(s: State, p: Pid, k: Key)
    requires Inv(s) && Enabled(s, Visit(p, k))
    ensures Closer(s, Apply(s, Visit(p, k)))
  {
    var s' := Apply(s, Visit(p, k));
    assert s.mutex == OwnedBy(p) && s'.mutex == s.mutex;
    BeforeCleanAfter(s, s', p);
    assert |s.procs[p].pc.todo - {k}| == |s.procs[p].pc.todo| - 1;
  }

  lemma CloseIsCloser(s: State, p: Pid)
    requires Inv(s) && Enabled(s, Close(p))
    ensures Closer(s, Apply(s, Close(p)))
  {
    var s' := Apply(s, Close(p));
    CloseActionKeeps(s, Close(p));
    assert s.mutex == OwnedBy(p) && s'.mutex == s.mutex;
    BeforeCleanAfter(s, s', p);
  }

  lemma LeaveCleanIsCloser(s: State, p: Pid)
    requires Inv(s) && Enabled(s, LeaveClean(p))
    ensures Closer(s, Apply(s, LeaveClean(p)))
  {
    var s' := Apply(s, LeaveClean(p));
    assert s.mutex == OwnedBy(p);
    BeforeCleanAfter(s, s', p);
  }

  /** The other steps: only p's work changes, and no channel is closed. */
  ghost predicate OnlyWorks(s: State, s': State, p: Pid) {
    && p in s.procs && p in s'.procs && s'.procs == s.procs[p := s'.procs[p]]
    && |s.chans| <= |s'.chans|
    && (forall c :: 0 <= c < |s.chans| ==> s'.chans[c].open == s.chans[c].open)
  }

  lemma WorkShrinks(s: State, s': State, p: Pid)
    requires ProcsOk(s) && OnlyWorks(s, s', p)
    requires StepsLeft(s'.chans, s'.procs[p]) < StepsLeft(s.chans, s.procs[p])
    ensures |Work(s')| < |Work(s)|
  {
    var last := (p, StepsLeft(s.chans, s.procs[p]) - 1);
    forall q | q in s.procs && q != p
      ensures StepsLeft(s'.chans, s'.procs[q]) == StepsLeft(s.chans, s.procs[q])
    {
      assert ProcOk(s.chans, s.registry.Keys, s.procs[q]);
    }
    assert Work(s') <= Work(s) - {last} && last in Work(s);
    SubsetSize(Work(s'), Work(s) - {last});
  }

  ghost predicate Works(a: Action) {
    a.EnterGetChan? || a.LeaveGetChan? || a.Receive? || a.BeginUnlock? || a.Send? || a.FinishSends?
  }

  ghost predicate StepTaken(s: State, s': State, p: Pid) {
    OnlyWorks(s, s', p) && StepsLeft(s'.chans, s'.procs[p]) < StepsLeft(s.chans, s.procs[p])
  }

  lemma LockStepTaken(s: State, a: Action)
    requires Inv(s) && Enabled(s, a) && (a.EnterGetChan? || a.LeaveGetChan?)
    ensures StepTaken(s, Apply(s, a), a.p)
  {
    assert ProcOk(s.chans, s.registry.Keys, s.procs[a.p]);
    if a.LeaveGetChan? { NewChannelIsOpen(s, a.p); }
  }

  lemma ReceiveTaken(s: State, p: Pid)
    requires Inv(s) && Enabled(s, Receive(p))
    ensures StepTaken(s, Apply(s, Receive(p)), p)
  {
    assert ProcOk(s.chans, s.registry.Keys, s.procs[p]);
  }

  lemma SendTaken(s: State, p: Pid)
    requires Inv(s) && Enabled(s, Send(p))
    ensures StepTaken(s, Apply(s, Send(p)), p)
  {
    assert ProcOk(s.chans, s.registry.Keys, s.procs[p]);
    SendTargetReady(s, p);
  }

  lemma UnlockStepTaken(s: State, a: Action)
    requires Inv(s) && Enabled(s, a) && (a.BeginUnlock? || a.FinishSends?)
    ensures StepTaken(s, Apply(s, a), a.p)
  {
    assert ProcOk(s.chans, s.registry.Keys, s.procs[a.p]);
  }

  /** None of these is a step of Clean. */
  lemma CleanerUnmoved(s: State, a: Action)
    requires Inv(s) && Enabled(s, a) && Works(a)
    ensures CleaningLeft(CleanerPc(Apply(s, a))) == CleaningLeft(CleanerPc(s))
    ensures StillToClean(s.procs[a.p].pc) && StillToClean(Apply(s, a).procs[a.p].pc)
  {
    if a.Send? {
      assert ProcOk(s.chans, s.registry.Keys, s.procs[a.p]);
      SendTargetReady(s, a.p);
    }
  }

  lemma NewChannelIsOpen(s: State, p: Pid)
    requires Inv(s) && Enabled(s, LeaveGetChan(p))
    ensures var s' := Apply(s, LeaveGetChan(p));
            s'.procs[p].pc.Waiting? && s'.procs[p].pc.ch < |s'.chans| && s'.chans[s'.procs[p].pc.ch].open
  {
    var v := ViewOf(s);
    assert s.mutex == OwnedBy(p) && v.doomed == {};
    assert RegistryOk(v) && OpenIffLive(v);
  }

  lemma WorkingIsCloser(s: State, a: Action)
    requires Inv(s) && Enabled(s, a) && Works(a)
    ensures Closer(s, Apply(s, a))
  {
    if a.Receive? { ReceiveTaken(s, a.p); }
    else if a.Send? { SendTaken(s, a.p); }
    else if a.EnterGetChan? || a.LeaveGetChan? { LockStepTaken(s, a); }
    else { UnlockStepTaken(s, a); }
    CleanerUnmoved(s, a);
    StepIsCloser(s, Apply(s, a), a.p);
  }

  lemma StepIsCloser(s: State, s': State, p: Pid)
    requires ProcsOk(s) && StepTaken(s, s', p) && CleaningLeft(CleanerPc(s')) == CleaningLeft(CleanerPc(s))
    requires StillToClean(s.procs[p].pc) && StillToClean(s'.procs[p].pc)
    ensures Closer(s, s')
  {
    WorkShrinks(s, s', p);
    BeforeCleanAfter(s, s', p);
  }

  /** Every step that starts nothing new brings the end closer, retries on closed channels included. */
  lemma DrainingIsCloser(s: State, a: Action)
    requires Inv(s) && Enabled(s, a) && Draining(a)
    ensures Closer(s, Apply(s, a))
  {
    match a
    case EnterClean(p) => EnterCleanIsCloser(s, p);
    case Visit(p, k) => VisitIsCloser(s, p, k);
    case Close(p) => CloseIsCloser(s, p);
    case LeaveClean(p) => LeaveCleanIsCloser(s, p);
    case _ => WorkingIsCloser(s, a);
  }

  ghost function Prefix(schedule: nat -> Action, n: nat): seq<Action> {
    seq(n, i requires 0 <= i < n => schedule(i))
  }

  lemma {:induction false} NoEndlessDescent(run: nat -> Outcome, n: nat) returns (end: nat)
    requires run(n).At? && forall k: nat :: run(k).At? && run(k + 1).At? ==> Closer(run(k).s, run(k + 1).s)
    ensures end > n && run(end).Stuck?
    decreases |BeforeClean(run(n).s)|, CleaningLeft(CleanerPc(run(n).s)), |Work(run(n).s)|
  {
    end := n + 1;
    if run(end).At? { end := NoEndlessDescent(run, end); }
  }

  lemma ScheduledIsCloser(acts: seq<Action>, schedule: nat -> Action, k: nat)
    requires Draining(schedule(k)) && Exec(acts + Prefix(schedule, k + 1)).At?
    ensures Exec(acts + Prefix(schedule, k)).At?
    ensures Closer(Exec(acts + Prefix(schedule, k)).s, Exec(acts + Prefix(schedule, k + 1)).s)
  {
    var done := acts + Prefix(schedule, k);
    assert acts + Prefix(schedule, k + 1) == done + [schedule(k)];
    LastStep(done, schedule(k));
    DrainingIsCloser(Exec(done).s, schedule(k));
  }

  /** No run goes on for ever without something new being started: whatever the schedule, it gets stuck. */
  lemma DrainingEnds(acts: seq<Action>, schedule: nat -> Action) returns (end: nat)
    requires Exec(acts).At? && forall i: nat :: Draining(schedule(i))
    ensures Exec(acts + Prefix(schedule, end)).Stuck?
  {
    var run := (k: nat) => Exec(acts + Prefix(schedule, k));
    assert acts + Prefix(schedule, 0) == acts;
    forall k: nat | run(k + 1).At?
      ensures run(k).At? && Closer(run(k).s, run(k + 1).s)
    {
      ScheduledIsCloser(acts, schedule, k);
    }
    end := NoEndlessDescent(run, 0);
  }

  /** No such step is left to take. */
  ghost predicate Drained(s: State) {
    forall a :: Draining(a) ==> !Enabled(s, a)
  }

  ghost predicate AllDraining(acts: seq<Action>) {
    forall i :: 0 <= i < |acts| ==> Draining(acts[i])
  }

  lemma TakeStep(acts: seq<Action>, s: State) returns (a: Action, s': State)
    requires Exec(acts) == At(s) && !Drained(s)
    ensures Draining(a) && Exec(acts + [a]) == At(s') && Closer(s, s')
  {
    a :| Draining(a) && Enabled(s, a);
    RunKeepsInv(acts);
    OneMoreAction(Init, acts, a);
    DrainingIsCloser(s, a);
    s' := Apply(s, a);
  }

  lemma {:induction false} CanDrainFrom(acts: seq<Action>, s: State) returns (all: seq<Action>, t: State)
    requires Exec(acts) == At(s)
    ensures acts <= all && Exec(all) == At(t) && Drained(t)
    ensures forall i :: |acts| <= i < |all| ==> Draining(all[i])
    decreases |BeforeClean(s)|, CleaningLeft(CleanerPc(s)), |Work(s)|
  {
    if Drained(s) {
      all, t := acts, s;
    } else {
      var a, s' := TakeStep(acts, s);
      all, t := CanDrainFrom(acts + [a], s');
    }
  }

  /** From every state of every run there is a continuation that goes on until it is stuck. */
  lemma CanDrain(acts: seq<Action>) returns (more: seq<Action>)
    requires Exec(acts).At?
    ensures Exec(acts + more).At? && Drained(Exec(acts + more).s) && AllDraining(more)
  {
    var all, t := CanDrainFrom(acts, Exec(acts).s);
    more := all[|acts|..];
    assert acts + more == all;
  }

  /** When it is stuck, nobody is in the middle of anything. */
  lemma DrainedIsIdle(acts: seq<Action>, p: Pid)
    requires Exec(acts).At? && Drained(Exec(acts).s) && p in Exec(acts).s.procs
    ensures Exec(acts).s.procs[p].pc.Idle?
  {
    var s := Exec(acts).s;
    if !s.procs[p].pc.Idle? {
      DeadlockFree(acts, p);
      var path: seq<Pid> :| 0 < |path| && path[0] == p && BlockChain(s, path) && CanProceed(s, path[|path| - 1]);
      RunKeepsInv(acts);
      assert s.procs[path[|path| - 1]].pc.Holding? ==> Enabled(s, BeginUnlock(path[|path| - 1]));
      assert false;
    }
  }

  /** p is in the critical section after the first n of these actions. */
  ghost predicate HoldsAfter(acts: seq<Action>, more: seq<Action>, n: nat, p: Pid) {
    && n <= |more| && Exec(acts + more[..n]).At? && p in Exec(acts + more[..n]).s.procs
    && Exec(acts + more[..n]).s.procs[p].pc.Holding? && HasAllKeys(Exec(acts + more[..n]).s, p)
  }

  lemma {:induction false} LockUntilHeld(acts: seq<Action>, more: seq<Action>, p: Pid)
    requires Exec(acts + more).At? && Exec(acts).At? && p in Exec(acts).s.procs && InLock(Exec(acts).s.procs[p].pc)
    ensures p in Exec(acts + more).s.procs
    ensures InLock(Exec(acts + more).s.procs[p].pc) || exists n: nat :: HoldsAfter(acts, more, n, p)
    decreases |more|
  {
    if more == [] {
      assert acts + more == acts;
    } else {
      var k := |more| - 1;
      assert acts + more == (acts + more[..k]) + [more[k]];
      EveryStepGoesOn(acts + more[..k], more[k], p);
      LockUntilHeld(acts, more[..k], p);
      if n: nat :| HoldsAfter(acts, more[..k], n, p) {
        assert more[..k][..n] == more[..n];
        assert HoldsAfter(acts, more, n, p);
      } else if !InLock(Exec(acts + more).s.procs[p].pc) {
        assert more[..k + 1] == more;
        assert HoldsAfter(acts, more, k + 1, p);
      }
    }
  }

  /** Every Lock is served: in every continuation that starts nothing new and goes on as long as it can, each
      process that was in Lock is in its critical section at some moment, with a token for each of its keys. */
  lemma EveryLockIsServed(acts: seq<Action>, more: seq<Action>, p: Pid)
    requires Exec(acts + more).At? && Exec(acts).At? && Drained(Exec(acts + more).s)
    requires p in Exec(acts).s.procs && InLock(Exec(acts).s.procs[p].pc)
    ensures exists n: nat :: HoldsAfter(acts, more, n, p)
  {
    LockUntilHeld(acts, more, p);
    DrainedIsIdle(acts + more, p);
  }
}
