/** What areBlobsAvailable returns, and when: from the actions of a run, without the model's own flags. */
module BlobOutcomes {
  import opened Common
  import opened BlobAvailability

  // ---------------------------------------------------------------- the last check decides the window

  /** Action k of the run is the disk check of the sync of r that is going on. */
  ghost predicate CheckedAt(acts: seq<Action>, k: nat, r: Root) {
    && k < |acts| && ChecksRoot(acts[k], r)
    && forall j :: k < j < |acts| ==> !ChecksRoot(acts[j], r) && acts[j] != BeginSync(r)
  }

  ghost predicate PastCheck(s: State, r: Root) {
    r in s.waiters && !s.waiters[r].Started?
  }

  /** A waiter past Started has made its check, and has ended as not required exactly if that was outside the
      window. */
  lemma {:induction false} CheckOfWaiter(b: Blocks, acts: seq<Action>, r: Root) returns (k: nat)
    requires Exec(b, acts).At? && PastCheck(Exec(b, acts).s, r)
    ensures CheckedAt(acts, k, r)
    ensures Exec(b, acts).s.waiters[r] == Available(false) <==> !acts[k].inWindow
  {
    var n := |acts| - 1;
    var before := Exec(b, acts[..n]).s;
    if ChecksRoot(acts[n], r) {
      k := n;
    } else {
      WaiterMoves(b, before, acts[n], r);
      k := CheckOfWaiter(b, acts[..n], r);
      assert forall j :: 0 <= j < n ==> acts[..n][j] == acts[j];
    }
  }

  /** Every step but BeginSync and the check leaves the waiter past its check, and only a check makes it end as
      not required. */
  lemma WaiterMoves(b: Blocks, s: State, a: Action, r: Root)
    requires Enabled(s, a) && PastCheck(Apply(b, s, a), r) && !ChecksRoot(a, r)
    ensures PastCheck(s, r) && a != BeginSync(r)
    ensures Apply(b, s, a).waiters[r] == Available(false) <==> s.waiters[r] == Available(false)
  {
  }

  lemma CheckIsUnique(acts: seq<Action>, j: nat, k: nat, r: Root)
    requires CheckedAt(acts, j, r) && CheckedAt(acts, k, r)
    ensures j == k
  {
  }

  /** areBlobsAvailable has returned nil for a block that was in the window when checked: every committed blob
      is stored. */
  lemma {:induction false} NilInWindowMeansStored(b: Blocks, acts: seq<Action>, r: Root, k: nat, i: Idx)
    requires Exec(b, acts).At? && r in Exec(b, acts).s.waiters && Exec(b, acts).s.waiters[r].Available?
    requires CheckedAt(acts, k, r) && acts[k].inWindow
    requires i < |b.commitments(r)| && b.commitments(r)[i] > 0
    ensures (r, i) in Exec(b, acts).s.stored
  {
    var j := CheckOfWaiter(b, acts, r);
    CheckIsUnique(acts, j, k, r);
    AvailableMeansStored(b, acts, r, i);
  }

  /** What the check itself decides: outside the window the call ends at once with nil, in it with an error for
      too many commitments, with nil if every committed blob is stored, and otherwise the waiter goes on to
      wait for exactly the committed blobs that are not. */
  lemma {:induction false} CheckDecides(b: Blocks, acts: seq<Action>, r: Root, inWindow: bool)
    requires Exec(b, acts).At? && r in Exec(b, acts).s.waiters && Exec(b, acts).s.waiters[r].Started?
    ensures Exec(b, acts + [CheckDisk(r, inWindow)]).At?
    ensures var (s, w) := (Exec(b, acts).s, Exec(b, acts + [CheckDisk(r, inWindow)]).s.waiters[r]);
            var n := |b.commitments(r)|;
            && (!inWindow ==> w == Available(false))
            && (inWindow && n > 0 && n > b.maxBlobs(r) ==> w == Unavailable)
            && (inWindow && (n == 0 || n <= b.maxBlobs(r)) ==>
                  if forall i: Idx :: i < n && b.commitments(r)[i] > 0 ==> (r, i) in s.stored
                  then w == Available(true)
                  else w.Checked? && forall i: Idx ::
                         i in w.missing <==> i < n && b.commitments(r)[i] > 0 && (r, i) !in s.stored)
  {
    var s := Exec(b, acts).s;
    var a := CheckDisk(r, inWindow);
    assert (acts + [a])[..|acts|] == acts;
    var missing := MissingIndices(b, s.stored, r);
    assert forall i: Idx :: i in missing <==> i < |b.commitments(r)| && b.commitments(r)[i] > 0 && (r, i) !in s.stored;
  }

  // ---------------------------------------------------------------- the order of the code

  /** One step of the system, seen from the waiter of r once it has checked the disk.  It keeps what it misses
      until it reads an index from its channel, ends with an error only when cancelled, and with nil only once
      nothing is missing and its notifier is gone. */
  ghost predicate WaiterGoesOn(s: State, a: Action, s': State, r: Root)
    requires PastCheck(s, r)
  {
    if a == EndSync(r) then r !in s'.waiters
    else
      && r in s'.waiters
      && var (w, w') := (s.waiters[r], s'.waiters[r]);
      match w
      case Checked(missing) => w' == w || (a == ForRoot(r) && w'.Waiting? && w'.missing == missing)
      case Waiting(c, missing) =>
        if a == Recv(r) then
          && c < |s.chans| && s.chans[c].buf != [] && c < |s'.chans| && s'.chans[c].buf == s.chans[c].buf[1..]
          && var left := missing - {s.chans[c].buf[0]};
          if left == {} then w' == AllSeen else w' == Waiting(c, left)
        else if a == Cancel(r) then w' == Unavailable
        else w' == w
      case AllSeen =>
        if a == DeleteNotifier(r) then w' == Available(true) && r !in s'.notifiers && r !in s'.seen else w' == w
      case _ => w' == w
  }

  /** One step, seen from a goroutine in ReceiveBlob: it stores before it notifies, a failed write ends it with
      nothing stored, and an index it sends is afterwards in the channel. */
  ghost predicate ReceiverGoesOn(b: Blocks, s: State, a: Action, s': State, p: Pid)
    requires p in s.receivers
  {
    && p in s'.receivers
    && var (me, me') := (s.receivers[p], s'.receivers[p]);
    match me
    case Saving(r, i) =>
      if a == Save(p, true) then me' == Returned && s'.stored == s.stored
      else if a == Save(p, false) then me' == Notifying(r, i) && s'.stored == s.stored + {(r, i)}
      else me' == me
    case Notifying(r, i) =>
      if a == Notify(p) then
        if i < b.maxBlobs(r) && i !in Seen(s, r)
        then me'.Sending? && me'.idx == i && r in s'.notifiers && s'.notifiers[r] == me'.ch && i in Seen(s', r)
        else me' == Returned
      else me' == me
    case Sending(c, i) =>
      if a == Send(p) then me' == Returned && c < |s'.chans| && i in s'.chans[c].buf else me' == me
    case Returned => me' == me
  }

  lemma WaiterStep(b: Blocks, s: State, a: Action, r: Root)
    requires Enabled(s, a) && PastCheck(s, r)
    ensures WaiterGoesOn(s, a, Apply(b, s, a), r)
  {
  }

  lemma ReceiverStep(b: Blocks, s: State, a: Action, p: Pid)
    requires Enabled(s, a) && p in s.receivers
    ensures ReceiverGoesOn(b, s, a, Apply(b, s, a), p)
  {
  }

  /** Every step of every run takes waiters and receivers along their code. */
  lemma {:induction false} EveryStepGoesOn(b: Blocks, acts: seq<Action>, a: Action, r: Root, p: Pid)
    requires Exec(b, acts + [a]).At?
    ensures Exec(b, acts).At?
    ensures var (s, s') := (Exec(b, acts).s, Exec(b, acts + [a]).s);
            && (PastCheck(s, r) ==> WaiterGoesOn(s, a, s', r))
            && (p in s.receivers ==> ReceiverGoesOn(b, s, a, s', p))
  {
    assert (acts + [a])[..|acts|] == acts;
    var s := Exec(b, acts).s;
    if PastCheck(s, r) { WaiterStep(b, s, a, r); }
    if p in s.receivers { ReceiverStep(b, s, a, p); }
  }

  /** Nothing blocks but the select: in every state of every run a goroutine that has more to do can do it, and
      the waiter at the select can be cancelled, or read if its channel is not empty. */
  lemma {:induction false} OnlySelectWaits(b: Blocks, acts: seq<Action>, r: Root, p: Pid, w: bool)
    requires Exec(b, acts).At?
    ensures var s := Exec(b, acts).s;
            && (p !in s.receivers ==> forall q, i :: Enabled(s, NewReceiver(p, q, i)))
            && (p in s.receivers ==>
                  match s.receivers[p]
                  case Saving(_, _) => Enabled(s, Save(p, w))
                  case Notifying(_, _) => Enabled(s, Notify(p))
                  case Sending(_, _) => Enabled(s, Send(p))
                  case Returned => true)
            && (r !in s.waiters ==> Enabled(s, BeginSync(r)))
            && (r in s.waiters ==>
                  match s.waiters[r]
                  case Started => Enabled(s, CheckDisk(r, w)) && Enabled(s, EndSync(r))
                  case Checked(_) => Enabled(s, ForRoot(r))
                  case Waiting(c, _) =>
                    Enabled(s, Cancel(r)) && c < |s.chans| && (s.chans[c].buf != [] ==> Enabled(s, Recv(r)))
                  case AllSeen => Enabled(s, DeleteNotifier(r))
                  case _ => Enabled(s, EndSync(r)))
  {
    RunKeepsInv(b, acts);
    var s := Exec(b, acts).s;
    if p in s.receivers && s.receivers[p].Sending? { NotifierNeverBlocks(b, acts, p); }
    if r in s.waiters { assert WaiterOk(b, ViewOf(s), r, s.waiters[r]); }
  }

  // ---------------------------------------------------------------- a waiter that is told of everything ends

  ghost predicate ByWaiter(a: Action, r: Root) {
    a == Recv(r) || a == DeleteNotifier(r)
  }

  lemma {:induction false} OneMore(b: Blocks, acts: seq<Action>, a: Action)
    requires Exec(b, acts).At? && Enabled(Exec(b, acts).s, a)
    ensures Exec(b, acts + [a]) == At(Apply(b, Exec(b, acts).s, a))
  {
    assert (acts + [a])[..|acts|] == acts;
  }

  /** Everything missed is in the channel: reading it empties what is missing. */
  lemma {:induction false} ReadsToTheEnd(b: Blocks, acts: seq<Action>, r: Root) returns (all: seq<Action>)
    requires Exec(b, acts).At? && r in Exec(b, acts).s.waiters && Exec(b, acts).s.waiters[r].Waiting?
    requires var s := Exec(b, acts).s;
             var w := s.waiters[r];
             w.ch < |s.chans| && w.missing != {} && forall i :: i in w.missing ==> i in s.chans[w.ch].buf
    ensures acts <= all && Exec(b, all).At? && r in Exec(b, all).s.waiters
    ensures Exec(b, all).s.waiters[r] == Available(true)
    ensures forall k :: |acts| <= k < |all| ==> ByWaiter(all[k], r)
    decreases |Exec(b, acts).s.chans[Exec(b, acts).s.waiters[r].ch].buf|
  {
    var s := Exec(b, acts).s;
    var buf := s.chans[s.waiters[r].ch].buf;
    OneMore(b, acts, Recv(r));
    var now := acts + [Recv(r)];
    if s.waiters[r].missing == {buf[0]} {
      OneMore(b, now, DeleteNotifier(r));
      all := now + [DeleteNotifier(r)];
    } else {
      assert forall i :: i in buf && i != buf[0] ==> i in buf[1..];
      all := ReadsToTheEnd(b, now, r);
    }
  }

  ghost predicate MissesSomething(s: State, r: Root) {
    r in s.waiters ==>
      match s.waiters[r]
      case Checked(missing) => missing != {}
      case Waiting(_, missing) => missing != {}
      case _ => true
  }

  /** A waiter that waits has something to wait for. */
  lemma {:induction false} WaitsForSomething(b: Blocks, acts: seq<Action>, r: Root)
    requires Exec(b, acts).At?
    ensures MissesSomething(Exec(b, acts).s, r)
  {
    if acts != [] {
      var n := |acts| - 1;
      WaitsForSomething(b, acts[..n], r);
      StillMissesSomething(b, Exec(b, acts[..n]).s, acts[n], r);
    }
  }

  lemma StillMissesSomething(b: Blocks, s: State, a: Action, r: Root)
    requires Enabled(s, a) && MissesSomething(s, r)
    ensures MissesSomething(Apply(b, s, a), r)
  {
    if PastCheck(s, r) { WaiterStep(b, s, a, r); }
  }

  /** Once no receiver is in between and every index the waiter misses has been notified since its check, the
      waiter alone brings areBlobsAvailable to its end, with nil. */
  lemma {:induction false} NotifiedWaiterEnds(b: Blocks, acts: seq<Action>, r: Root) returns (all: seq<Action>)
    requires Exec(b, acts).At? && r in Exec(b, acts).s.waiters && Exec(b, acts).s.waiters[r].Waiting?
    requires ReceiversQuiet(Exec(b, acts).s)
    requires forall i :: i in Exec(b, acts).s.waiters[r].missing ==> Notified(b, acts, r, i)
    ensures acts <= all && Exec(b, all).At? && r in Exec(b, all).s.waiters
    ensures Exec(b, all).s.waiters[r] == Available(true)
    ensures forall k :: |acts| <= k < |all| ==> ByWaiter(all[k], r)
  {
    ChannelHoldsAllIffNotified(b, acts, r);
    WaitsForSomething(b, acts, r);
    all := ReadsToTheEnd(b, acts, r);
  }
}
