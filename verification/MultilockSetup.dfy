/** How a multilock is built (unique, sorted keys), and the channel registry as the source keeps
    it: a map and one-slot channels updated in place. */
module MultilockSetup {
  import opened Common
  import opened KeyOrder
  import Multilock

  ghost function Elements(keys: seq<Key>): set<Key> {
    set k | k in keys
  }

  /** Every kept key stands before everything whose first occurrence comes later. */
  ghost predicate FirstOccurrenceOrder(arr: seq<Key>, result: seq<Key>) {
    forall i, j :: 0 <= i < j < |result| && result[i] in arr && result[j] in arr ==>
      FirstIndex(arr, result[i]) < FirstIndex(arr, result[j])
  }

  ghost function FirstIndex(arr: seq<Key>, k: Key): (i: nat)
    requires k in arr
    ensures i < |arr| && arr[i] == k && k !in arr[..i]
  {
    if arr[0] == k then 0
    else
      assert arr[1..][FirstIndex(arr[1..], k)] == k;
      assert arr[..1 + FirstIndex(arr[1..], k)] == [arr[0]] + arr[1..][..FirstIndex(arr[1..], k)];
      1 + FirstIndex(arr[1..], k)
  }

  method Unique(arr: seq<Key>) returns (result: seq<Key>)
    ensures NoDuplicates(result)
    ensures Elements(result) == Elements(arr)
    ensures FirstOccurrenceOrder(arr, result)
  {
    if |arr| <= 1 {
      return arr;
    }
    var found: set<Key> := {};
    result := [];
    for n := 0 to |arr|
      invariant found == Elements(result) == Elements(arr[..n])
      invariant NoDuplicates(result)
      invariant FirstOccurrenceOrder(arr, result)
      invariant forall k :: k in result ==> k in arr && FirstIndex(arr, k) < n
    {
      assert arr[..n + 1] == arr[..n] + [arr[n]];
      if arr[n] !in found {
        FirstIndexIs(arr, n);
        found := found + {arr[n]};
        result := result + [arr[n]];
      }
    }
    assert arr[..|arr|] == arr;
  }

  lemma {:induction false} FirstIndexIs(arr: seq<Key>, n: nat)
    requires n < |arr| && arr[n] !in arr[..n]
    ensures FirstIndex(arr, arr[n]) == n
  {
    var i := FirstIndex(arr, arr[n]);
    assert forall j :: 0 <= j < n ==> arr[j] in arr[..n];
    assert forall j :: 0 <= j < i ==> arr[j] in arr[..i];
  }

  function Insert(k: Key, sorted: seq<Key>): seq<Key> {
    if sorted == [] || Less(k, sorted[0]) then [k] + sorted
    else [sorted[0]] + Insert(k, sorted[1..])
  }

  lemma {:induction false} InsertAdds(k: Key, sorted: seq<Key>)
    ensures multiset(Insert(k, sorted)) == multiset(sorted) + multiset{k}
  {
    if sorted != [] && !Less(k, sorted[0]) {
      InsertAdds(k, sorted[1..]);
      assert sorted == [sorted[0]] + sorted[1..];
    }
  }

  ghost predicate Below(k: Key, keys: seq<Key>) {
    forall j :: 0 <= j < |keys| ==> Less(k, keys[j])
  }

  lemma {:induction false} BelowHead(k: Key, sorted: seq<Key>)
    requires StrictlySorted(sorted) && sorted != [] && Less(k, sorted[0])
    ensures Below(k, sorted)
  {
    forall j | 0 < j < |sorted|
      ensures Less(k, sorted[j])
    {
      LessTransitive(k, sorted[0], sorted[j]);
    }
  }

  lemma {:induction false} BelowInsert(x: Key, k: Key, keys: seq<Key>)
    requires Below(x, keys) && Less(x, k)
    ensures Below(x, Insert(k, keys))
  {
    if keys != [] && !Less(k, keys[0]) { BelowInsert(x, k, keys[1..]); }
  }

  lemma {:induction false} InsertSorts(k: Key, sorted: seq<Key>)
    requires StrictlySorted(sorted) && k !in sorted
    ensures StrictlySorted(Insert(k, sorted))
  {
    if sorted == [] {
    } else if Less(k, sorted[0]) {
      BelowHead(k, sorted);
    } else {
      LessTotal(k, sorted[0]);
      InsertSorts(k, sorted[1..]);
      BelowInsert(sorted[0], k, sorted[1..]);
    }
  }

  /** sort.Strings on keys without duplicates. */
  method SortStrings(keys: seq<Key>) returns (sorted: seq<Key>)
    requires NoDuplicates(keys)
    ensures StrictlySorted(sorted)
    ensures multiset(sorted) == multiset(keys)
  {
    sorted := [];
    for n := 0 to |keys|
      invariant StrictlySorted(sorted)
      invariant multiset(sorted) == multiset(keys[..n])
    {
      assert keys[..n + 1] == keys[..n] + [keys[n]];
      assert keys[n] !in multiset(keys[..n]);
      InsertSorts(keys[n], sorted);
      InsertAdds(keys[n], sorted);
      sorted := Insert(keys[n], sorted);
    }
    assert keys[..|keys|] == keys;
  }

  /** No keys, no lock; otherwise the lock's keys are the given ones, each once, in order, which is
      what lets Multilock.New accept them and what deadlock freedom rests on. */
  method NewMultilock(locks: seq<Key>) returns (r: Option<seq<Key>>)
    ensures r.None? <==> locks == []
    ensures r.Some? ==> r.value != [] && StrictlySorted(r.value) && Elements(r.value) == Elements(locks)
    ensures r.Some? ==> Multilock.Enabled(Multilock.Init, Multilock.New(0, r.value))
  {
    if |locks| == 0 {
      return None;
    }
    var keys := Unique(locks);
    assert locks[0] in Elements(locks);
    var sorted := SortStrings(keys);
    assert forall k :: k in sorted <==> k in multiset(sorted);
    assert forall k :: k in keys <==> k in multiset(keys);
    assert Elements(sorted) == Elements(keys);
    return Some(sorted);
  }

  /** The state in the middle of p's Clean, with the channels as they then are. */
  ghost function Cleaning(s: Multilock.State, chans: seq<Multilock.Chan>, p: Multilock.Pid,
                          todo: set<Key>, doomed: set<Key>): Multilock.State
    requires p in s.procs
  {
    s.(chans := chans, mutex := Multilock.OwnedBy(p),
       procs := s.procs[p := s.procs[p].(pc := Multilock.Scanning(todo, doomed))])
  }

  lemma VisitThenClose(s: Multilock.State, chans: seq<Multilock.Chan>, p: Multilock.Pid, todo: set<Key>,
                       doomed: set<Key>, key: Key)
    requires p in s.procs && !s.panicked && key in todo && key in s.registry
    requires s.registry[key] < |chans| && chans[s.registry[key]].open && chans[s.registry[key]].token
    ensures var before := Cleaning(s, chans, p, todo, doomed);
            && Multilock.Enabled(before, Multilock.Visit(p, key))
            && var drained := Multilock.Apply(before, Multilock.Visit(p, key));
            && Multilock.Enabled(drained, Multilock.Close(p))
            && Multilock.Apply(drained, Multilock.Close(p)) ==
                 Cleaning(s, chans[s.registry[key] := chans[s.registry[key]].(token := false, open := false)],
                          p, todo - {key}, doomed + {key})
  {
    var before := Cleaning(s, chans, p, todo, doomed);
    var drained := Multilock.Apply(before, Multilock.Visit(p, key));
    var closed := Multilock.Apply(drained, Multilock.Close(p));
    assert drained.procs[p].pc == Multilock.Closing(key, todo - {key}, doomed);
    assert closed.procs == s.procs[p := s.procs[p].(pc := Multilock.Scanning(todo - {key}, doomed + {key}))];
  }

  lemma VisitHeld(s: Multilock.State, chans: seq<Multilock.Chan>, p: Multilock.Pid, todo: set<Key>,
                  doomed: set<Key>, key: Key)
    requires p in s.procs && !s.panicked && key in todo && key in s.registry
    requires s.registry[key] < |chans| && chans[s.registry[key]].open && !chans[s.registry[key]].token
    ensures var before := Cleaning(s, chans, p, todo, doomed);
            && Multilock.Enabled(before, Multilock.Visit(p, key))
            && Multilock.Apply(before, Multilock.Visit(p, key)) == Cleaning(s, chans, p, todo - {key}, doomed)
  {
    var before := Cleaning(s, chans, p, todo, doomed);
    assert Multilock.Apply(before, Multilock.Visit(p, key)).procs ==
             s.procs[p := s.procs[p].(pc := Multilock.Scanning(todo - {key}, doomed))];
  }

  lemma {:induction false} BeginIsRun(s: Multilock.State, p: Multilock.Pid)
    requires Multilock.Enabled(s, Multilock.EnterClean(p))
    ensures Multilock.RunFrom(s, [Multilock.EnterClean(p)])
            == Multilock.At(Cleaning(s, s.chans, p, s.registry.Keys, {}))
  {
    Multilock.OneMoreAction(s, [], Multilock.EnterClean(p));
    assert [] + [Multilock.EnterClean(p)] == [Multilock.EnterClean(p)];
  }

  lemma {:induction false} EndIsRun(s: Multilock.State, chans: seq<Multilock.Chan>, p: Multilock.Pid, doomed: set<Key>,
                                    acts: seq<Multilock.Action>)
    requires p in s.procs && !s.panicked && s.mutex.Free?
    requires Multilock.RunFrom(s, acts) == Multilock.At(Cleaning(s, chans, p, {}, doomed))
    ensures Multilock.RunFrom(s, acts + [Multilock.LeaveClean(p)]) ==
              Multilock.At(s.(chans := chans, registry := s.registry - doomed,
                              procs := s.procs[p := s.procs[p].(pc := Multilock.Idle)]))
  {
    Multilock.OneMoreAction(s, acts, Multilock.LeaveClean(p));
    assert s.procs[p := s.procs[p].(pc := Multilock.Scanning({}, doomed))][p := s.procs[p].(pc := Multilock.Idle)] ==
             s.procs[p := s.procs[p].(pc := Multilock.Idle)];
  }

  /** The channels registered under the given keys have been drained and closed, and no others touched. */
  ghost predicate ClosedFor(keys: set<Key>, list: map<Key, Multilock.ChanId>, before: seq<Multilock.Chan>,
                            after: seq<Multilock.Chan>)
  {
    && |after| == |before|
    && forall c :: 0 <= c < |before| ==>
         after[c] == if before[c].key in keys && before[c].key in list && list[before[c].key] == c
                     then before[c].(token := false, open := false) else before[c]
  }

  /** Registered channels exist, belong to their key and are open. */
  ghost predicate Registered(list: map<Key, Multilock.ChanId>, chans: seq<Multilock.Chan>) {
    forall k :: k in list ==> list[k] < |chans| && chans[list[k]].key == k && chans[list[k]].open
  }

  /** Registered keys whose token is in the buffer, that is, held by nobody. */
  ghost function IdleIn(list: map<Key, Multilock.ChanId>, chans: seq<Multilock.Chan>): set<Key>
    requires Registered(list, chans)
  {
    set k | k in list && chans[list[k]].token
  }

  /** All keys but those of `todo` have been visited, and the idle ones among them removed. */
  ghost predicate CleanedTo(list: map<Key, Multilock.ChanId>, before: seq<Multilock.Chan>, after: seq<Multilock.Chan>,
                            todo: set<Key>, removed: seq<Key>)
  {
    && Registered(list, before) && todo <= list.Keys
    && NoDuplicates(removed) && Elements(removed) == IdleIn(list, before) - todo
    && ClosedFor(Elements(removed), list, before, after)
  }

  lemma UnvisitedIsUntouched(list: map<Key, Multilock.ChanId>, before: seq<Multilock.Chan>, after: seq<Multilock.Chan>,
                             todo: set<Key>, removed: seq<Key>, key: Key)
    requires CleanedTo(list, before, after, todo, removed) && key in todo
    ensures list[key] < |after| && after[list[key]] == before[list[key]] && key !in Elements(removed)
  {
  }

  lemma OneMoreCleaned(list: map<Key, Multilock.ChanId>, before: seq<Multilock.Chan>, after: seq<Multilock.Chan>,
                       todo: set<Key>, removed: seq<Key>, key: Key)
    requires CleanedTo(list, before, after, todo, removed) && key in todo
    ensures list[key] < |after|
    ensures var c := list[key];
            if after[c].token
            then CleanedTo(list, before, after[c := after[c].(token := false, open := false)], todo - {key},
                           removed + [key])
            else CleanedTo(list, before, after, todo - {key}, removed)
  {
    UnvisitedIsUntouched(list, before, after, todo, removed, key);
    var c := list[key];
    if after[c].token {
      assert Elements(removed + [key]) == Elements(removed) + {key};
      assert IdleIn(list, before) - (todo - {key}) == (IdleIn(list, before) - todo) + {key};
    } else {
      assert IdleIn(list, before) - (todo - {key}) == IdleIn(list, before) - todo;
    }
  }

  /** One turn of Clean's loop as steps of the model. */
  lemma TurnIsRun(s: Multilock.State, chans: seq<Multilock.Chan>, p: Multilock.Pid, todo: set<Key>, doomed: set<Key>,
                  key: Key, acts: seq<Multilock.Action>)
    returns (acts': seq<Multilock.Action>)
    requires p in s.procs && !s.panicked && key in todo && key in s.registry
    requires s.registry[key] < |chans| && chans[s.registry[key]].open
    requires Multilock.RunFrom(s, acts) == Multilock.At(Cleaning(s, chans, p, todo, doomed))
    requires forall a :: a in acts ==> a.p == p
    ensures forall a :: a in acts' ==> a.p == p
    ensures var c := s.registry[key];
            Multilock.RunFrom(s, acts') == Multilock.At(
              if chans[c].token
              then Cleaning(s, chans[c := chans[c].(token := false, open := false)], p, todo - {key}, doomed + {key})
              else Cleaning(s, chans, p, todo - {key}, doomed))
  {
    var visit, close := Multilock.Visit(p, key), Multilock.Close(p);
    acts' := acts + [visit];
    if chans[s.registry[key]].token {
      VisitThenClose(s, chans, p, todo, doomed, key);
      Multilock.OneMoreAction(s, acts, visit);
      Multilock.OneMoreAction(s, acts', close);
      acts' := acts' + [close];
    } else {
      VisitHeld(s, chans, p, todo, doomed, key);
      Multilock.OneMoreAction(s, acts, visit);
    }
  }

  /** locks.list and its channels, as getChan and Clean work on them in place while they own the
      mutex.  Each call is tied to the steps of the interleaving model it stands for. */
  class LockTable {
    var list: map<Key, Multilock.ChanId>
    var chans: seq<Multilock.Chan>

    ghost predicate Valid()
      reads this
    {
      Registered(list, chans)
    }

    /** This is the registry of the given state. */
    ghost predicate Shows(s: Multilock.State)
      reads this
    {
      Valid() && s.registry == list && s.chans == chans
    }

    constructor ()
      ensures Shows(Multilock.Init)
    {
      list := map[];
      chans := [];
    }

    /** getChan is the step LeaveGetChan: the lock goes on to wait at the channel returned. */
    method GetChan(key: Key, ghost s: Multilock.State, ghost p: Multilock.Pid) returns (ch: Multilock.ChanId)
      requires Shows(s) && Multilock.Enabled(s, Multilock.LeaveGetChan(p))
      requires key == s.procs[p].keys[|s.procs[p].chans|]
      modifies this
      ensures Shows(Multilock.Apply(s, Multilock.LeaveGetChan(p)))
      ensures Multilock.Apply(s, Multilock.LeaveGetChan(p)).procs[p].pc == Multilock.Waiting(ch)
    {
      if key !in list {
        list := list[key := |chans|];
        chans := chans + [Multilock.Chan(key, true, true)];
      }
      ch := list[key];
    }

    ghost function IdleKeys(): set<Key>
      requires Valid()
      reads this
    {
      IdleIn(list, chans)
    }

    /** A Clean nobody interferes with is a run of the model in which only p moves: it drains, closes
        and forgets exactly the idle channels, each once, and returns their keys. */
    method Clean(ghost s: Multilock.State, ghost p: Multilock.Pid)
      returns (removed: seq<Key>, ghost acts: seq<Multilock.Action>)
      requires Shows(s) && Multilock.Enabled(s, Multilock.EnterClean(p))
      modifies this
      ensures Elements(removed) == old(IdleKeys()) && NoDuplicates(removed)
      ensures list == old(list) - old(IdleKeys())
      ensures ClosedFor(old(IdleKeys()), old(list), old(chans), chans)
      ensures forall a :: a in acts ==> a.p == p
      ensures Multilock.RunFrom(s, acts).At? && Shows(Multilock.RunFrom(s, acts).s)
      ensures Multilock.RunFrom(s, acts).s.procs == s.procs[p := s.procs[p].(pc := Multilock.Idle)]
    {
      removed := [];
      var todo := list.Keys;
      acts := [Multilock.EnterClean(p)];
      BeginIsRun(s, p);
      assert Elements(removed) == {};
      while todo != {}
        invariant list == old(list) && CleanedTo(list, old(chans), chans, todo, removed)
        invariant forall a :: a in acts ==> a.p == p
        invariant Multilock.RunFrom(s, acts) == Multilock.At(Cleaning(s, chans, p, todo, Elements(removed)))
      {
        var key :| key in todo;
        UnvisitedIsUntouched(list, old(chans), chans, todo, removed, key);
        OneMoreCleaned(list, old(chans), chans, todo, removed, key);
        removed, acts := CleanOne(key, todo, removed, s, p, acts);
        todo := todo - {key};
      }
      EndIsRun(s, chans, p, Elements(removed), acts);
      acts := acts + [Multilock.LeaveClean(p)];
      Delete(removed);
    }

    /** One turn of the loop over the registry: Visit, and Close when the token was there. */
    method CleanOne(key: Key, ghost todo: set<Key>, removed: seq<Key>,
                    ghost s: Multilock.State, ghost p: Multilock.Pid, ghost acts: seq<Multilock.Action>)
      returns (removed': seq<Key>, ghost acts': seq<Multilock.Action>)
      requires s.registry == list && key in list && list[key] < |chans| && chans[list[key]].open
      requires p in s.procs && key in todo && !s.panicked && forall a :: a in acts ==> a.p == p
      requires Multilock.RunFrom(s, acts) == Multilock.At(Cleaning(s, chans, p, todo, Elements(removed)))
      modifies this`chans
      ensures var c := list[key]; var ch := old(chans)[c];
              if ch.token
              then removed' == removed + [key] && chans == old(chans)[c := ch.(token := false, open := false)]
              else removed' == removed && chans == old(chans)
      ensures forall a :: a in acts' ==> a.p == p
      ensures Multilock.RunFrom(s, acts') == Multilock.At(Cleaning(s, chans, p, todo - {key}, Elements(removed')))
    {
      var c := list[key];
      acts' := TurnIsRun(s, chans, p, todo, Elements(removed), key, acts);
      removed' := removed;
      if chans[c].token {
        chans := chans[c := chans[c].(token := false)];
        chans := chans[c := chans[c].(open := false)];
        removed' := removed + [key];
        assert Elements(removed') == Elements(removed) + {key};
      }
    }

    method Delete(toDelete: seq<Key>)
      modifies this`list
      ensures list == old(list) - Elements(toDelete)
    {
      for n := 0 to |toDelete|
        invariant list == old(list) - Elements(toDelete[..n])
      {
        assert toDelete[..n + 1] == toDelete[..n] + [toDelete[n]];
        list := list - {toDelete[n]};
      }
      assert toDelete[..|toDelete|] == toDelete;
    }
  }
}
