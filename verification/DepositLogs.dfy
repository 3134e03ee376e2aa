/** Following the deposit contract: each deposit log counted once by its index, and a batched scan of
    past blocks whose batch size shrinks when the provider refuses a range and grows when it does not. */
module DepositLogs {
  import opened Common

  /** A deposit as the contract emitted it; its position in the contract's history is its index. */
  datatype Deposit = Deposit(data: nat, block: nat)

  /** The step of processing a log that fails, if one does; LaterFault is anything after the insertion
      into the trie, the periodic save of the service's data included. */
  datatype Fault = NoFault | UnpackFault | HashFault | InsertFault | LaterFault

  /** A log as the provider returns it. */
  datatype Log = Log(isDeposit: bool, index: int, data: nat, block: nat, fault: Fault)

  ghost predicate InOrder(history: seq<Deposit>) {
    forall i, j :: 0 <= i <= j < |history| ==> history[i].block <= history[j].block
  }

  ghost function DataOf(history: seq<Deposit>): (d: seq<nat>)
    ensures |d| == |history| && forall i :: 0 <= i < |d| ==> d[i] == history[i].data
  {
    seq(|history|, i requires 0 <= i < |history| => history[i].data)
  }

  /** The log is one of the contract's: it may be repeated, out of order or garbled, not invented. */
  ghost predicate Genuine(history: seq<Deposit>, log: Log) {
    log.isDeposit && !log.fault.UnpackFault? ==>
      0 <= log.index < |history| && log.data == history[log.index].data && log.block == history[log.index].block
  }

  // ---------------------------------------------------------------- one log

  /** lastReceivedMerkleIndex and the contents of the deposit trie. */
  datatype Progress = Progress(last: int, trie: seq<nat>)

  const Fresh := Progress(-1, [])

  /** Whether ProcessLog succeeds, and what it leaves behind either way. */
  function Process(p: Progress, log: Log): (Progress, bool) {
    if !log.isDeposit then (p, true)
    else if log.fault.UnpackFault? then (p, false)
    else if log.index <= p.last then (p, !log.fault.LaterFault?)
    else if log.index != p.last + 1 then (p, false)
    else
      var advanced := p.(last := log.index);
      if log.fault.HashFault? then (advanced, false)
      else if |p.trie| != log.index then (advanced, false)
      else if log.fault.InsertFault? then (advanced, false)
      else (advanced.(trie := p.trie + [log.data]), !log.fault.LaterFault?)
  }

  function Run(p: Progress, logs: seq<Log>): Progress {
    if logs == [] then p else Process(Run(p, logs[..|logs| - 1]), logs[|logs| - 1]).0
  }

  /** The trie is a prefix of the contract's deposits and never ahead of the index. */
  ghost predicate Consistent(history: seq<Deposit>, p: Progress) {
    -1 <= p.last < |history| && |p.trie| <= p.last + 1 && p.trie == DataOf(history)[..|p.trie|]
  }

  ghost predicate AllGenuine(history: seq<Deposit>, logs: seq<Log>) {
    forall i :: 0 <= i < |logs| ==> Genuine(history, logs[i])
  }

  lemma ProcessKeepsPrefix(history: seq<Deposit>, p: Progress, log: Log)
    requires Consistent(history, p) && Genuine(history, log)
    ensures Consistent(history, Process(p, log).0)
  {
    var q := Process(p, log).0;
    if q.trie != p.trie {
      assert DataOf(history)[..|q.trie|] == DataOf(history)[..|p.trie|] + [DataOf(history)[|p.trie|]];
    }
  }

  /** Whatever is repeated, skipped, reordered, garbled or fails, the trie is always a prefix of the
      contract's deposit sequence, so no deposit is counted twice or out of place. */
  lemma {:induction false} TrieIsAlwaysPrefix(history: seq<Deposit>, logs: seq<Log>)
    requires AllGenuine(history, logs)
    ensures Consistent(history, Run(Fresh, logs))
  {
    if logs != [] {
      TrieIsAlwaysPrefix(history, logs[..|logs| - 1]);
      ProcessKeepsPrefix(history, Run(Fresh, logs[..|logs| - 1]), logs[|logs| - 1]);
    }
  }

  /** The log advances the index but a failure keeps its deposit out of the trie. */
  predicate LosesDeposit(p: Progress, log: Log) {
    log.isDeposit && log.index == p.last + 1 && (log.fault.HashFault? || log.fault.InsertFault?)
  }

  predicate NothingLost(logs: seq<Log>) {
    logs == [] ||
    (NothingLost(logs[..|logs| - 1]) && !LosesDeposit(Run(Fresh, logs[..|logs| - 1]), logs[|logs| - 1]))
  }

  /** The trie holds every deposit up to the last received index if and only if no hash or insertion
      failed on the deposit that was next in line.  The index is advanced before those steps, so such
      a deposit, once lost, is skipped by every later scan. */
  lemma {:induction false} TrieCompleteIffNothingLost(history: seq<Deposit>, logs: seq<Log>)
    requires AllGenuine(history, logs)
    ensures Consistent(history, Run(Fresh, logs))
    ensures Run(Fresh, logs).trie == DataOf(history)[..Run(Fresh, logs).last + 1] <==> NothingLost(logs)
  {
    TrieIsAlwaysPrefix(history, logs);
    if logs != [] {
      var before := logs[..|logs| - 1];
      TrieCompleteIffNothingLost(history, before);
      TrieIsAlwaysPrefix(history, before);
    }
  }

  /** Two deposits, the first one's insertion fails once: two rescans later everything is skipped
      without an error and the trie is still empty. */
  lemma LostDepositStaysLost(history: seq<Deposit>)
    requires history == [Deposit(7, 1), Deposit(8, 2)]
    ensures var first, second := Log(true, 0, 7, 1, NoFault), Log(true, 1, 8, 2, NoFault);
            var p := Run(Fresh, [first.(fault := InsertFault), first, second]);
            && p == Progress(1, [])
            && Process(p, first) == (p, true)
            && Process(p, second) == (p, true)
  {
    var first, second := Log(true, 0, 7, 1, NoFault), Log(true, 1, 8, 2, NoFault);
    var failed := first.(fault := InsertFault);
    assert [failed, first, second][..2] == [failed, first];
    assert [failed, first][..1] == [failed];
    assert Run(Fresh, [failed][..0]) == Fresh;
    assert Run(Fresh, [failed]) == Progress(0, []);
  }

  // ---------------------------------------------------------------- scanning past blocks

  const DEPOSIT_LOG_REQUEST_LIMIT: nat := 10000
  const MULTIPLICATIVE_DECREASE_DIVISOR: nat := 2

  /** The provider's answer to one range query.  `headerFault` says where requesting or checking block
      headers fails, if it does: before the log loop (-1), at one of its positions, or after it. */
  datatype Response =
    | TooMuchData
    | OtherError
    | Logs(logs: seq<Log>, headerFault: int)

  /** Every deposit in a block before n has been received. */
  ghost predicate CoveredBelow(history: seq<Deposit>, last: int, n: nat) {
    forall i :: 0 <= i < |history| && history[i].block < n ==> i <= last
  }

  /** The logs are exactly the deposits of blocks from..to, in order, though reading one may fail. */
  ghost predicate HonestLogs(history: seq<Deposit>, from: nat, to: nat, logs: seq<Log>) {
    exists first: nat :: HonestFrom(history, from, to, logs, first)
  }

  ghost predicate HonestFrom(history: seq<Deposit>, from: nat, to: nat, logs: seq<Log>, first: nat) {
    && first + |logs| <= |history|
    && (forall i :: 0 <= i < first ==> history[i].block < from)
    && (forall i :: first + |logs| <= i < |history| ==> to < history[i].block)
    && (forall k :: 0 <= k < |logs| ==>
          && logs[k].isDeposit && logs[k].index == first + k
          && logs[k].data == history[first + k].data && logs[k].block == history[first + k].block
          && from <= logs[k].block <= to)
  }

  ghost predicate Honest(history: seq<Deposit>, from: nat, to: nat, r: Response) {
    r.Logs? ==> HonestLogs(history, from, to, r.logs)
  }

  /** Once the first k logs of an honest answer are received and the rest are not before block n,
      every deposit before block n is received. */
  lemma HonestPrefixCovers(history: seq<Deposit>, from: nat, to: nat, logs: seq<Log>, k: nat, last: int, n: nat)
    requires InOrder(history) && HonestLogs(history, from, to, logs) && CoveredBelow(history, last, from)
    requires k <= |logs| && n <= to + 1
    requires forall j :: 0 <= j < k ==> logs[j].index <= last
    requires k < |logs| ==> n <= logs[k].block
    ensures CoveredBelow(history, last, n)
  {
    var first: nat :| HonestFrom(history, from, to, logs, first);
    assert forall j :: k <= j < |logs| ==> n <= logs[k].block <= logs[j].block;
    forall i | 0 <= i < |history| && history[i].block < n
      ensures i <= last
    {
      if first <= i { assert logs[i - first].index == i; }
    }
  }

  lemma ProcessAdvances(p: Progress, log: Log)
    ensures p.last <= Process(p, log).0.last
    ensures log.isDeposit && Process(p, log).1 ==> log.index <= Process(p, log).0.last
  {
  }

  // ---------------------------------------------------------------- when an answer is taken

  /** ProcessLog succeeds on each of the logs in turn. */
  ghost predicate Accepts(p: Progress, logs: seq<Log>) {
    logs == [] ||
    (Accepts(p, logs[..|logs| - 1]) && Process(Run(p, logs[..|logs| - 1]), logs[|logs| - 1]).1)
  }

  lemma {:induction false} AcceptsPrefix(p: Progress, logs: seq<Log>, k: nat)
    requires Accepts(p, logs) && k <= |logs|
    ensures Accepts(p, logs[..k])
  {
    if k == |logs| {
      assert logs[..k] == logs;
    } else {
      AcceptsPrefix(p, logs[..|logs| - 1], k);
      assert logs[..|logs| - 1][..k] == logs[..k];
    }
  }

  /** Log k is the first of a block after the start of the range. */
  ghost predicate OpensBlock(logs: seq<Log>, start: nat, k: nat) {
    k < |logs| && logs[k].block > start && forall j :: 0 <= j < k ==> logs[j].block < logs[k].block
  }

  /** Headers are asked for before the loop, at the first log of each block, and after the loop. */
  ghost predicate HeaderFails(logs: seq<Log>, start: nat, headerFault: int) {
    headerFault == -1 || headerFault == |logs| || (headerFault >= 0 && OpensBlock(logs, start, headerFault))
  }

  /** The first k logs have been taken and lead from `was` to p. */
  ghost predicate TakenTo(was: Progress, logs: seq<Log>, k: nat, p: Progress) {
    k <= |logs| && Accepts(was, logs[..k]) && p == Run(was, logs[..k])
  }

  lemma {:induction false} TakeNext(was: Progress, logs: seq<Log>, k: nat, p: Progress)
    requires TakenTo(was, logs, k, p) && k < |logs|
    ensures if Process(p, logs[k]).1 then TakenTo(was, logs, k + 1, Process(p, logs[k]).0) else !Accepts(was, logs)
  {
    assert logs[..k + 1][..k] == logs[..k];
    if Accepts(was, logs) { AcceptsPrefix(was, logs, k + 1); }
  }

  lemma {:induction false} AllTaken(was: Progress, logs: seq<Log>, p: Progress)
    requires TakenTo(was, logs, |logs|, p)
    ensures Accepts(was, logs) && p == Run(was, logs)
  {
    assert logs[..|logs|] == logs;
  }

  /** The block worked on after k logs: the latest of them, or the start of the range. */
  ghost function BlockAfter(logs: seq<Log>, start: nat, k: nat): nat
    requires k <= |logs|
  {
    if k == 0 then start
    else
      var before := BlockAfter(logs, start, k - 1);
      if logs[k - 1].block > before then logs[k - 1].block else before
  }

  lemma {:induction false} BlockIsLatest(logs: seq<Log>, start: nat, k: nat, n: nat)
    requires k <= |logs|
    ensures BlockAfter(logs, start, k) < n <==> start < n && forall j :: 0 <= j < k ==> logs[j].block < n
  {
    if k > 0 { BlockIsLatest(logs, start, k - 1, n); }
  }

  lemma {:induction false} OpensIff(logs: seq<Log>, start: nat, k: nat)
    requires k < |logs|
    ensures OpensBlock(logs, start, k) <==> logs[k].block > BlockAfter(logs, start, k)
  {
    BlockIsLatest(logs, start, k, logs[k].block);
  }

  /** No header fault has been met in the loop. */
  ghost predicate HeadersFine(logs: seq<Log>, start: nat, headerFault: int, k: nat)
    requires k <= |logs|
  {
    headerFault != -1 && (0 <= headerFault < k ==> logs[headerFault].block <= BlockAfter(logs, start, headerFault))
  }

  lemma HeadersDone(logs: seq<Log>, start: nat, headerFault: int)
    ensures HeaderFails(logs, start, headerFault) <==>
              !HeadersFine(logs, start, headerFault, |logs|) || headerFault == |logs|
  {
    if 0 <= headerFault < |logs| { OpensIff(logs, start, headerFault); }
  }

  /** A log is taken exactly if it is no deposit, or is readable, is one received before or the very next one with
      the trie complete up to it, and nothing fails that is done for it. */
  lemma ProcessSucceedsIff(p: Progress, log: Log)
    ensures Process(p, log).1 <==>
              || !log.isDeposit
              || (log.index <= p.last && !log.fault.UnpackFault? && !log.fault.LaterFault?)
              || (log.index == p.last + 1 == |p.trie| && log.fault.NoFault?)
  {
  }

  lemma {:induction false} RunOfMore(p: Progress, logs: seq<Log>, more: seq<Log>)
    ensures Run(p, logs + more) == Run(Run(p, logs), more)
  {
    if more == [] {
      assert logs + more == logs;
    } else {
      var n := |more| - 1;
      assert (logs + more)[..|logs| + n] == logs + more[..n];
      RunOfMore(p, logs, more[..n]);
    }
  }

  /** Up to here the trie holds all that has been received. */
  ghost predicate Complete(p: Progress) {
    |p.trie| == p.last + 1
  }

  lemma {:induction false} NothingLostIsComplete(logs: seq<Log>)
    requires NothingLost(logs) && forall i :: 0 <= i < |logs| ==> logs[i].isDeposit ==> logs[i].index >= 0
    ensures Complete(Run(Fresh, logs))
  {
    if logs != [] { NothingLostIsComplete(logs[..|logs| - 1]); }
  }

  ghost predicate InLine(logs: seq<Log>, first: nat) {
    forall k :: 0 <= k < |logs| ==> logs[k].isDeposit && logs[k].index == first + k && logs[k].fault.NoFault?
  }

  lemma TakeFaultless(p: Progress, logs: seq<Log>, k: nat, q: Progress)
    requires TakenTo(p, logs, k, q) && Complete(q) && k < |logs|
    requires logs[k].isDeposit && 0 <= logs[k].index <= q.last + 1 && logs[k].fault.NoFault?
    ensures var next := Process(q, logs[k]).0;
            TakenTo(p, logs, k + 1, next) && Complete(next) && logs[k].index <= next.last
  {
    TakeNext(p, logs, k, q);
  }

  lemma {:induction false} FaultlessTakenTo(p: Progress, logs: seq<Log>, first: nat, k: nat) returns (q: Progress)
    requires Complete(p) && first <= p.last + 1 && InLine(logs, first) && k <= |logs|
    ensures TakenTo(p, logs, k, q) && Complete(q) && first + k <= q.last + 1
  {
    if k == 0 {
      q := p;
      assert logs[..0] == [];
    } else {
      var before := FaultlessTakenTo(p, logs, first, k - 1);
      TakeFaultless(p, logs, k - 1, before);
      q := Process(before, logs[k - 1]).0;
    }
  }

  /** An answer without a fault that leaves no gap is taken. */
  lemma {:induction false} FaultlessIsTaken(p: Progress, logs: seq<Log>, first: nat)
    requires Complete(p) && first <= p.last + 1 && InLine(logs, first)
    ensures Accepts(p, logs) && Complete(Run(p, logs)) && first + |logs| <= Run(p, logs).last + 1
  {
    var q := FaultlessTakenTo(p, logs, first, |logs|);
    AllTaken(p, logs, q);
  }

  /** The provider answers, every log can be read and stored, and every header is there. */
  ghost predicate Faultless(r: Response, start: nat) {
    && r.Logs? && !HeaderFails(r.logs, start, r.headerFault)
    && forall k :: 0 <= k < |r.logs| ==> r.logs[k].fault.NoFault?
  }

  /** An honest answer without a fault to a scan that has missed nothing is taken. */
  lemma {:induction false} HonestIsTaken(history: seq<Deposit>, from: nat, to: nat, r: Response, p: Progress)
    requires Honest(history, from, to, r) && Faultless(r, from) && Complete(p) && CoveredBelow(history, p.last, from)
    requires p.last >= -1
    ensures Accepts(p, r.logs) && Complete(Run(p, r.logs))
  {
    var first: nat :| HonestFrom(history, from, to, r.logs, first);
    if first > 0 { assert history[first - 1].block < from; }
    FaultlessIsTaken(p, r.logs, first);
  }

  datatype Outcome = Completed | Failed | StillScanning

  /** Part of the execution service that scans for deposits. */
  class DepositScanner {
    /** What the contract has emitted: known to the proof only. */
    ghost const history: seq<Deposit>
    const eth1HeaderReqLimit: nat
    var progress: Progress
    var lastRequestedBlock: nat
    /** All logs ever processed, in order. */
    ghost var processed: seq<Log>

    ghost predicate Valid()
      reads this
    {
      && InOrder(history)
      && AllGenuine(history, processed)
      && progress == Run(Fresh, processed)
    }

    /** Restarting from the last requested block skips no deposit. */
    ghost predicate Resumable()
      reads this
    {
      CoveredBelow(history, progress.last, lastRequestedBlock)
    }

    constructor (ghost history: seq<Deposit>, eth1HeaderReqLimit: nat)
      requires InOrder(history)
      ensures Valid() && Resumable() && progress == Fresh && processed == []
      ensures this.history == history && this.eth1HeaderReqLimit == eth1HeaderReqLimit
    {
      this.history, this.eth1HeaderReqLimit := history, eth1HeaderReqLimit;
      progress, lastRequestedBlock, processed := Fresh, 0, [];
    }

    method ProcessLog(log: Log) returns (ok: bool)
      requires Valid() && Genuine(history, log)
      modifies this`progress, this`processed
      ensures Valid() && processed == old(processed) + [log]
      ensures (progress, ok) == Process(old(progress), log)
      ensures Consistent(history, progress)
    {
      processed := processed + [log];
      assert processed[..|processed| - 1] == old(processed);
      TrieIsAlwaysPrefix(history, processed);
      if !log.isDeposit {
        return true;
      }
      if log.fault.UnpackFault? {
        return false;
      }
      if log.index <= progress.last {
        return !log.fault.LaterFault?;
      }
      if log.index != progress.last + 1 {
        return false;
      }
      progress := progress.(last := log.index);
      if log.fault.HashFault? {
        return false;
      }
      if |progress.trie| != log.index {
        return false;
      }
      if log.fault.InsertFault? {
        return false;
      }
      progress := progress.(trie := progress.trie + [log.data]);
      return !log.fault.LaterFault?;
    }

    /** The block a query that starts at `start` runs to: the 64-bit sum, which may wrap around, or the
        follow height if that is less. */
    function QueryEnd(start: nat, batchSize: nat, followHeight: nat): nat {
      var sum := (start + batchSize) % TWO_TO_THE_64;
      if sum < followHeight then sum else followHeight
    }

    /** The batch after an answer: the 64-bit sum with the additive factor, up to the limit. */
    function GrownBatch(batchSize: nat, additiveFactor: nat): nat {
      if batchSize >= eth1HeaderReqLimit then batchSize
      else
        var sum := (batchSize + additiveFactor) % TWO_TO_THE_64;
        if sum > eth1HeaderReqLimit then eth1HeaderReqLimit else sum
    }

    /** As long as nothing wraps around, the range is the batch, cut at the follow height, and the batch grows by the
        factor, up to the limit. */
    lemma NoWrap(start: nat, batchSize: nat, followHeight: nat, additiveFactor: nat)
      requires start + batchSize < TWO_TO_THE_64 && batchSize + additiveFactor < TWO_TO_THE_64
      ensures var end := QueryEnd(start, batchSize, followHeight);
              end <= start + batchSize && end <= followHeight && end in {start + batchSize, followHeight}
      ensures var grown := GrownBatch(batchSize, additiveFactor);
              if batchSize >= eth1HeaderReqLimit then grown == batchSize
              else grown <= batchSize + additiveFactor && grown <= eth1HeaderReqLimit
                   && grown in {batchSize + additiveFactor, eth1HeaderReqLimit}
    {
    }

    /** The ground a scan step stands on: nothing before `start`, and nothing before the block a
        restart would begin at, has been missed. */
    ghost predicate Sound(start: nat)
      reads this
    {
      Resumable() && CoveredBelow(history, progress.last, start)
    }

    /** What has been taken of an answer after k of its logs. */
    ghost predicate AfterLogs(logs: seq<Log>, k: nat, before: seq<Log>, was: Progress)
      reads this
    {
      && Valid() && progress.last >= was.last
      && TakenTo(was, logs, k, progress) && processed == before + logs[..k]
    }

    ghost predicate AllReceived(logs: seq<Log>, k: nat)
      reads this
    {
      k <= |logs| && forall j :: 0 <= j < k ==> logs[j].isDeposit ==> logs[j].index <= progress.last
    }

    /** Takes log k of an answer, or leaves things as they are for a new try. */
    method TakeLog(logs: seq<Log>, k: nat, ghost before: seq<Log>, ghost was: Progress) returns (ok: bool)
      requires k < |logs| && Genuine(history, logs[k])
      requires AfterLogs(logs, k, before, was) && AllReceived(logs, k)
      modifies this`progress, this`processed
      ensures if ok then AfterLogs(logs, k + 1, before, was) && AllReceived(logs, k + 1) else !Accepts(was, logs)
      ensures Valid() && progress.last >= old(progress.last) && before <= processed
    {
      ProcessAdvances(progress, logs[k]);
      TakeNext(was, logs, k, progress);
      assert logs[..k + 1] == logs[..k] + [logs[k]];
      ok := ProcessLog(logs[k]);
    }

    /** The provider is honest about start..end, and nothing before the start has been missed. */
    ghost predicate SoundFor(logs: seq<Log>, start: nat, end: nat)
      reads this
    {
      Sound(start) && HonestLogs(history, start, end, logs)
    }

    /** All of the block worked on has been received before the next one is begun. */
    lemma BlockDone(logs: seq<Log>, k: nat, start: nat, end: nat, current: nat)
      requires Valid() && SoundFor(logs, start, end) && AllReceived(logs, k) && k < |logs| && logs[k].block > current
      requires current == start || current <= end
      ensures CoveredBelow(history, progress.last, current) && logs[k].block <= end
    {
      var first: nat :| HonestFrom(history, start, end, logs, first);
      HonestPrefixCovers(history, start, end, logs, k, progress.last, current);
    }

    lemma RangeDone(logs: seq<Log>, start: nat, end: nat)
      requires Valid() && SoundFor(logs, start, end) && AllReceived(logs, |logs|)
      ensures CoveredBelow(history, progress.last, end + 1)
    {
      var first: nat :| HonestFrom(history, start, end, logs, first);
      HonestPrefixCovers(history, start, end, logs, |logs|, progress.last, end + 1);
    }

    /** Processes the logs of one answer.  `current` follows the block being worked on, and the last
        requested block follows one step behind it. */
    method ProcessLogs(logs: seq<Log>, headerFault: int, start: nat, ghost end: nat) returns (ok: bool)
      requires Valid() && AllGenuine(history, logs)
      modifies this`progress, this`processed, this`lastRequestedBlock
      ensures Valid()
      ensures old(SoundFor(logs, start, end)) ==> Sound(start) && (ok ==> Sound(end + 1))
      ensures ok <==> Accepts(old(progress), logs) && !HeaderFails(logs, start, headerFault)
      ensures ok ==> processed == old(processed) + logs && progress == Run(old(progress), logs)
      ensures old(processed) <= processed
    {
      ghost var sound := SoundFor(logs, start, end);
      ghost var before, was := processed, progress;
      HeadersDone(logs, start, headerFault);
      if headerFault == -1 {
        return false;
      }
      var lastReqBlock := lastRequestedBlock;
      var current: nat := start;
      for k := 0 to |logs|
        invariant AfterLogs(logs, k, before, was) && AllReceived(logs, k)
        invariant sound ==> SoundFor(logs, start, end) && (current == start || current <= end)
        invariant current == BlockAfter(logs, start, k) && HeadersFine(logs, start, headerFault, k)
      {
        if logs[k].block > current {
          if headerFault == k {
            return false;
          }
          if sound { BlockDone(logs, k, start, end, current); }
          lastRequestedBlock := current;
          current := logs[k].block;
        }
        ok := TakeLog(logs, k, before, was);
        if !ok {
          lastRequestedBlock := lastReqBlock;
          return;
        }
      }
      AllTaken(was, logs, progress);
      assert logs[..|logs|] == logs;
      if sound { RangeDone(logs, start, end); }
      ok := headerFault != |logs|;
    }

    /** A range is refused and there is a smaller one to try, or its logs are all taken and its headers there. */
    ghost predicate Answered(answer: Response, start: nat, batchSize: nat, p: Progress) {
      match answer
      case TooMuchData => batchSize > 0
      case OtherError => false
      case Logs(logs, headerFault) => Accepts(p, logs) && !HeaderFails(logs, start, headerFault)
    }

    /** One range query.  A refused range halves the batch and leaves the position; an answered one
        moves it to the end of the range and lets the batch grow again, up to the limit. */
    method ProcessBlockInBatch(current: nat, followHeight: nat, batchSize: nat, additiveFactor: nat, logCount: nat,
                               answer: Response)
      returns (ok: bool, next: nat, nextBatch: nat)
      requires Valid() && current < followHeight && batchSize <= eth1HeaderReqLimit
      requires followHeight < TWO_TO_THE_64 && eth1HeaderReqLimit < TWO_TO_THE_64
      requires answer.Logs? ==> AllGenuine(history, answer.logs)
      modifies this`progress, this`processed, this`lastRequestedBlock
      ensures Valid() && nextBatch <= eth1HeaderReqLimit && (!ok ==> next == nextBatch == 0)
      ensures ok ==> next == (if answer.Logs? then QueryEnd(current, batchSize, followHeight) else current)
      ensures ok && answer.TooMuchData? ==> nextBatch == batchSize / 2 && progress == old(progress)
      ensures ok && answer.Logs? ==> nextBatch == GrownBatch(batchSize, additiveFactor)
      ensures ok <==> Answered(answer, current, batchSize, old(progress))
      ensures ok ==> processed == old(processed) + (if answer.Logs? then answer.logs else [])
      ensures ok && answer.Logs? ==> progress == Run(old(progress), answer.logs)
      ensures old(processed) <= processed
      ensures old(Sound(current)) && Honest(history, current, QueryEnd(current, batchSize, followHeight), answer) ==>
                Resumable() && (ok ==> Sound(next))
      ensures old(Sound(current)) && Honest(history, current, QueryEnd(current, batchSize, followHeight), answer) ==>
                ok && answer.Logs? ==> Sound(next + 1)
    {
      var end := QueryEnd(current, batchSize, followHeight);
      var remainingLogs := (logCount - (progress.last + 1)) % TWO_TO_THE_64;
      if remainingLogs < DEPOSIT_LOG_REQUEST_LIMIT && end >= followHeight {
        end := followHeight;
      }
      match answer {
        case TooMuchData =>
          if batchSize == 0 {
            return false, 0, 0;
          }
          return true, current, batchSize / MULTIPLICATIVE_DECREASE_DIVISOR;
        case OtherError =>
          return false, 0, 0;
        case Logs(logs, headerFault) =>
          ok := ProcessLogs(logs, headerFault, current, end);
          if !ok {
            return false, 0, 0;
          }
          next, nextBatch := end, batchSize;
          if nextBatch < eth1HeaderReqLimit {
            nextBatch := (nextBatch + additiveFactor) % TWO_TO_THE_64;
            if nextBatch > eth1HeaderReqLimit {
              nextBatch := eth1HeaderReqLimit;
            }
          }
      }
    }

    /** Where a scan starts: not before the contract was deployed. */
    function FirstBlock(lastRequested: nat, deploymentBlock: nat): (first: nat)
      ensures lastRequested <= first && deploymentBlock <= first && first in {lastRequested, deploymentBlock}
    {
      if lastRequested < deploymentBlock then deploymentBlock else lastRequested
    }

    ghost predicate InSome(ranges: seq<(nat, nat)>, n: nat) {
      exists k :: 0 <= k < |ranges| && ranges[k].0 <= n <= ranges[k].1
    }

    /** No query asks for more than the limit or beyond the follow height, and unless the 64-bit sum
        wraps around none runs backwards. */
    ghost predicate RangesFit(ranges: seq<(nat, nat)>, followHeight: nat) {
      forall k :: 0 <= k < |ranges| ==>
        && ranges[k].1 <= ranges[k].0 + eth1HeaderReqLimit && ranges[k].1 <= followHeight
        && (ranges[k].0 + eth1HeaderReqLimit < TWO_TO_THE_64 ==> ranges[k].0 <= ranges[k].1)
    }

    /** Every block from..to lies in one of the ranges. */
    ghost predicate Cover(ranges: seq<(nat, nat)>, from: nat, to: nat) {
      forall n: nat :: from <= n <= to ==> InSome(ranges, n)
    }

    /** Queries ask for something, and no block number wraps around. */
    ghost predicate Roomy(followHeight: nat) {
      eth1HeaderReqLimit > 0 && followHeight + eth1HeaderReqLimit < TWO_TO_THE_64
    }

    ghost predicate AlwaysHonest(ask: (nat, nat, nat) -> Response) {
      forall k: nat, s: nat, e: nat :: Honest(history, s, e, ask(k, s, e))
    }

    /** Every query is answered honestly and without a fault. */
    ghost predicate AlwaysFaultless(ask: (nat, nat, nat) -> Response) {
      AlwaysHonest(ask) && forall k: nat, s: nat, e: nat :: Faultless(ask(k, s, e), s)
    }

    /** One of the queries was not answered as it has to be, given what had been processed by then. */
    ghost predicate Blamed(ask: (nat, nat, nat) -> Response, calls: nat)
      reads this
    {
      exists k: nat, s: nat, e: nat, n: nat, b: nat ::
        k < calls && n <= |processed| && !Answered(ask(k, s, e), s, b, Run(Fresh, processed[..n]))
    }

    /** Query number `call` and what is made of its answer. */
    method Query(current: nat, followHeight: nat, batchSize: nat, additiveFactor: nat, logCount: nat,
                 ask: (nat, nat, nat) -> Response, call: nat, calls: nat)
      returns (ok: bool, answered: bool, next: nat, nextBatch: nat)
      requires Valid() && current < followHeight && batchSize <= eth1HeaderReqLimit && call < calls
      requires followHeight < TWO_TO_THE_64 && eth1HeaderReqLimit < TWO_TO_THE_64
      requires forall k: nat, s: nat, e: nat :: ask(k, s, e).Logs? ==> AllGenuine(history, ask(k, s, e).logs)
      modifies this`progress, this`processed, this`lastRequestedBlock
      ensures Valid() && nextBatch <= eth1HeaderReqLimit
      ensures !ok ==> Blamed(ask, calls)
      ensures ok && answered ==> next == QueryEnd(current, batchSize, followHeight)
      ensures ok && !answered ==> next == current && progress == old(progress)
      ensures ok && answered && batchSize == eth1HeaderReqLimit ==> nextBatch == batchSize
      ensures old(Sound(current)) && AlwaysHonest(ask) ==>
                Resumable() && (ok ==> Sound(next)) && (ok && answered ==> Sound(next + 1))
      ensures old(Sound(current)) && old(Complete(progress)) && AlwaysFaultless(ask) ==>
                ok && answered && Complete(progress)
    {
      var end := QueryEnd(current, batchSize, followHeight);
      var answer := ask(call, current, end);
      ghost var before := processed;
      if Sound(current) && Complete(progress) && AlwaysFaultless(ask) {
        TrieIsAlwaysPrefix(history, processed);
        HonestIsTaken(history, current, end, answer, progress);
      }
      answered := answer.Logs?;
      ok, next, nextBatch := ProcessBlockInBatch(current, followHeight, batchSize, additiveFactor, logCount, answer);
      if !ok {
        assert processed[..|before|] == before;
        assert !Answered(ask(call, current, end), current, batchSize, Run(Fresh, processed[..|before|]));
      }
    }

    /** The whole scan, against a provider that answers query number k about start..end with
        `ask(k, start, end)` and is given up on after `calls` queries.  On completion the ranges that
        were answered cover every block from the start to the follow height; with an honest provider
        every deposit up to it has been received; and however it ends, restarting misses nothing. */
    method ProcessPastLogs(followHeight: nat, deploymentBlock: nat, additiveFactor: nat, logCount: nat,
                           ask: (nat, nat, nat) -> Response, calls: nat)
      returns (r: Outcome, ranges: seq<(nat, nat)>)
      requires Valid() && followHeight < TWO_TO_THE_64 && eth1HeaderReqLimit < TWO_TO_THE_64
      requires forall i :: 0 <= i < |history| ==> deploymentBlock <= history[i].block
      requires forall k: nat, s: nat, e: nat :: ask(k, s, e).Logs? ==> AllGenuine(history, ask(k, s, e).logs)
      modifies this`progress, this`processed, this`lastRequestedBlock
      ensures Valid()
      ensures var start := FirstBlock(old(lastRequestedBlock), deploymentBlock);
              r.Completed? ==>
                && lastRequestedBlock == (if start < followHeight then followHeight else start)
                && (start < followHeight ==> Cover(ranges, start, followHeight))
      ensures RangesFit(ranges, followHeight)
      ensures old(Resumable()) && AlwaysHonest(ask) ==>
                Resumable() && (r.Completed? ==> CoveredBelow(history, progress.last, lastRequestedBlock))
      ensures old(Resumable()) && AlwaysHonest(ask) && r.Completed? ==>
                FirstBlock(old(lastRequestedBlock), deploymentBlock) < followHeight ==>
                  CoveredBelow(history, progress.last, followHeight + 1)
      ensures r.Failed? ==> Blamed(ask, calls)
      ensures old(Resumable()) && old(Complete(progress)) && AlwaysFaultless(ask) ==> !r.Failed?
      ensures old(Resumable()) && old(Complete(progress)) && AlwaysFaultless(ask) && Roomy(followHeight) ==>
                FirstBlock(old(lastRequestedBlock), deploymentBlock) + calls >= followHeight ==> r.Completed?
    {
      ranges := [];
      ghost var honest := Resumable() && AlwaysHonest(ask);
      var current: nat := FirstBlock(lastRequestedBlock, deploymentBlock);
      ghost var start := current;
      var batchSize: nat := eth1HeaderReqLimit;
      var call: nat := 0;
      ghost var faultless := Resumable() && Complete(progress) && AlwaysFaultless(ask);
      while current < followHeight
        invariant Valid() && batchSize <= eth1HeaderReqLimit
        invariant if start < followHeight then current <= followHeight else current == start
        invariant current <= start || Cover(ranges, start, current)
        invariant RangesFit(ranges, followHeight)
        invariant honest ==> Sound(current) && (current > start ==> Sound(current + 1))
        invariant faultless ==> honest && Complete(progress)
        invariant faultless && Roomy(followHeight) ==>
                    batchSize == eth1HeaderReqLimit && (current >= start + call || current >= followHeight)
        decreases calls - call
      {
        if call >= calls {
          return StillScanning, ranges;
        }
        var end := QueryEnd(current, batchSize, followHeight);
        EndFits(current, batchSize, followHeight);
        var ok, answered, next, nextBatch :=
          Query(current, followHeight, batchSize, additiveFactor, logCount, ask, call, calls);
        if !ok {
          return Failed, ranges;
        }
        if answered {
          ExtendCover(ranges, start, current, end);
          ranges := ranges + [(current, end)];
        }
        current, batchSize := next, nextBatch;
        call := call + 1;
      }
      lastRequestedBlock := current;
      return Completed, ranges;
    }

    lemma EndFits(current: nat, batchSize: nat, followHeight: nat)
      requires current < followHeight < TWO_TO_THE_64 && batchSize <= eth1HeaderReqLimit < TWO_TO_THE_64
      ensures var end := QueryEnd(current, batchSize, followHeight);
              && end <= current + eth1HeaderReqLimit && end <= followHeight
              && (current + eth1HeaderReqLimit < TWO_TO_THE_64 ==> current <= end)
              && (Roomy(followHeight) && batchSize == eth1HeaderReqLimit ==> current < end)
    {
    }

    lemma ExtendCover(ranges: seq<(nat, nat)>, start: nat, current: nat, end: nat)
      requires current <= start || Cover(ranges, start, current)
      ensures end <= start || Cover(ranges + [(current, end)], start, end)
    {
      var more := ranges + [(current, end)];
      forall n: nat | start <= n <= end
        ensures InSome(more, n)
      {
        if n < current {
          assert InSome(ranges, n);
          var k :| 0 <= k < |ranges| && ranges[k].0 <= n <= ranges[k].1;
          assert more[k] == ranges[k];
        } else {
          assert more[|ranges|] == (current, end);
        }
      }
    }
  }

  /** What a completed scan with an honest provider means for the trie: it holds exactly the deposits
      up to the last received index, which include all those up to the follow height, unless one was
      lost to a failed hash or insertion. */
  lemma {:induction false} CompletedScanFillsTrie(history: seq<Deposit>, processed: seq<Log>, followHeight: nat, i: nat)
    requires AllGenuine(history, processed) && NothingLost(processed)
    requires CoveredBelow(history, Run(Fresh, processed).last, followHeight + 1)
    requires i < |history| && history[i].block <= followHeight
    ensures i < |Run(Fresh, processed).trie| && Run(Fresh, processed).trie[i] == history[i].data
  {
    TrieCompleteIffNothingLost(history, processed);
  }
}
