/**
 The transaction pool of a validator: a queue with an index of its hashes, batches taken
 from its front, and receipts that settle the registrations waiting for them.
 */
module Pool {
  import opened Bytes
  import opened Records
  import opened Commits

  datatype Item = Item(txHash: TxHash, encodedTx: seq<byte>)

  datatype PoolError = PoolFull | InvalidIncomingData | AlreadyQueued

  datatype Queue = Queue(items: seq<Item>, hashes: set<TxHash>, limit: nat)

  function CanAdd(q: Queue, h: TxHash): Option<PoolError> {
    if |q.items| >= q.limit then Some(PoolFull)
    else if h == "" then Some(InvalidIncomingData)
    else if h in q.hashes then Some(AlreadyQueued)
    else None
  }

  function Add(q: Queue, item: Item): Queue {
    q.(items := q.items + [item], hashes := q.hashes + {item.txHash})
  }

  function Hashes(items: seq<Item>): set<TxHash> {
    set i | 0 <= i < |items| :: items[i].txHash
  }

  ghost predicate Distinct(items: seq<Item>) {
    forall i, j {:trigger items[i], items[j]} :: 0 <= i < j < |items| ==> items[i].txHash != items[j].txHash
  }

  /** The index holds exactly the hashes of the queue, which has no duplicates and is not overfull. */
  ghost predicate QueueOk(q: Queue) {
    q.hashes == Hashes(q.items) && Distinct(q.items) && |q.items| <= q.limit
  }

  ghost predicate WellFormedHashes(items: seq<Item>) {
    forall i {:trigger items[i]} :: 0 <= i < |items| ==> IsTxHash(items[i].txHash)
  }

  function BatchLength(q: Queue): nat {
    if |q.items| <= BATCH_SIZE then |q.items| else BATCH_SIZE
  }

  /** A batch is the front of the queue. */
  function Batch(q: Queue): (b: seq<Item>)
    ensures |b| <= BATCH_SIZE && b <= q.items
  {
    q.items[..BatchLength(q)]
  }

  function AfterBatch(q: Queue): Queue {
    q.(items := q.items[BatchLength(q)..], hashes := q.hashes - Hashes(Batch(q)))
  }

  lemma AddKeeps(q: Queue, item: Item)
    requires QueueOk(q) && CanAdd(q, item.txHash).None?
    ensures QueueOk(Add(q, item))
  {
    var items := q.items + [item];
    assert forall i {:trigger items[i]} :: 0 <= i < |q.items| ==> items[i] == q.items[i] && items[i].txHash in Hashes(q.items);
    OneMoreHash(items, |q.items|);
    assert items[..|q.items|] == q.items && items[..|q.items| + 1] == items;
  }

  /** The rest of the queue keeps its order and shares no hash with the batch. */
  lemma BatchKeeps(q: Queue)
    requires QueueOk(q)
    ensures QueueOk(AfterBatch(q)) && Distinct(Batch(q)) && Batch(q) + AfterBatch(q).items == q.items
    ensures Hashes(Batch(q)) !! AfterBatch(q).hashes
  {
    SplitHashes(q.items, BatchLength(q));
    RestIsDistinct(q.items, BatchLength(q));
    hide Distinct;
    assert AfterBatch(q).hashes == Hashes(AfterBatch(q).items);
  }

  lemma RestIsDistinct(items: seq<Item>, n: nat)
    requires Distinct(items) && n <= |items|
    ensures Distinct(items[..n]) && Distinct(items[n..])
  {
    var rest := items[n..];
    assert forall i {:trigger rest[i]} :: 0 <= i < |rest| ==> rest[i] == items[n + i];
  }

  /** The hashes behind a cut are those of the whole that are not in front of it. */
  lemma SplitHashes(items: seq<Item>, n: nat)
    requires Distinct(items) && n <= |items|
    ensures Hashes(items[n..]) == Hashes(items) - Hashes(items[..n])
  {
    var front, rest := items[..n], items[n..];
    assert forall i {:trigger items[i]} :: 0 <= i < n ==> items[i] == front[i] && items[i].txHash in Hashes(front);
    forall h ensures h in Hashes(rest) <==> h in Hashes(items) && h !in Hashes(front) {
      if h in Hashes(rest) {
        var i :| 0 <= i < |rest| && rest[i].txHash == h;
        assert items[n + i].txHash == h;
      }
      if h in Hashes(items) && h !in Hashes(front) {
        var i :| 0 <= i < |items| && items[i].txHash == h;
        assert i >= n;
        assert rest[i - n].txHash == h;
      }
    }
  }

  // ---------- publication ----------

  /** Receipt i is for transaction i of the batch, at block end - n + i. */
  ghost predicate Aligned(batch: seq<Item>, receipts: seq<Receipt>, end: nat) {
    && |receipts| == |batch| <= end
    && forall i {:trigger receipts[i]} :: 0 <= i < |batch| ==>
         && receipts[i].txHash == batch[i].txHash && receipts[i].completeTx == batch[i].encodedTx
         && receipts[i].blockNumber == end - |batch| + i
  }

  /** Appends a batch at once and makes a receipt for each block; a proof may be missing. */
  method AppendWithProofOfPublication(log: seq<Item>, batch: seq<Item>, proofs: seq<Option<seq<byte>>>)
    returns (newLog: seq<Item>, receipts: seq<Receipt>)
    requires |proofs| == |batch|
    ensures newLog == log + batch && Aligned(batch, receipts, |newLog|)
    ensures forall i :: 0 <= i < |receipts| ==> receipts[i].proof == proofs[i] && newLog[receipts[i].blockNumber] == batch[i]
  {
    newLog := log + batch;
    var end := |newLog|;
    var start := end - |batch|;
    receipts := [];
    for i := 0 to |batch|
      invariant |receipts| == i
      invariant forall j {:trigger receipts[j]} :: 0 <= j < i ==>
                  receipts[j] == Receipt(batch[j].txHash, batch[j].encodedTx, proofs[j], start + j)
    {
      var blockNumber := start + i;
      receipts := receipts + [Receipt(batch[i].txHash, batch[i].encodedTx, proofs[i], blockNumber)];
    }
  }

  function Verdict(receipt: Receipt): Settlement {
    if receipt.proof.None? then RejectedWith(ProofUnavailable) else Resolved(receipt)
  }

  /** Each receipt settles what waits under its own hash. */
  function SettleReceipts(r: Registry, receipts: seq<Receipt>): Registry {
    if receipts == [] then r
    else
      var last := receipts[|receipts| - 1];
      Settle(SettleReceipts(r, receipts[..|receipts| - 1]), last.txHash, Verdict(last))
  }

  /** A failed append rejects every transaction of the batch. */
  function SettleFailed(r: Registry, batch: seq<Item>): Registry {
    if batch == [] then r
    else Settle(SettleFailed(r, batch[..|batch| - 1]), batch[|batch| - 1].txHash, RejectedWith(AppendFailed))
  }

  // ---------- the service ----------

  class TransactionPoolService {
    const txPoolSize: nat
    const commits: TransactionCommitService
    var txPool: seq<Item>
    var queuedTxHashes: set<TxHash>
    const enableWallet: bool
    var scheduler: bool

    function State(): Queue
      reads this
    {
      Queue(txPool, queuedTxHashes, txPoolSize)
    }

    constructor (commits: TransactionCommitService, txPoolSize: nat, enableWallet: bool)
      ensures State() == Queue([], {}, txPoolSize) && this.commits == commits && this.enableWallet == enableWallet && !scheduler
    {
      this.commits := commits;
      this.enableWallet := enableWallet;
      scheduler := false;
      this.txPoolSize := txPoolSize;
      txPool := [];
      queuedTxHashes := {};
    }

    method AddTransaction(txHash: TxHash, encodedTx: seq<byte>) returns (error: Option<PoolError>)
      requires QueueOk(State())
      modifies this
      ensures QueueOk(State()) && error == CanAdd(old(State()), txHash)
      ensures State() == if error.None? then Add(old(State()), Item(txHash, encodedTx)) else old(State())
    {
      if |txPool| >= txPoolSize { return Some(PoolFull); }
      if txHash == "" { return Some(InvalidIncomingData); }
      if txHash in queuedTxHashes { return Some(AlreadyQueued); }
      AddKeeps(State(), Item(txHash, encodedTx));
      queuedTxHashes := queuedTxHashes + {txHash};
      txPool := txPool + [Item(txHash, encodedTx)];
      error := None;
    }

    method PrepareBatch() returns (batch: seq<Item>)
      requires QueueOk(State())
      modifies this
      ensures QueueOk(State()) && batch == Batch(old(State())) && State() == AfterBatch(old(State()))
    {
      BatchKeeps(State());
      ghost var q := State();
      var batchSize := if |txPool| <= BATCH_SIZE then |txPool| else BATCH_SIZE;
      batch := [];
      for i := 0 to batchSize
        invariant batch == q.items[..i] && txPool == q.items[i..]
        invariant queuedTxHashes == q.hashes - Hashes(q.items[..i])
      {
        var tx := txPool[0];
        OneMoreHash(q.items, i);
        txPool := txPool[1..];
        queuedTxHashes := queuedTxHashes - {tx.txHash};
        batch := batch + [tx];
      }
    }

    /** The receipts under their hashes. */
    static method IndexReceipts(batchItems: seq<Item>, receipts: seq<Receipt>, ghost end: nat)
      returns (receiptsByHash: map<TxHash, Receipt>)
      requires Distinct(batchItems) && Aligned(batchItems, receipts, end)
      ensures forall j {:trigger receipts[j]} :: 0 <= j < |receipts| ==>
                receipts[j].txHash in receiptsByHash && receiptsByHash[receipts[j].txHash] == receipts[j]
    {
      receiptsByHash := map[];
      for i := 0 to |receipts|
        invariant forall j {:trigger receipts[j]} :: 0 <= j < i ==>
                    receipts[j].txHash in receiptsByHash && receiptsByHash[receipts[j].txHash] == receipts[j]
      {
        assert forall j {:trigger receipts[j]} :: 0 <= j < i ==> batchItems[j].txHash != batchItems[i].txHash;
        receiptsByHash := receiptsByHash[receipts[i].txHash := receipts[i]];
      }
    }

    /** What follows a successful append: receipts are looked up by hash. */
    method SettleBatch(batchItems: seq<Item>, receipts: seq<Receipt>, ghost end: nat)
      requires commits.Valid() && Distinct(batchItems) && Aligned(batchItems, receipts, end)
      requires WellFormedHashes(batchItems)
      modifies commits
      ensures commits.Valid() && commits.State() == SettleReceipts(old(commits.State()), receipts)
    {
      var receiptsByHash := IndexReceipts(batchItems, receipts, end);
      hide Distinct, RegistryOk;
      for i := 0 to |batchItems|
        invariant commits.Valid() && commits.State() == SettleReceipts(old(commits.State()), receipts[..i])
      {
        var item := batchItems[i];
        assert receipts[i].txHash == item.txHash;
        assert receipts[..i + 1][..i] == receipts[..i];
        if item.txHash !in receiptsByHash {
          assert false;
        } else {
          var receipt := receiptsByHash[item.txHash];
          var refusal, done := commits.SettlePendingCommit(item.txHash, Verdict(receipt));
        }
      }
      assert receipts[..|batchItems|] == receipts;
    }

    method RejectBatch(batchItems: seq<Item>)
      requires commits.Valid() && WellFormedHashes(batchItems)
      modifies commits
      ensures commits.Valid() && commits.State() == SettleFailed(old(commits.State()), batchItems)
    {
      for i := 0 to |batchItems|
        invariant commits.Valid() && commits.State() == SettleFailed(old(commits.State()), batchItems[..i])
      {
        assert batchItems[..i + 1][..i] == batchItems[..i];
        var refusal, done := commits.SettlePendingCommit(batchItems[i].txHash, RejectedWith(AppendFailed));
      }
      assert batchItems[..|batchItems|] == batchItems;
    }

    /** Appends a batch and settles its registrations: by the receipts, or by the error. */
    method Publish(batch: seq<Item>, log: seq<Item>, proof: nat -> Option<seq<byte>>, threw: bool)
      returns (newLog: seq<Item>)
      requires commits.Valid() && Distinct(batch) && WellFormedHashes(batch)
      modifies commits
      ensures commits.Valid() && newLog == if threw then log else log + batch
      ensures commits.State() == if threw then SettleFailed(old(commits.State()), batch)
                                 else SettleReceipts(old(commits.State()), Receipts(batch, Proofs(batch, |log|, proof), |log|))
    {
      hide RegistryOk, Distinct, IsTxHash, SettleReceipts, SettleFailed;
      if threw {
        RejectBatch(batch);
        newLog := log;
      } else {
        var proofs := Proofs(batch, |log|, proof);
        var receipts;
        newLog, receipts := AppendWithProofOfPublication(log, batch, proofs);
        assert receipts == Receipts(batch, proofs, |log|);
        SettleBatch(batch, receipts, |newLog|);
      }
    }

    /** The whole of one worker run, when nothing comes between its steps. */
    method ProcessTransactions(canValidate: bool, log: seq<Item>, proof: nat -> Option<seq<byte>>, threw: bool)
      returns (newLog: seq<Item>)
      requires commits.Valid() && QueueOk(State()) && WellFormedHashes(txPool)
      modifies this, commits
      ensures commits.Valid() && QueueOk(State())
      ensures Protocol(State(), commits.State(), [], newLog)
           == WorkerRun(Protocol(old(State()), old(commits.State()), [], log), canValidate, proof, threw)
    {
      if !canValidate || |txPool| == 0 { return log; }
      hide RegistryOk, IsTxHash;
      BatchKeeps(State());
      WorkerRunIs(Protocol(State(), commits.State(), [], log), proof, threw);
      hide QueueOk, WorkerRun, Distinct, AfterBatch, SettleFailed, SettleReceipts;
      var batch := PrepareBatch();
      newLog := Publish(batch, log, proof, threw);
    }

    /** Only with a wallet, and not twice. */
    method Start()
      modifies this`scheduler
      ensures scheduler == (old(scheduler) || enableWallet)
    {
      if !enableWallet { return; }
      if scheduler { return; }
      scheduler := true;
    }

    /** Drops what is queued, but only when a scheduler runs. */
    method StopPool()
      modifies this
      ensures !scheduler
      ensures State() == if old(scheduler) then Queue([], {}, txPoolSize) else old(State())
    {
      if !scheduler { return; }
      scheduler := false;
      queuedTxHashes := {};
      txPool := [];
    }
  }

  lemma OneMoreHash(items: seq<Item>, i: nat)
    requires i < |items|
    ensures Hashes(items[..i + 1]) == Hashes(items[..i]) + {items[i].txHash}
    ensures items[..i + 1] == items[..i] + [items[i]]
  {
    var s, t := items[..i], items[..i + 1];
    assert forall j {:trigger t[j]} :: 0 <= j < i ==> t[j] == s[j];
    assert t[i] == items[i];
  }

  // ---------- dispatch ----------

  /** The two services after a dispatch: registered and queued, or neither. */
  datatype Dispatched = Dispatched(accepted: bool, registry: Registry, queue: Queue)

  function Dispatch(r: Registry, q: Queue, item: Item): Dispatched {
    if CanRegister(r, item.txHash).Some? then Dispatched(false, r, q)
    else if CanAdd(q, item.txHash).Some? then
      Dispatched(false, Settle(Register(r, item.txHash), item.txHash, RejectedWith(NotEnqueued)), q)
    else Dispatched(true, Register(r, item.txHash), Add(q, item))
  }

  /** Registers a commit, then enqueues; when the queue refuses, the registration is rejected. */
  method DispatchTransaction(pool: TransactionPoolService, txHash: TxHash, encodedTx: seq<byte>) returns (accepted: bool)
    requires pool.commits.Valid() && QueueOk(pool.State())
    modifies pool, pool.commits
    ensures pool.commits.Valid() && QueueOk(pool.State())
    ensures Dispatched(accepted, pool.commits.State(), pool.State())
         == Dispatch(old(pool.commits.State()), old(pool.State()), Item(txHash, encodedTx))
  {
    var refusal, ticket := pool.commits.RegisterPendingCommit(txHash);
    if refusal.Some? { return false; }
    var error := pool.AddTransaction(txHash, encodedTx);
    if error.Some? {
      var ignored, done := pool.commits.SettlePendingCommit(txHash, RejectedWith(NotEnqueued));
      return false;
    }
    accepted := true;
  }

  /** A refused dispatch leaves the queue, what was waiting and the timers as they were. */
  lemma RefusalRollsBack(r: Registry, q: Queue, item: Item)
    requires RegistryOk(r) && !Dispatch(r, q, item).accepted
    ensures var d := Dispatch(r, q, item);
            d.queue == q && d.registry.pending == r.pending && d.registry.timers == r.timers
  {
    if CanRegister(r, item.txHash).None? {
      RegisterKeeps(r, item.txHash);
      assert |r.registered| !in r.timers;
    }
  }

  // ---------- runs ----------

  /** Everything that can happen around a pool: batches in flight wait for their append. */
  datatype Protocol = Protocol(queue: Queue, registry: Registry, inflight: seq<seq<Item>>, log: seq<Item>)

  datatype Step =
    | Submit(item: Item)
    | LegacySubmit(item: Item)
    | TakeBatch
    | Appended(batch: nat, proofs: seq<Option<seq<byte>>>)
    | AppendThrew(batch: nat)
    | OtherAppend(item: Item)
    | TimerFired(ticket: Ticket)
    | StopPool
    | CloseCommits

  predicate Enabled(s: Protocol, step: Step) {
    match step
    case LegacySubmit(item) => IsTxHash(item.txHash)
    case TakeBatch => s.queue.items != []
    case Appended(k, proofs) => k < |s.inflight| && |proofs| == |s.inflight[k]|
    case AppendThrew(k) => k < |s.inflight|
    case TimerFired(t) => t in s.registry.timers && t < |s.registry.registered|
    case _ => true
  }

  function Receipts(batch: seq<Item>, proofs: seq<Option<seq<byte>>>, start: nat): (r: seq<Receipt>)
    requires |proofs| == |batch|
    ensures |r| == |batch|
  {
    seq(|batch|, i requires 0 <= i < |batch| => Receipt(batch[i].txHash, batch[i].encodedTx, proofs[i], start + i))
  }

  /** The proofs of a batch from a block on, where they can be made. */
  function Proofs(batch: seq<Item>, start: nat, proof: nat -> Option<seq<byte>>): (r: seq<Option<seq<byte>>>)
    ensures |r| == |batch|
  {
    seq(|batch|, i requires 0 <= i < |batch| => proof(start + i))
  }

  function Without<T>(s: seq<T>, k: nat): seq<T>
    requires k < |s|
  {
    s[..k] + s[k + 1..]
  }

  function Next(s: Protocol, step: Step): Protocol
    requires Enabled(s, step)
  {
    match step
    case Submit(item) =>
      var d := Dispatch(s.registry, s.queue, item);
      s.(registry := d.registry, queue := d.queue)
    case LegacySubmit(item) => if CanAdd(s.queue, item.txHash).None? then s.(queue := Add(s.queue, item)) else s
    case TakeBatch => s.(queue := AfterBatch(s.queue), inflight := s.inflight + [Batch(s.queue)])
    case Appended(k, proofs) =>
      var receipts := Receipts(s.inflight[k], proofs, |s.log|);
      s.(log := s.log + s.inflight[k], registry := SettleReceipts(s.registry, receipts), inflight := Without(s.inflight, k))
    case AppendThrew(k) => s.(registry := SettleFailed(s.registry, s.inflight[k]), inflight := Without(s.inflight, k))
    case OtherAppend(item) => s.(log := s.log + [item])
    case TimerFired(t) => s.(registry := Settle(s.registry, s.registry.registered[t], RejectedWith(TimedOut)))
    case StopPool => s.(queue := Queue([], {}, s.queue.limit))
    case CloseCommits => s.(registry := CloseAll(s.registry))
  }

  /** One run of the worker: nothing without permission or work, else a batch taken and its append. */
  ghost function WorkerRun(s: Protocol, canValidate: bool, proof: nat -> Option<seq<byte>>, threw: bool): Protocol
    requires s.inflight == []
  {
    if !canValidate || s.queue.items == [] then s
    else Next(Next(s, TakeBatch), if threw then AppendThrew(0) else Appended(0, Proofs(Batch(s.queue), |s.log|, proof)))
  }

  lemma WorkerRunIs(s: Protocol, proof: nat -> Option<seq<byte>>, threw: bool)
    requires s.inflight == [] && s.queue.items != []
    ensures var b := Batch(s.queue);
            WorkerRun(s, true, proof, threw)
            == if threw then Protocol(AfterBatch(s.queue), SettleFailed(s.registry, b), [], s.log)
               else Protocol(AfterBatch(s.queue), SettleReceipts(s.registry, Receipts(b, Proofs(b, |s.log|, proof), |s.log|)),
                             [], s.log + b)
  {
    assert Next(s, TakeBatch).inflight == [Batch(s.queue)];
    assert Without([Batch(s.queue)], 0) == [];
  }

  /** A receipt that resolves a ticket is for the hash of that ticket, and the block it names holds
      the transaction queued under that hash. */
  ghost predicate OwnReceipt(s: Protocol, t: Ticket)
    requires t in s.registry.settled && t < |s.registry.registered|
  {
    s.registry.settled[t].Resolved? ==>
      var receipt := s.registry.settled[t].receipt;
      && receipt.txHash == s.registry.registered[t] && receipt.blockNumber < |s.log|
      && s.log[receipt.blockNumber] == Item(receipt.txHash, receipt.completeTx)
  }

  ghost predicate OwnReceipts(s: Protocol)
    requires RegistryOk(s.registry)
  {
    forall t {:trigger OwnReceipt(s, t)} :: t in s.registry.settled ==> OwnReceipt(s, t)
  }

  /** A batch in flight is small enough not to be penalised as oversized, has no duplicates, and every
      hash in it is one that a registration may wait under. */
  ghost predicate BatchOk(b: seq<Item>) {
    1 <= |b| <= BATCH_SIZE && Distinct(b) && WellFormedHashes(b)
  }

  ghost predicate ProtocolOk(s: Protocol) {
    && QueueOk(s.queue) && WellFormedHashes(s.queue.items) && RegistryOk(s.registry) && OwnReceipts(s)
    && forall k {:trigger s.inflight[k]} :: 0 <= k < |s.inflight| ==> BatchOk(s.inflight[k])
  }

  ghost predicate Monotone(s: Protocol, s': Protocol) {
    KeepsSettled(s.registry, s'.registry) && s.log <= s'.log
  }

  /** Settling one hash with a verdict that is good for it. */
  lemma SettleKeepsOwn(s: Protocol, h: TxHash, outcome: Settlement)
    requires RegistryOk(s.registry) && OwnReceipts(s)
    requires outcome.Resolved? ==>
               var receipt := outcome.receipt;
               receipt.txHash == h && receipt.blockNumber < |s.log|
               && s.log[receipt.blockNumber] == Item(receipt.txHash, receipt.completeTx)
    ensures var s' := s.(registry := Settle(s.registry, h, outcome));
            RegistryOk(s'.registry) && OwnReceipts(s') && KeepsSettled(s.registry, s'.registry)
  {
    SettleKeeps(s.registry, h, outcome);
    var s' := s.(registry := Settle(s.registry, h, outcome));
    hide KeepsSettled, TicketOk;
    forall t | t in s'.registry.settled ensures OwnReceipt(s', t) {
      if t in s.registry.settled && !(h in s.registry.pending && t == s.registry.pending[h]) { assert OwnReceipt(s, t); }
    }
  }

  lemma LogGrows(s: Protocol, more: seq<Item>)
    requires RegistryOk(s.registry) && OwnReceipts(s)
    ensures OwnReceipts(s.(log := s.log + more))
  {
    hide RegistryOk;
    var s' := s.(log := s.log + more);
    assert RegistryOk(s'.registry);
    forall t | t in s'.registry.settled ensures SettledTicket(s.registry, t) && OwnReceipt(s', t) {
      SettledIsRegistered(s.registry, t);
      assert OwnReceipt(s, t);
    }
  }

  ghost predicate SettledTicket(r: Registry, t: Ticket) { t < |r.registered| }

  lemma SettledIsRegistered(r: Registry, t: Ticket)
    requires RegistryOk(r) && t in r.settled
    ensures SettledTicket(r, t)
  {
  }

  lemma {:induction false} ReceiptsKeepOwn(s: Protocol, receipts: seq<Receipt>)
    requires RegistryOk(s.registry) && OwnReceipts(s)
    requires forall i {:trigger receipts[i]} :: 0 <= i < |receipts| ==>
               receipts[i].blockNumber < |s.log|
               && s.log[receipts[i].blockNumber] == Item(receipts[i].txHash, receipts[i].completeTx)
    ensures var s' := s.(registry := SettleReceipts(s.registry, receipts));
            RegistryOk(s'.registry) && OwnReceipts(s') && KeepsSettled(s.registry, s'.registry)
  {
    if receipts != [] {
      var before, last := receipts[..|receipts| - 1], receipts[|receipts| - 1];
      ReceiptsKeepOwn(s, before);
      var t := s.(registry := SettleReceipts(s.registry, before));
      hide RegistryOk, OwnReceipts, KeepsSettled, Settle;
      SettleKeepsOwn(t, last.txHash, Verdict(last));
      KeepsSettledTransitive(s.registry, t.registry, SettleReceipts(s.registry, receipts));
    }
  }

  lemma {:induction false} FailedKeepsOwn(s: Protocol, batch: seq<Item>)
    requires RegistryOk(s.registry) && OwnReceipts(s)
    ensures var s' := s.(registry := SettleFailed(s.registry, batch));
            RegistryOk(s'.registry) && OwnReceipts(s') && KeepsSettled(s.registry, s'.registry)
  {
    if batch != [] {
      FailedKeepsOwn(s, batch[..|batch| - 1]);
      var t := s.(registry := SettleFailed(s.registry, batch[..|batch| - 1]));
      hide RegistryOk, OwnReceipts, KeepsSettled, Settle;
      SettleKeepsOwn(t, batch[|batch| - 1].txHash, RejectedWith(AppendFailed));
      KeepsSettledTransitive(s.registry, t.registry, SettleFailed(s.registry, batch));
    }
  }

  lemma RegisterKeepsOwn(s: Protocol, h: TxHash)
    requires RegistryOk(s.registry) && OwnReceipts(s) && CanRegister(s.registry, h).None?
    ensures var s' := s.(registry := Register(s.registry, h));
            RegistryOk(s'.registry) && OwnReceipts(s') && KeepsSettled(s.registry, s'.registry)
  {
    RegisterKeeps(s.registry, h);
    var s' := s.(registry := Register(s.registry, h));
    hide TicketOk, IsTxHash;
    forall t | t in s'.registry.settled ensures OwnReceipt(s', t) {
      assert OwnReceipt(s, t);
    }
  }

  lemma CloseKeepsOwn(s: Protocol)
    requires RegistryOk(s.registry) && OwnReceipts(s)
    ensures var s' := s.(registry := CloseAll(s.registry));
            RegistryOk(s'.registry) && OwnReceipts(s') && KeepsSettled(s.registry, s'.registry)
  {
    CloseKeeps(s.registry);
    var s' := s.(registry := CloseAll(s.registry));
    hide TicketOk, IsTxHash;
    forall t | t in s'.registry.settled ensures OwnReceipt(s', t) {
      assert t in s.registry.settled ==> OwnReceipt(s, t);
    }
  }

  lemma SubmitKeeps(s: Protocol, item: Item)
    requires ProtocolOk(s)
    ensures ProtocolOk(Next(s, Submit(item))) && Monotone(s, Next(s, Submit(item)))
  {
    hide RegistryOk, OwnReceipts, QueueOk;
    if CanRegister(s.registry, item.txHash).None? {
      RegisterKeepsOwn(s, item.txHash);
      var t := s.(registry := Register(s.registry, item.txHash));
      if CanAdd(s.queue, item.txHash).Some? {
        SettleKeepsOwn(t, item.txHash, RejectedWith(NotEnqueued));
        KeepsSettledTransitive(s.registry, t.registry, Next(s, Submit(item)).registry);
      } else {
        AddKeeps(s.queue, item);
        SameButFlight(t, Next(s, Submit(item)));
      }
    }
  }

  lemma KeepsSettledTransitive(a: Registry, b: Registry, c: Registry)
    requires KeepsSettled(a, b) && KeepsSettled(b, c)
    ensures KeepsSettled(a, c)
  {
    forall t | t in a.settled ensures t in c.settled && c.settled[t] == a.settled[t] { assert t in b.settled; }
  }

  lemma AppendedKeeps(s: Protocol, k: nat, proofs: seq<Option<seq<byte>>>)
    requires ProtocolOk(s) && Enabled(s, Appended(k, proofs))
    ensures ProtocolOk(Next(s, Appended(k, proofs))) && Monotone(s, Next(s, Appended(k, proofs)))
  {
    hide RegistryOk, OwnReceipts, QueueOk, BatchOk;
    var batch := s.inflight[k];
    var receipts := Receipts(batch, proofs, |s.log|);
    LogGrows(s, batch);
    var t := s.(log := s.log + batch);
    assert forall i {:trigger receipts[i]} :: 0 <= i < |batch| ==> t.log[receipts[i].blockNumber] == batch[i];
    ReceiptsKeepOwn(t, receipts);
    var u := t.(registry := SettleReceipts(s.registry, receipts));
    SameButFlight(u, Next(s, Appended(k, proofs)));
  }

  /** The batches in flight do not matter to the registrations. */
  lemma SameButFlight(s: Protocol, s': Protocol)
    requires RegistryOk(s.registry) && OwnReceipts(s) && s'.registry == s.registry && s'.log == s.log
    ensures OwnReceipts(s')
  {
    forall t | t in s'.registry.settled ensures OwnReceipt(s', t) { assert OwnReceipt(s, t); }
  }

  lemma LegacyKeeps(s: Protocol, item: Item)
    requires ProtocolOk(s) && IsTxHash(item.txHash)
    ensures ProtocolOk(Next(s, LegacySubmit(item))) && Monotone(s, Next(s, LegacySubmit(item)))
  {
    hide RegistryOk, QueueOk, OwnReceipts, BatchOk, IsTxHash;
    if CanAdd(s.queue, item.txHash).None? { AddKeeps(s.queue, item); }
    SameButFlight(s, Next(s, LegacySubmit(item)));
  }

  lemma TakeKeeps(s: Protocol)
    requires ProtocolOk(s) && s.queue.items != []
    ensures ProtocolOk(Next(s, TakeBatch)) && Monotone(s, Next(s, TakeBatch))
  {
    BatchKeeps(s.queue);
    hide RegistryOk, QueueOk, OwnReceipts, Distinct, IsTxHash;
    assert BatchOk(Batch(s.queue));
    hide BatchOk;
    SameButFlight(s, Next(s, TakeBatch));
  }

  lemma ThrewKeeps(s: Protocol, k: nat)
    requires ProtocolOk(s) && Enabled(s, AppendThrew(k))
    ensures ProtocolOk(Next(s, AppendThrew(k))) && Monotone(s, Next(s, AppendThrew(k)))
  {
    hide RegistryOk, QueueOk, OwnReceipts, BatchOk, IsTxHash;
    FailedKeepsOwn(s, s.inflight[k]);
    var s' := Next(s, AppendThrew(k));
    SameButFlight(s.(registry := s'.registry), s');
  }

  lemma StopKeeps(s: Protocol)
    requires ProtocolOk(s)
    ensures ProtocolOk(Next(s, StopPool)) && Monotone(s, Next(s, StopPool))
  {
    assert QueueOk(Queue([], {}, s.queue.limit));
    hide RegistryOk, QueueOk, OwnReceipts, BatchOk;
    SameButFlight(s, Next(s, StopPool));
  }

  /** Only the registry changes. */
  lemma RegistryStep(s: Protocol, r: Registry)
    requires ProtocolOk(s) && RegistryOk(r) && OwnReceipts(s.(registry := r)) && KeepsSettled(s.registry, r)
    ensures ProtocolOk(s.(registry := r)) && Monotone(s, s.(registry := r))
  {
    hide RegistryOk, QueueOk, OwnReceipts, BatchOk, KeepsSettled, WellFormedHashes;
  }

  /** Only the log grows. */
  lemma LogStep(s: Protocol, more: seq<Item>)
    requires ProtocolOk(s)
    ensures ProtocolOk(s.(log := s.log + more)) && Monotone(s, s.(log := s.log + more))
  {
    LogGrows(s, more);
    hide RegistryOk, QueueOk, OwnReceipts, BatchOk, WellFormedHashes;
  }

  /** The steps that leave queue and batches alone. */
  lemma OtherStepKeeps(s: Protocol, step: Step)
    requires ProtocolOk(s) && Enabled(s, step) && (step.OtherAppend? || step.TimerFired? || step.CloseCommits?)
    ensures ProtocolOk(Next(s, step)) && Monotone(s, Next(s, step))
  {
    hide RegistryOk, QueueOk, OwnReceipts, BatchOk, KeepsSettled, CloseAll, Settle;
    if step.OtherAppend? {
      LogStep(s, [step.item]);
    } else if step.TimerFired? {
      SettleKeepsOwn(s, s.registry.registered[step.ticket], RejectedWith(TimedOut));
      RegistryStep(s, Next(s, step).registry);
    } else {
      CloseKeepsOwn(s);
      RegistryStep(s, CloseAll(s.registry));
    }
  }

  lemma StepKeeps(s: Protocol, step: Step)
    requires ProtocolOk(s) && Enabled(s, step)
    ensures ProtocolOk(Next(s, step)) && Monotone(s, Next(s, step))
  {
    hide ProtocolOk, Monotone, Next, IsTxHash;
    match step
    case Submit(item) => SubmitKeeps(s, item);
    case Appended(k, proofs) => AppendedKeeps(s, k, proofs);
    case LegacySubmit(item) => LegacyKeeps(s, item);
    case TakeBatch => TakeKeeps(s);
    case AppendThrew(k) => ThrewKeeps(s, k);
    case StopPool => StopKeeps(s);
    case _ => OtherStepKeeps(s, step);
  }

  /** The states a run of steps goes through. */
  ghost predicate IsRun(run: seq<Protocol>, steps: seq<Step>, limit: nat) {
    && |run| == |steps| + 1 && run[0] == Protocol(Queue([], {}, limit), EMPTY, [], [])
    && forall i {:trigger steps[i]} :: 0 <= i < |steps| ==> Enabled(run[i], steps[i]) && run[i + 1] == Next(run[i], steps[i])
  }

  lemma {:induction false} RunKeepsProtocol(run: seq<Protocol>, steps: seq<Step>, limit: nat, i: nat)
    requires IsRun(run, steps, limit) && i < |run|
    ensures ProtocolOk(run[i])
  {
    if i > 0 {
      RunKeepsProtocol(run, steps, limit, i - 1);
      var s, step := run[i - 1], steps[i - 1];
      StepKeeps(s, step);
    }
  }

  lemma RunKeepsSettled(run: seq<Protocol>, steps: seq<Step>, limit: nat, j: nat)
    requires IsRun(run, steps, limit) && 0 < j < |run|
    ensures KeepsSettled(run[j - 1].registry, run[j].registry)
  {
    RunKeepsProtocol(run, steps, limit, j - 1);
    var s, step := run[j - 1], steps[j - 1];
    hide ProtocolOk;
    StepKeeps(s, step);
  }

  lemma OwnReceiptOf(s: Protocol, t: Ticket)
    requires RegistryOk(s.registry) && OwnReceipts(s) && t in s.registry.settled
    ensures t < |s.registry.registered| && OwnReceipt(s, t)
  {
  }

  /** In every run, once a registration is settled it stays settled with the same outcome; a receipt
      that resolves it is for its own hash and names the block that holds its transaction. */
  lemma {:induction false} SettledForGood(run: seq<Protocol>, steps: seq<Step>, limit: nat, i: nat, j: nat, t: Ticket)
    requires IsRun(run, steps, limit) && i <= j < |run| && t in run[i].registry.settled
    ensures t in run[j].registry.settled && run[j].registry.settled[t] == run[i].registry.settled[t]
    ensures t < |run[j].registry.registered| && OwnReceipt(run[j], t)
    decreases j - i
  {
    RunKeepsProtocol(run, steps, limit, j);
    hide RegistryOk, QueueOk, OwnReceipts, OwnReceipt, IsRun;
    if i < j {
      SettledForGood(run, steps, limit, i, j - 1, t);
      RunKeepsSettled(run, steps, limit, j);
    }
    SettledIsRegistered(run[j].registry, t);
    OwnReceiptOf(run[j], t);
  }

  /** In every run, the timer of a registration rejects that registration and no other. */
  lemma TimerSettlesItsOwn(run: seq<Protocol>, steps: seq<Step>, limit: nat, i: nat)
    requires IsRun(run, steps, limit) && i < |steps| && steps[i].TimerFired?
    ensures var t := steps[i].ticket;
            t !in run[i].registry.settled && run[i + 1].registry.settled == run[i].registry.settled[t := RejectedWith(TimedOut)]
  {
    RunKeepsProtocol(run, steps, limit, i);
    TimerRejectsItsOwn(run[i].registry, steps[i].ticket);
    hide RegistryOk, QueueOk, OwnReceipts;
  }

  /** What a step puts into the queue. */
  ghost function Enters(s: Protocol, step: Step): seq<Item> {
    match step
    case Submit(item) => if Dispatch(s.registry, s.queue, item).accepted then [item] else []
    case LegacySubmit(item) => if CanAdd(s.queue, item.txHash).None? then [item] else []
    case _ => []
  }

  /** What it takes out, other than by dropping it. */
  ghost function Takes(s: Protocol, step: Step): seq<Item> {
    if step.TakeBatch? then Batch(s.queue) else []
  }

  /** What has entered the queue since the last stop, in order. */
  ghost function Entered(run: seq<Protocol>, steps: seq<Step>, i: nat): seq<Item>
    requires i <= |steps| <= |run|
  {
    if i == 0 || steps[i - 1].StopPool? then []
    else Entered(run, steps, i - 1) + Enters(run[i - 1], steps[i - 1])
  }

  /** What batches have taken since the last stop, one after the other. */
  ghost function Taken(run: seq<Protocol>, steps: seq<Step>, i: nat): seq<Item>
    requires i <= |steps| <= |run|
  {
    if i == 0 || steps[i - 1].StopPool? then []
    else Taken(run, steps, i - 1) + Takes(run[i - 1], steps[i - 1])
  }

  lemma StepKeepsOrder(s: Protocol, step: Step)
    requires Enabled(s, step) && !step.StopPool?
    ensures s.queue.items + Enters(s, step) == Takes(s, step) + Next(s, step).queue.items
  {
  }

  lemma Regroup(taken: seq<Item>, queued: seq<Item>, entering: seq<Item>, leaving: seq<Item>, left: seq<Item>)
    requires queued + entering == leaving + left
    ensures (taken + queued) + entering == (taken + leaving) + left
  {
    assert (taken + queued) + entering == taken + (queued + entering);
    assert (taken + leaving) + left == taken + (leaving + left);
  }

  /** First in, first out over every run: what was taken, then what is queued, is what entered. */
  lemma {:induction false} FirstInFirstOut(run: seq<Protocol>, steps: seq<Step>, limit: nat, i: nat)
    requires IsRun(run, steps, limit) && i <= |steps|
    ensures Entered(run, steps, i) == Taken(run, steps, i) + run[i].queue.items
  {
    if i > 0 {
      var s, step := run[i - 1], steps[i - 1];
      assert run[i] == Next(s, step);
      if !step.StopPool? {
        FirstInFirstOut(run, steps, limit, i - 1);
        StepKeepsOrder(s, step);
        hide Next, Enters, Takes, IsRun;
        var entered, taken := Entered(run, steps, i - 1), Taken(run, steps, i - 1);
        assert Entered(run, steps, i) == entered + Enters(s, step) && Taken(run, steps, i) == taken + Takes(s, step);
        hide Entered, Taken;
        Regroup(taken, s.queue.items, Enters(s, step), Takes(s, step), run[i].queue.items);
      }
    }
  }
}
