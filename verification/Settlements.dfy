/**
 What becomes of a registration: the exact outcome of every step of the pool's protocol, and the exact
 conditions under which a transaction is taken in.
 */
module Settlements {
  import opened Bytes
  import opened Commits
  import opened Pool

  /** The registration under a hash waits as before. */
  ghost predicate StillWaits(r: Registry, r': Registry, h: TxHash) {
    && (h in r.pending <==> h in r'.pending)
    && (h in r.pending ==> r'.pending[h] == r.pending[h] && (r.pending[h] in r'.timers <==> r.pending[h] in r.timers))
  }

  lemma OneSettled(r: Registry, h: TxHash, outcome: Settlement, g: TxHash)
    requires RegistryOk(r)
    ensures var r' := Settle(r, h, outcome);
            && (g != h ==> StillWaits(r, r', g))
            && h !in r'.pending
            && (h in r.pending ==> r.pending[h] in r'.settled && r'.settled[r.pending[h]] == outcome && r.pending[h] !in r'.timers)
  {
    hide TicketOk;
  }

  ghost predicate DistinctReceipts(receipts: seq<Receipt>) {
    forall i, j {:trigger receipts[i], receipts[j]} :: 0 <= i < j < |receipts| ==> receipts[i].txHash != receipts[j].txHash
  }

  lemma {:induction false} ReceiptsKeepOthers(r: Registry, receipts: seq<Receipt>, h: TxHash)
    requires RegistryOk(r) && forall i {:trigger receipts[i]} :: 0 <= i < |receipts| ==> receipts[i].txHash != h
    ensures var r' := SettleReceipts(r, receipts); RegistryOk(r') && StillWaits(r, r', h)
  {
    hide RegistryOk, Settle;
    if receipts != [] {
      var before, last := receipts[..|receipts| - 1], receipts[|receipts| - 1];
      ReceiptsKeepOthers(r, before, h);
      OneSettled(SettleReceipts(r, before), last.txHash, Verdict(last), h);
      SettleKeeps(SettleReceipts(r, before), last.txHash, Verdict(last));
    }
  }

  /** Receipt i settles what waits under its hash. */
  lemma {:induction false} ReceiptSettles(r: Registry, receipts: seq<Receipt>, i: nat)
    requires RegistryOk(r) && DistinctReceipts(receipts) && i < |receipts| && receipts[i].txHash in r.pending
    ensures var t, r' := r.pending[receipts[i].txHash], SettleReceipts(r, receipts);
            && RegistryOk(r') && receipts[i].txHash !in r'.pending && t !in r'.timers && t in r'.settled
            && r'.settled[t] == if receipts[i].proof.Some? then Resolved(receipts[i]) else RejectedWith(ProofUnavailable)
  {
    hide RegistryOk, Settle, StillWaits;
    var before, last := receipts[..|receipts| - 1], receipts[|receipts| - 1];
    if i < |before| {
      ReceiptSettles(r, before, i);
      var m := SettleReceipts(r, before);
      SettleKeeps(m, last.txHash, Verdict(last));
      SettledStays(m, last.txHash, Verdict(last), r.pending[receipts[i].txHash], receipts[i].txHash);
    } else {
      ReceiptsKeepOthers(r, before, last.txHash);
      WaitsOn(r, SettleReceipts(r, before), last.txHash);
      OneSettled(SettleReceipts(r, before), last.txHash, Verdict(last), "");
      SettleKeeps(SettleReceipts(r, before), last.txHash, Verdict(last));
    }
  }

  lemma WaitsOn(r: Registry, r': Registry, h: TxHash)
    requires StillWaits(r, r', h) && h in r.pending
    ensures h in r'.pending && r'.pending[h] == r.pending[h]
  {
  }

  lemma SettledStays(r: Registry, h: TxHash, outcome: Settlement, t: Ticket, g: TxHash)
    requires RegistryOk(r) && t in r.settled && t !in r.timers && g !in r.pending && g != h
    ensures var r' := Settle(r, h, outcome); t in r'.settled && r'.settled[t] == r.settled[t] && t !in r'.timers && g !in r'.pending
  {
    SettleKeeps(r, h, outcome);
    hide RegistryOk;
  }

  lemma {:induction false} FailureKeepsOthers(r: Registry, batch: seq<Item>, h: TxHash)
    requires RegistryOk(r) && forall i {:trigger batch[i]} :: 0 <= i < |batch| ==> batch[i].txHash != h
    ensures var r' := SettleFailed(r, batch); RegistryOk(r') && StillWaits(r, r', h)
  {
    hide RegistryOk, Settle;
    if batch != [] {
      var before, last := batch[..|batch| - 1], batch[|batch| - 1];
      FailureKeepsOthers(r, before, h);
      OneSettled(SettleFailed(r, before), last.txHash, RejectedWith(AppendFailed), h);
      SettleKeeps(SettleFailed(r, before), last.txHash, RejectedWith(AppendFailed));
    }
  }

  lemma {:induction false} FailureSettles(r: Registry, batch: seq<Item>, i: nat)
    requires RegistryOk(r) && Distinct(batch) && i < |batch| && batch[i].txHash in r.pending
    ensures var t, r' := r.pending[batch[i].txHash], SettleFailed(r, batch);
            && RegistryOk(r') && batch[i].txHash !in r'.pending && t !in r'.timers && t in r'.settled
            && r'.settled[t] == RejectedWith(AppendFailed)
  {
    hide RegistryOk, Settle, StillWaits;
    var before, last := batch[..|batch| - 1], batch[|batch| - 1];
    if i < |before| {
      FailureSettles(r, before, i);
      var m := SettleFailed(r, before);
      SettleKeeps(m, last.txHash, RejectedWith(AppendFailed));
      SettledStays(m, last.txHash, RejectedWith(AppendFailed), r.pending[batch[i].txHash], batch[i].txHash);
    } else {
      FailureKeepsOthers(r, before, last.txHash);
      WaitsOn(r, SettleFailed(r, before), last.txHash);
      OneSettled(SettleFailed(r, before), last.txHash, RejectedWith(AppendFailed), "");
      SettleKeeps(SettleFailed(r, before), last.txHash, RejectedWith(AppendFailed));
    }
  }

  // ---------- over runs ----------

  /** In every run, an append settles whoever waits for transaction i of its batch: with the receipt that
      carries its proof and names its block, or, when there is no proof, with that failure. */
  lemma AppendSettles(run: seq<Protocol>, steps: seq<Step>, limit: nat, j: nat, i: nat)
    requires IsRun(run, steps, limit) && j < |steps| && steps[j].Appended? && i < |run[j].inflight[steps[j].batch]|
    ensures var s, s', step := run[j], run[j + 1], steps[j];
            var item := s.inflight[step.batch][i];
            && |s.log| + i < |s'.log| && s'.log[|s.log| + i] == item
            && item.txHash !in s'.registry.pending
            && (item.txHash in s.registry.pending ==>
                  var t := s.registry.pending[item.txHash];
                  && t in s'.registry.settled && t !in s'.registry.timers
                  && s'.registry.settled[t]
                     == match step.proofs[i]
                        case Some(proof) => Resolved(Receipt(item.txHash, item.encodedTx, Some(proof), |s.log| + i))
                        case None => RejectedWith(ProofUnavailable))
  {
    RunKeepsProtocol(run, steps, limit, j);
    assert run[j + 1] == Next(run[j], steps[j]);
    BatchOfRun(run[j], steps[j].batch);
    hide RegistryOk, IsRun, ProtocolOk, Next;
    AppendedSettles(run[j], steps[j].batch, steps[j].proofs, i);
  }

  lemma AppendedSettles(s: Protocol, k: nat, proofs: seq<Option<seq<byte>>>, i: nat)
    requires Enabled(s, Appended(k, proofs)) && i < |s.inflight[k]| && RegistryOk(s.registry) && Distinct(s.inflight[k])
    ensures var s', item := Next(s, Appended(k, proofs)), s.inflight[k][i];
            && |s.log| + i < |s'.log| && s'.log[|s.log| + i] == item
            && item.txHash !in s'.registry.pending
            && (item.txHash in s.registry.pending ==>
                  var t := s.registry.pending[item.txHash];
                  && t in s'.registry.settled && t !in s'.registry.timers
                  && s'.registry.settled[t]
                     == match proofs[i]
                        case Some(proof) => Resolved(Receipt(item.txHash, item.encodedTx, Some(proof), |s.log| + i))
                        case None => RejectedWith(ProofUnavailable))
  {
    var batch := s.inflight[k];
    var receipts := Receipts(batch, proofs, |s.log|);
    hide RegistryOk;
    assert DistinctReceipts(receipts);
    hide DistinctReceipts, Distinct, SettleReceipts;
    if batch[i].txHash in s.registry.pending {
      ReceiptSettles(s.registry, receipts, i);
    } else {
      NeverWaits(s.registry, receipts, batch[i].txHash);
    }
  }

  lemma BatchOfRun(s: Protocol, k: nat)
    requires ProtocolOk(s) && k < |s.inflight|
    ensures RegistryOk(s.registry) && Distinct(s.inflight[k])
  {
  }

  lemma {:induction false} NeverWaits(r: Registry, receipts: seq<Receipt>, h: TxHash)
    requires h !in r.pending
    ensures h !in SettleReceipts(r, receipts).pending
  {
    if receipts != [] { NeverWaits(r, receipts[..|receipts| - 1], h); }
  }

  lemma {:induction false} NeverWaitsFailed(r: Registry, batch: seq<Item>, h: TxHash)
    requires h !in r.pending
    ensures h !in SettleFailed(r, batch).pending
  {
    if batch != [] { NeverWaitsFailed(r, batch[..|batch| - 1], h); }
  }

  /** An append that threw rejects whoever waits for a transaction of its batch. */
  lemma ThrowSettles(run: seq<Protocol>, steps: seq<Step>, limit: nat, j: nat, i: nat)
    requires IsRun(run, steps, limit) && j < |steps| && steps[j].AppendThrew? && i < |run[j].inflight[steps[j].batch]|
    ensures var s, s' := run[j], run[j + 1];
            var h := s.inflight[steps[j].batch][i].txHash;
            && s'.log == s.log && h !in s'.registry.pending
            && (h in s.registry.pending ==>
                  var t := s.registry.pending[h];
                  t in s'.registry.settled && t !in s'.registry.timers && s'.registry.settled[t] == RejectedWith(AppendFailed))
  {
    RunKeepsProtocol(run, steps, limit, j);
    var s, step := run[j], steps[j];
    assert run[j + 1] == Next(s, step);
    var batch := s.inflight[step.batch];
    BatchOfRun(s, step.batch);
    hide RegistryOk, QueueOk, OwnReceipts, IsRun, ProtocolOk, Distinct;
    if batch[i].txHash in s.registry.pending {
      FailureSettles(s.registry, batch, i);
    } else {
      NeverWaitsFailed(s.registry, batch, batch[i].txHash);
    }
  }

  /** Whoever waits under a hash that is not in the batch goes on waiting. */
  lemma OthersWait(run: seq<Protocol>, steps: seq<Step>, limit: nat, j: nat, h: TxHash)
    requires IsRun(run, steps, limit) && j < |steps| && (steps[j].Appended? || steps[j].AppendThrew?)
    requires h !in Hashes(run[j].inflight[steps[j].batch])
    ensures StillWaits(run[j].registry, run[j + 1].registry, h)
  {
    RunKeepsProtocol(run, steps, limit, j);
    var s, step := run[j], steps[j];
    assert run[j + 1] == Next(s, step);
    var batch := s.inflight[step.batch];
    BatchOfRun(s, step.batch);
    assert forall i {:trigger batch[i]} :: 0 <= i < |batch| ==> batch[i].txHash in Hashes(batch);
    hide RegistryOk, QueueOk, OwnReceipts, IsRun, ProtocolOk, Distinct, StillWaits, Hashes;
    if step.Appended? {
      ReceiptsKeepOthers(s.registry, Receipts(batch, step.proofs, |s.log|), h);
    } else {
      FailureKeepsOthers(s.registry, batch, h);
    }
  }

  // ---------- taking in ----------

  /** A submission is accepted exactly when its hash is one, not too many wait, none waits under it, there is
      room in the queue and it is not queued; then a new ticket waits, with its timer, and the transaction is
      last in the queue. */
  lemma AcceptedExactly(r: Registry, q: Queue, item: Item)
    requires RegistryOk(r) && QueueOk(q)
    ensures var d, h := Dispatch(r, q, item), item.txHash;
            && (d.accepted <==>
                  && |h| == 64 && (forall i {:trigger h[i]} :: 0 <= i < 64 ==> h[i] in "0123456789abcdefABCDEF")
                  && |r.pending| < 1500 && h !in r.pending
                  && |q.items| < q.limit && (forall i {:trigger q.items[i]} :: 0 <= i < |q.items| ==> q.items[i].txHash != h))
            && (d.accepted ==>
                  && d.queue.items == q.items + [item] && d.queue.hashes == q.hashes + {h} && d.queue.limit == q.limit
                  && d.registry.pending == r.pending[h := |r.registered|] && d.registry.registered == r.registered + [h]
                  && d.registry.timers == r.timers + {|r.registered|} && d.registry.settled == r.settled)
  {
    var h := item.txHash;
    HexDigits();
    HashesOf(q.items, h);
    hide RegistryOk, Hashes, Distinct, IsHexDigit;
  }

  /** The legacy protocol registers nothing: it is taken in whenever there is room, it has a hash, and the hash
      is not queued. */
  lemma LegacyExactly(s: Protocol, item: Item)
    requires QueueOk(s.queue) && Enabled(s, LegacySubmit(item))
    ensures var q, s' := s.queue, Next(s, LegacySubmit(item));
            var taken := |q.items| < q.limit && item.txHash != ""
                         && forall i {:trigger q.items[i]} :: 0 <= i < |q.items| ==> q.items[i].txHash != item.txHash;
            && s'.queue.items == (if taken then q.items + [item] else q.items) && s'.queue.limit == q.limit
            && s' == s.(queue := s'.queue)
  {
    HashesOf(s.queue.items, item.txHash);
    hide Hashes, Distinct, IsTxHash;
  }

  lemma HexDigits()
    ensures forall c {:trigger IsHexDigit(c)} :: IsHexDigit(c) <==> c in "0123456789abcdefABCDEF"
  {
    var digits := "0123456789abcdefABCDEF";
    forall c ensures IsHexDigit(c) <==> c in digits {
      if IsHexDigit(c) { HexDigitAt(c); }
    }
  }

  lemma HexDigitAt(c: char)
    requires IsHexDigit(c)
    ensures c in "0123456789abcdefABCDEF"
  {
    var digits := "0123456789abcdefABCDEF";
    var k := if c <= '9' then c as int - '0' as int
             else if c <= 'F' then 16 + c as int - 'A' as int
             else 10 + c as int - 'a' as int;
    assert digits[k] == c;
  }

  lemma HashesOf(items: seq<Item>, h: TxHash)
    ensures h !in Hashes(items) <==> forall i {:trigger items[i]} :: 0 <= i < |items| ==> items[i].txHash != h
  {
  }

  /** When the queue refuses, the new registration is settled with that refusal, and nothing else is. */
  lemma RefusedByQueue(r: Registry, q: Queue, item: Item)
    requires RegistryOk(r) && CanRegister(r, item.txHash).None? && CanAdd(q, item.txHash).Some?
    ensures var r' := Dispatch(r, q, item).registry;
            r'.settled == r.settled[|r.registered| := RejectedWith(NotEnqueued)] && r'.registered == r.registered + [item.txHash]
  {
    hide RegistryOk;
  }

  /** A batch is the whole queue up to ten transactions, and ten of a longer one. */
  lemma BatchIsFull(q: Queue)
    ensures |Batch(q)| == if |q.items| < 10 then |q.items| else 10
  {
  }

  /** Shutting down cancels exactly what waits. */
  lemma CloseCancels(r: Registry, t: Ticket)
    requires RegistryOk(r) && t < |r.registered|
    ensures var r' := CloseAll(r);
            && r'.pending == map[] && t !in r'.timers
            && t in r'.settled && r'.settled[t] == if t in r.settled then r.settled[t] else RejectedWith(Cancelled)
  {
    PendingTickets(r, t);
    CloseSettles(r, t);
    hide RegistryOk, TicketOk, TicketsOf;
  }
}
