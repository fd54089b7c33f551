/**
 Registrations of transactions that wait for their receipt. A registration is a promise: it
 gets a ticket, and is settled by a receipt, an error, its timer or the shutdown.
 */
module Commits {
  import opened Bytes

  type TxHash = string
  type Ticket = nat

  const TRANSACTION_COMMIT_SERVICE_BUFFER_SIZE: nat := 1500

  datatype Receipt = Receipt(txHash: TxHash, completeTx: seq<byte>, proof: Option<seq<byte>>, blockNumber: nat)

  datatype Failure = MissingReceipt | ProofUnavailable | AppendFailed | TimedOut | Cancelled | NotEnqueued

  datatype Settlement = Resolved(receipt: Receipt) | RejectedWith(failure: Failure)

  datatype Refusal = InvalidTxHash | BufferFull | AlreadyExists

  predicate IsHexDigit(c: char) {
    '0' <= c <= '9' || 'a' <= c <= 'f' || 'A' <= c <= 'F'
  }

  predicate IsTxHash(h: TxHash) {
    |h| == 64 && forall i :: 0 <= i < |h| ==> IsHexDigit(h[i])
  }

  /** The registry: what waits under each hash, the timers that run, every hash ever registered
      (ticket by ticket), and how tickets were settled. */
  datatype Registry = Registry(
    pending: map<TxHash, Ticket>,
    timers: set<Ticket>,
    registered: seq<TxHash>,
    settled: map<Ticket, Settlement>)

  const EMPTY: Registry := Registry(map[], {}, [], map[])

  function CanRegister(r: Registry, h: TxHash): Option<Refusal> {
    if !IsTxHash(h) then Some(InvalidTxHash)
    else if |r.pending| >= TRANSACTION_COMMIT_SERVICE_BUFFER_SIZE then Some(BufferFull)
    else if h in r.pending then Some(AlreadyExists)
    else None
  }

  function Register(r: Registry, h: TxHash): Registry {
    var ticket := |r.registered|;
    r.(pending := r.pending[h := ticket], timers := r.timers + {ticket}, registered := r.registered + [h])
  }

  /** Settles what waits under a hash, if anything does, and stops its timer. */
  function Settle(r: Registry, h: TxHash, outcome: Settlement): Registry {
    if h !in r.pending then r
    else r.(pending := r.pending - {h}, timers := r.timers - {r.pending[h]}, settled := r.settled[r.pending[h] := outcome])
  }

  function TicketsOf(pending: map<TxHash, Ticket>, hashes: set<TxHash>): set<Ticket> {
    set h | h in hashes && h in pending :: pending[h]
  }

  function Cancellations(tickets: set<Ticket>): map<Ticket, Settlement> {
    map t | t in tickets :: RejectedWith(Cancelled)
  }

  /** Shutdown settles everything that waits. */
  function CloseAll(r: Registry): Registry {
    var tickets := TicketsOf(r.pending, r.pending.Keys);
    r.(pending := map[], timers := r.timers - tickets, settled := r.settled + Cancellations(tickets))
  }

  ghost predicate Waits(r: Registry, t: Ticket)
    requires t < |r.registered|
  {
    r.registered[t] in r.pending && r.pending[r.registered[t]] == t
  }

  /** A ticket is pending or settled, never both, and its timer runs exactly while it is pending. */
  ghost predicate TicketOk(r: Registry, t: Ticket)
    requires t < |r.registered|
  {
    && IsTxHash(r.registered[t])
    && (t in r.settled <==> !Waits(r, t))
    && (t in r.timers <==> Waits(r, t))
  }

  /** Each hash waits for the ticket it was registered with; the buffer is not overfull. */
  ghost predicate RegistryOk(r: Registry) {
    && |r.pending| <= TRANSACTION_COMMIT_SERVICE_BUFFER_SIZE
    && (forall h {:trigger r.pending[h]} :: h in r.pending ==> r.pending[h] < |r.registered| && r.registered[r.pending[h]] == h)
    && (forall t {:trigger t in r.settled} :: t in r.settled ==> t < |r.registered|)
    && (forall t {:trigger t in r.timers} :: t in r.timers ==> t < |r.registered|)
    && (forall t: Ticket {:trigger TicketOk(r, t)} :: t < |r.registered| ==> TicketOk(r, t))
  }

  /** What is settled stays settled in the same way. */
  ghost predicate KeepsSettled(r: Registry, r': Registry) {
    && r.registered <= r'.registered
    && forall t {:trigger t in r'.settled} :: t in r.settled ==> t in r'.settled && r'.settled[t] == r.settled[t]
  }

  lemma RegisterKeeps(r: Registry, h: TxHash)
    requires RegistryOk(r) && CanRegister(r, h).None?
    ensures RegistryOk(Register(r, h)) && KeepsSettled(r, Register(r, h))
  {
    hide IsTxHash, TicketOk;
    NewTicket(r, h);
    GrowsByOne(r.pending, h, |r.registered|);
  }

  lemma GrowsByOne(m: map<TxHash, Ticket>, h: TxHash, t: Ticket)
    requires h !in m
    ensures |m[h := t]| == |m| + 1
  {
    assert m[h := t].Keys == m.Keys + {h};
  }

  lemma NewTicket(r: Registry, h: TxHash)
    requires RegistryOk(r) && CanRegister(r, h).None?
    ensures forall t: Ticket {:trigger TicketOk(Register(r, h), t)} :: t < |r.registered| + 1 ==> TicketOk(Register(r, h), t)
  {
    hide IsTxHash;
    var r' := Register(r, h);
    forall t: Ticket | t < |r'.registered| ensures TicketOk(r', t) {
      if t < |r.registered| { assert TicketOk(r, t); }
    }
  }

  lemma SettleKeeps(r: Registry, h: TxHash, outcome: Settlement)
    requires RegistryOk(r)
    ensures RegistryOk(Settle(r, h, outcome)) && KeepsSettled(r, Settle(r, h, outcome))
  {
    hide IsTxHash;
    var r' := Settle(r, h, outcome);
    if h in r.pending {
      assert TicketOk(r, r.pending[h]);
      assert r'.pending.Keys == r.pending.Keys - {h};
      forall t: Ticket | t < |r'.registered| ensures TicketOk(r', t) {
        assert TicketOk(r, t);
      }
    }
  }

  /** The pending tickets are those that still wait. */
  lemma PendingTickets(r: Registry, t: Ticket)
    requires RegistryOk(r) && t < |r.registered|
    ensures var tickets := TicketsOf(r.pending, r.pending.Keys);
            (t in tickets <==> Waits(r, t)) && (t in r.settled <==> t !in tickets) && (t in r.timers <==> t in tickets)
  {
    hide IsTxHash;
    assert TicketOk(r, t);
  }

  lemma CloseSettles(r: Registry, t: Ticket)
    requires RegistryOk(r) && t < |r.registered|
    ensures TicketOk(CloseAll(r), t) && t in CloseAll(r).settled
    ensures t in r.settled ==> CloseAll(r).settled[t] == r.settled[t]
  {
    assert TicketOk(r, t);
    PendingTickets(r, t);
    hide RegistryOk, IsTxHash, TicketsOf;
  }

  lemma CloseKeeps(r: Registry)
    requires RegistryOk(r)
    ensures RegistryOk(CloseAll(r)) && KeepsSettled(r, CloseAll(r))
    ensures forall t: Ticket {:trigger t in CloseAll(r).settled} :: t < |r.registered| ==> t in CloseAll(r).settled
  {
    hide TicketOk, IsTxHash, TicketsOf;
    var r' := CloseAll(r);
    forall t: Ticket | t < |r.registered|
      ensures TicketOk(r', t) && t in r'.settled && (t in r.settled ==> r'.settled[t] == r.settled[t]) {
      CloseSettles(r, t);
    }
    forall t | t in TicketsOf(r.pending, r.pending.Keys) ensures t < |r.registered| { PendingIsRegistered(r, t); }
  }

  lemma PendingIsRegistered(r: Registry, t: Ticket)
    requires RegistryOk(r) && t in TicketsOf(r.pending, r.pending.Keys)
    ensures t < |r.registered|
  {
  }

  /** Each registration is settled at most once, and by then its timer has stopped. */
  lemma SettlesOnce(r: Registry, h: TxHash, outcome: Settlement)
    requires RegistryOk(r) && h in r.pending
    ensures var t := r.pending[h]; t !in r.settled && t in r.timers
    ensures var t, r' := r.pending[h], Settle(r, h, outcome);
            t in r'.settled && r'.settled[t] == outcome && t !in r'.timers && r'.registered[t] == h
  {
    assert TicketOk(r, r.pending[h]);
  }

  /** A running timer belongs to a registration that waits, so that registration is the one rejected. */
  lemma TimerRejectsItsOwn(r: Registry, t: Ticket)
    requires RegistryOk(r) && t in r.timers
    ensures t < |r.registered| && r.registered[t] in r.pending && r.pending[r.registered[t]] == t
    ensures t !in r.settled
    ensures Settle(r, r.registered[t], RejectedWith(TimedOut)).settled == r.settled[t := RejectedWith(TimedOut)]
  {
    assert TicketOk(r, t);
  }

  lemma PendingIsWellFormed(r: Registry, h: TxHash)
    requires RegistryOk(r)
    ensures h in r.pending ==> IsTxHash(h)
  {
    if h in r.pending { assert TicketOk(r, r.pending[h]); }
  }

  // ---------- the service ----------

  class TransactionCommitService {
    var pendingCommits: map<TxHash, Ticket>
    var timers: set<Ticket>
    ghost var registered: seq<TxHash>
    ghost var settled: map<Ticket, Settlement>
    var nextTicket: Ticket

    ghost function State(): Registry
      reads this
    {
      Registry(pendingCommits, timers, registered, settled)
    }

    ghost predicate Valid()
      reads this
    {
      RegistryOk(State()) && nextTicket == |registered|
    }

    constructor ()
      ensures Valid() && State() == EMPTY
    {
      pendingCommits := map[];
      timers := {};
      registered := [];
      settled := map[];
      nextTicket := 0;
    }

    method RegisterPendingCommit(txHash: TxHash) returns (refusal: Option<Refusal>, ticket: Ticket)
      requires Valid()
      modifies this
      ensures Valid() && refusal == CanRegister(old(State()), txHash)
      ensures State() == if refusal.None? then Register(old(State()), txHash) else old(State())
      ensures refusal.None? ==> ticket == |old(registered)|
    {
      ticket := nextTicket;
      if !IsTxHash(txHash) { return Some(InvalidTxHash), ticket; }
      if |pendingCommits| >= TRANSACTION_COMMIT_SERVICE_BUFFER_SIZE { return Some(BufferFull), ticket; }
      if txHash in pendingCommits { return Some(AlreadyExists), ticket; }
      RegisterKeeps(State(), txHash);
      timers := timers + {ticket};
      pendingCommits := pendingCommits[txHash := ticket];
      registered := registered + [txHash];
      nextTicket := nextTicket + 1;
      refusal := None;
    }

    /** Resolves or rejects; false when nothing waits under the hash. A malformed hash is refused, and
        since none is ever registered nothing changes then. */
    method SettlePendingCommit(txHash: TxHash, outcome: Settlement) returns (refusal: Option<Refusal>, done: bool)
      requires Valid()
      modifies this
      ensures Valid() && State() == Settle(old(State()), txHash, outcome)
      ensures refusal == if IsTxHash(txHash) then None else Some(InvalidTxHash)
      ensures done <==> txHash in old(pendingCommits)
      ensures refusal.Some? ==> State() == old(State())
    {
      PendingIsWellFormed(State(), txHash);
      if !IsTxHash(txHash) { return Some(InvalidTxHash), false; }
      refusal := None;
      SettleKeeps(State(), txHash, outcome);
      if txHash !in pendingCommits { return refusal, false; }
      var ticket := pendingCommits[txHash];
      timers := timers - {ticket};
      pendingCommits := pendingCommits - {txHash};
      settled := settled[ticket := outcome];
      done := true;
    }

    /** A timer that still runs rejects the registration it was started for, and no other. */
    method TimerFires(ticket: Ticket)
      requires Valid() && ticket in timers
      modifies this
      ensures Valid() && State() == Settle(old(State()), old(registered[ticket]), RejectedWith(TimedOut))
      ensures ticket !in old(settled) && settled == old(settled)[ticket := RejectedWith(TimedOut)]
    {
      TimerRejectsItsOwn(State(), ticket);
      var hash: TxHash :| hash in pendingCommits && pendingCommits[hash] == ticket;
      assert registered[ticket] == hash;
      var refusal, done := SettlePendingCommit(hash, RejectedWith(TimedOut));
    }

    method Close()
      requires Valid()
      modifies this
      ensures Valid() && State() == CloseAll(old(State()))
    {
      CloseKeeps(State());
      RejectAll();
      pendingCommits := map[];
    }

    /** Stops every timer and rejects every registration that waits. */
    method RejectAll()
      requires RegistryOk(State())
      modifies this`timers, this`settled
      ensures timers == CloseAll(old(State())).timers && settled == CloseAll(old(State())).settled
    {
      hide RegistryOk;
      ghost var r := State();
      var left := pendingCommits.Keys;
      assert left - left == {};
      NothingYet(r);
      hide TicketsOf, Cancellations;
      while left != {}
        invariant left <= r.pending.Keys
        invariant timers == r.timers - TicketsOf(r.pending, r.pending.Keys - left)
        invariant settled == r.settled + Cancellations(TicketsOf(r.pending, r.pending.Keys - left))
        decreases |left|
      {
        var txHash :| txHash in left;
        OneMore(r, r.pending.Keys - left, txHash);
        assert r.pending.Keys - (left - {txHash}) == r.pending.Keys - left + {txHash};
        left := left - {txHash};
        timers := timers - {pendingCommits[txHash]};
        settled := settled[pendingCommits[txHash] := RejectedWith(Cancelled)];
      }
      assert r.pending.Keys - left == r.pending.Keys;
    }
  }

  lemma NothingYet(r: Registry)
    ensures TicketsOf(r.pending, {}) == {} && r.settled + Cancellations({}) == r.settled && r.timers - {} == r.timers
  {
  }

  lemma OneMore(r: Registry, hashes: set<TxHash>, h: TxHash)
    requires h in r.pending
    ensures r.timers - TicketsOf(r.pending, hashes + {h}) == r.timers - TicketsOf(r.pending, hashes) - {r.pending[h]}
    ensures r.settled + Cancellations(TicketsOf(r.pending, hashes + {h}))
         == (r.settled + Cancellations(TicketsOf(r.pending, hashes)))[r.pending[h] := RejectedWith(Cancelled)]
  {
    assert TicketsOf(r.pending, hashes + {h}) == TicketsOf(r.pending, hashes) + {r.pending[h]};
  }
}
