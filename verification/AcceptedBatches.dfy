/**
 Batches of operations that a validator accepted, each on a state of its own. By the time an
 operation is applied the ledger has moved on, and it succeeds, is ignored or fails.
 */
module AcceptedBatches {
  import opened Bytes
  import opened Records
  import opened Ledger
  import opened Dispatch
  import opened Invariant
  import opened History
  import opened Conservation
  import opened Supply
  import opened PreCheck

  /** Accepted on a state by a validator that can complete it. */
  ghost predicate AcceptedOn(env: Env, s: Ledger, from: Key, op: Op, seal: Completion) {
    op.ByValidator() && CanComplete(env, s, from, op, seal) && Validate(env, s, s, seal.va, op).Accepted?
  }

  /** A ledger that has grown out of the one the operation was accepted on; the validator still writes. */
  ghost predicate Later(env: Env, s: Ledger, t: Ledger, from: Key) {
    SameState(env, s) && SameState(env, t) && Extends(s, t) && from in t.base
  }

  /** The guard that a role operation fails on once ledgers have moved on. */
  ghost predicate RoleClash(t: Ledger, op: Op)
    requires op.RoleAccess?
  {
    match op.access
    case WriterAddition =>
      op.tx !in t.txs && op.address in t.nodes
      && var e := t.nodes[op.address];
         || (op.iw in t.writerKeys && (e.wk != op.iw || t.writerKeys[op.iw] != op.address))
         || !e.role.Whitelisted?
         || FEE <= e.balance < 11 * FEE
    case WriterRemoval =>
      op.tx !in t.txs && op.address in t.nodes
      && (!t.nodes[op.address].role.Writer? || t.nodes[op.address].wk != op.iw)
    case Recovery => op.iw in t.writerKeys || op.tx in t.txs
  }

  /** The indexers have changed since, or a role operation meets another role, key or balance. */
  ghost predicate Clashes(env: Env, t: Ledger, op: Op) {
    op.txv != env.sequenceState(Indexers(t.base)) || (op.RoleAccess? && RoleClash(t, op))
  }

  // ---------- one accepted operation on a later ledger ----------

  lemma ValidatorStays(env: Env, s: Ledger, t: Ledger, from: Key, va: Address)
    requires Later(env, s, t, from) && ActiveValidator(s, from, va)
    ensures ActiveValidator(t, from, va)
  {
    assert EntryOk(env, s, va) && MemberOk(t, from);
  }

  /** The guards depend on the ledger through the indexers only. */
  lemma StillCalls(env: Env, s: Ledger, t: Ledger, from: Key, op: Op, seal: Completion)
    requires Later(env, s, t, from) && AcceptedOn(env, s, from, op, seal)
    ensures ValidatorCall(env, t, from, Completed(op, seal)) <==> op.txv == env.sequenceState(Indexers(t.base))
    ensures op.address != seal.va && op.address in s.nodes && op.address in t.nodes
  {
    hide Running, Extends;
    RequesterStays(env, s, t, from, op, seal);
    CommonAgrees(env, s, from, op, seal);
    ValidatorStays(env, s, t, from, seal.va);
    hide Authentic, Countersigned, CanComplete, CommonChecks;
  }

  lemma RequesterStays(env: Env, s: Ledger, t: Ledger, from: Key, op: Op, seal: Completion)
    requires Extends(s, t) && SameState(env, s) && AcceptedOn(env, s, from, op, seal)
    ensures op.address != seal.va && op.address in s.nodes && op.address in t.nodes
    ensures op.SubnetTx? ==> op.mbs == env.bootstrap
  {
    hide CanComplete, SameState;
  }

  /** What acceptance says of operations that move money, beyond the shared guards. */
  ghost predicate MoneyFacts(env: Env, t: Ledger, op: Op) {
    && (op.Transfer? ==> AddressValid(env, op.to) && (if op.to == op.address then FEE else op.am + FEE) < AMOUNT_LIMIT)
    && (op.BootstrapDeployment? ==> op.bs != env.bootstrap)
    && (op.SubnetTx? ==> op.mbs == env.bootstrap && op.bs != env.bootstrap && op.bs in t.deployments)
  }

  lemma MoneyFactsHold(env: Env, s: Ledger, from: Key, op: Op, seal: Completion)
    requires SameState(env, s) && AcceptedOn(env, s, from, op, seal)
    ensures MoneyFacts(env, s, op)
  {
    BalanceBound(env, s, op.address);
    hide CanComplete, SameState, CommonChecks;
  }

  lemma MoneyFactsStay(env: Env, s: Ledger, t: Ledger, op: Op, seal: Completion)
    requires Extends(s, t) && MoneyFacts(env, s, op) && op.ByValidator()
    ensures MoneyFacts(env, t, Completed(op, seal))
  {
  }

  /** Neither fails nor touches the writer set. */
  ghost predicate Harmless(t: Ledger, o: Outcome) {
    (o.status.Success? || o.status.Ignore?) && o.ledger.base == t.base
  }

  lemma TransferIsHarmless(env: Env, t: Ledger, from: Key, c: Op)
    requires SameState(env, t) && c.Transfer? && ValidatorCall(env, t, from, c) && MoneyFacts(env, t, c) && c.address in t.nodes
    ensures Harmless(t, ApplyTransfer(env, t, from, c))
  {
    CallFacts(env, t, from, c);
    hide ValidatorCall, Running, AddressValid;
    TransferFundsFits(env, t, c.address, c.to, c.done.value.va, c.am);
  }

  lemma DeploymentIsHarmless(env: Env, t: Ledger, from: Key, c: Op)
    requires SameState(env, t) && c.BootstrapDeployment? && ValidatorCall(env, t, from, c) && MoneyFacts(env, t, c)
    requires c.address in t.nodes
    ensures Harmless(t, ApplyBootstrapDeployment(env, t, from, c))
  {
    CallFacts(env, t, from, c);
    RoleFunds(env, t, c.address, c.done.value.va);
    hide ValidatorCall, SameState;
  }

  lemma SubnetTxIsHarmless(env: Env, t: Ledger, from: Key, c: Op)
    requires SameState(env, t) && c.SubnetTx? && ValidatorCall(env, t, from, c) && MoneyFacts(env, t, c) && c.address in t.nodes
    ensures Harmless(t, ApplySubnetTx(env, t, from, c))
  {
    CallFacts(env, t, from, c);
    DeploymentFacts(env, t, c.bs);
    hide ValidatorCall, Running;
    TransferFeeFits(env, t, c.address, c.done.value.va, t.deployments[c.bs].creator);
    hide TransferFee;
  }

  lemma MoneyIsHarmless(env: Env, t: Ledger, from: Key, c: Op)
    requires SameState(env, t) && c.ByValidator() && !c.RoleAccess? && ValidatorCall(env, t, from, c) && MoneyFacts(env, t, c)
    requires c.address in t.nodes
    ensures Harmless(t, ApplyOp(env, t, from, c))
  {
    hide ValidatorCall, SameState, MoneyFacts, ApplyTransfer, ApplyBootstrapDeployment, ApplySubnetTx, Harmless;
    if c.Transfer? {
      TransferIsHarmless(env, t, from, c);
    } else if c.BootstrapDeployment? {
      DeploymentIsHarmless(env, t, from, c);
    } else {
      SubnetTxIsHarmless(env, t, from, c);
    }
  }

  lemma MoneyNeverFails(env: Env, s: Ledger, t: Ledger, from: Key, op: Op, seal: Completion)
    requires Later(env, s, t, from) && AcceptedOn(env, s, from, op, seal) && !op.RoleAccess?
    requires ValidatorCall(env, t, from, Completed(op, seal))
    ensures Harmless(t, ApplyOp(env, t, from, Completed(op, seal)))
  {
    assert op.ByValidator();
    hide ValidatorCall, AcceptedOn, SameState, MoneyFacts, Harmless, Extends, ApplyOp;
    StillCalls(env, s, t, from, op, seal);
    MoneyFactsHold(env, s, from, op, seal);
    MoneyFactsStay(env, s, t, op, seal);
    MoneyIsHarmless(env, t, from, Completed(op, seal));
  }

  /** The funds that role operations need never overflow. */
  lemma RoleFunds(env: Env, t: Ledger, a: Address, va: Address)
    requires SameState(env, t) && a in t.nodes && va in t.nodes && a != va
    ensures t.nodes[a].balance >= FEE ==> CanCredit(env, t, va, PercentOfFee(75))
    ensures t.nodes[a].Worth() < env.cap
  {
    WorthBound(t.nodes, a);
    if t.nodes[a].balance >= FEE { CreditFits(env, t, va, a, PercentOfFee(75)); }
  }

  lemma AdditionFailsExactly(env: Env, t: Ledger, from: Key, c: Op)
    requires SameState(env, t) && c.RoleAccess? && c.access.WriterAddition? && ValidatorCall(env, t, from, c)
    requires c.address in t.nodes
    ensures ApplyAddWriter(env, t, from, c).status.Failure? <==> RoleClash(t, c)
  {
    CallFacts(env, t, from, c);
    RoleFunds(env, t, c.address, c.done.value.va);
    hide ValidatorCall, SameState;
  }

  lemma RemovalFailsExactly(env: Env, t: Ledger, from: Key, c: Op)
    requires SameState(env, t) && c.RoleAccess? && c.access.WriterRemoval? && ValidatorCall(env, t, from, c)
    requires c.address in t.nodes
    ensures ApplyRemoveWriter(env, t, from, c).status.Failure? <==> RoleClash(t, c)
  {
    CallFacts(env, t, from, c);
    RoleFunds(env, t, c.address, c.done.value.va);
    KeyFacts(env, t, c.address, c.iw);
    hide ValidatorCall, SameState;
  }

  lemma RecoveryFailsExactly(env: Env, t: Ledger, from: Key, c: Op)
    requires SameState(env, t) && c.RoleAccess? && c.access.Recovery? && ValidatorCall(env, t, from, c)
    requires c.address in t.nodes && t.admin.Some? && t.admin.value.address == c.address
    ensures ApplyAdminRecovery(env, t, from, c).status.Failure? <==> RoleClash(t, c)
  {
    CallFacts(env, t, from, c);
    RoleFunds(env, t, c.address, c.done.value.va);
    KeyFacts(env, t, c.address, c.iw);
    hide ValidatorCall, SameState;
  }

  lemma CallFacts(env: Env, t: Ledger, from: Key, c: Op)
    requires ValidatorCall(env, t, from, c)
    ensures c.done.Some? && c.done.value.va in t.nodes && c.done.value.va != c.address
  {
  }

  lemma RoleAccessFailsExactly(env: Env, s: Ledger, t: Ledger, from: Key, op: Op, seal: Completion)
    requires Later(env, s, t, from) && AcceptedOn(env, s, from, op, seal) && op.RoleAccess?
    requires ValidatorCall(env, t, from, Completed(op, seal))
    ensures ApplyOp(env, t, from, Completed(op, seal)).status.Failure? <==> RoleClash(t, op)
  {
    var c := Completed(op, seal);
    StillCalls(env, s, t, from, op, seal);
    if op.access.WriterAddition? {
      AdditionFailsExactly(env, t, from, c);
    } else if op.access.WriterRemoval? {
      RemovalFailsExactly(env, t, from, c);
    } else {
      AdminStays(env, s, t, from, op, seal);
      RecoveryFailsExactly(env, t, from, c);
    }
    hide ValidatorCall, SameState, AcceptedOn, Extends, ApplyAddWriter, ApplyRemoveWriter, ApplyAdminRecovery;
  }

  lemma AdminStays(env: Env, s: Ledger, t: Ledger, from: Key, op: Op, seal: Completion)
    requires Later(env, s, t, from) && AcceptedOn(env, s, from, op, seal) && op.RoleAccess? && op.access.Recovery?
    ensures t.admin.Some? && t.admin.value.address == op.address
  {
    hide CanComplete, Running;
  }

  /** An accepted operation fails on a later ledger if and only if it clashes with it. */
  lemma AcceptedFailsExactly(env: Env, s: Ledger, t: Ledger, from: Key, op: Op, seal: Completion)
    requires Later(env, s, t, from) && AcceptedOn(env, s, from, op, seal)
    ensures ApplyOp(env, t, from, Completed(op, seal)).status.Failure? <==> Clashes(env, t, op)
    ensures !op.RoleAccess? ==> ApplyOp(env, t, from, Completed(op, seal)).ledger.base == t.base
  {
    StillCalls(env, s, t, from, op, seal);
    var c := Completed(op, seal);
    if !ValidatorCall(env, t, from, c) {
      RefusedCall(env, t, from, c);
    } else if op.RoleAccess? {
      RoleAccessFailsExactly(env, s, t, from, op, seal);
    } else {
      MoneyNeverFails(env, s, t, from, op, seal);
    }
    hide ValidatorCall, ApplyOp, Later, AcceptedOn, RoleClash;
  }

  lemma RefusedCall(env: Env, t: Ledger, from: Key, op: Op)
    requires op.ByValidator() && !ValidatorCall(env, t, from, op)
    ensures ApplyOp(env, t, from, op) == Fail(t)
  {
    hide ValidatorCall;
  }

  // ---------- batches ----------

  /** An operation with the state it was accepted on and what completes it. */
  datatype Item = Item(on: Ledger, op: Op, seal: Completion)

  /** Each was accepted on some state that the ledger has since grown out of. */
  ghost predicate AllAccepted(env: Env, s: Ledger, from: Key, items: seq<Item>) {
    forall i {:trigger items[i]} :: 0 <= i < |items| ==>
      AcceptedOn(env, items[i].on, from, items[i].op, items[i].seal) && Later(env, items[i].on, s, from)
  }

  predicate AllByValidator(items: seq<Item>) {
    forall i {:trigger items[i]} :: 0 <= i < |items| ==> items[i].op.ByValidator()
  }

  lemma AcceptedByValidator(env: Env, s: Ledger, from: Key, items: seq<Item>)
    requires AllAccepted(env, s, from, items)
    ensures AllByValidator(items)
  {
    forall i | 0 <= i < |items| ensures items[i].op.ByValidator() {
      assert AcceptedOn(env, items[i].on, from, items[i].op, items[i].seal);
    }
  }

  /** The blocks that are published for them. */
  function Published(from: Key, items: seq<Item>): (nodes: seq<Node>)
    requires AllByValidator(items)
    ensures |nodes| == |items| && forall i {:trigger nodes[i]} :: 0 <= i < |nodes| ==> nodes[i].from == from
  {
    if items == [] then []
    else
      var last := items[|items| - 1];
      Published(from, items[..|items| - 1]) + [Node(from, Operation(Completed(last.op, last.seal)))]
  }

  /** How many of them clash with the ledger they meet. */
  ghost function Clashing(env: Env, s: Ledger, from: Key, items: seq<Item>): nat
    requires AllByValidator(items)
  {
    if items == [] then 0
    else
      var before, last := items[..|items| - 1], items[|items| - 1];
      var t := ApplyNodes(env, s, Published(from, before)).ledger;
      Clashing(env, s, from, before) + if Clashes(env, t, last.op) then 1 else 0
  }

  lemma StepIsLater(env: Env, s: Ledger, t: Ledger, from: Key, op: Op)
    requires Later(env, s, t, from) && op.ByValidator()
    ensures Later(env, s, ApplyOp(env, t, from, op).ledger, from) && !ApplyOp(env, t, from, op).status.Thrown?
  {
    var u := ApplyOp(env, t, from, op).ledger;
    OperationNeverOverflows(env, env, t, from, op);
    OperationKeepsInv(env, t, from, op);
    SupplyOnlyFalls(env, t, from, op);
    hide Running, Extends, ApplyOp, Total;
    InvIsRooted(env, t);
    OperationExtends(env, t, from, op);
    AdminNeverGone(env, t, u);
    ExtendsIsTransitive(s, t, u);
  }

  lemma SupplyOnlyFalls(env: Env, t: Ledger, from: Key, op: Op)
    requires Inv(env, t) && op.ByValidator()
    ensures Total(ApplyOp(env, t, from, op).ledger.nodes) <= Total(t.nodes)
  {
    OperationConserves(env, t, from, op);
    hide Inv, ApplyOp, Total, Burned;
  }

  lemma NowIsLater(env: Env, s: Ledger, from: Key)
    requires SameState(env, s) && from in s.base
    ensures Later(env, s, s, from)
  {
    hide SameState;
    ExtendsItself(s);
  }

  lemma LaterStill(env: Env, s: Ledger, t: Ledger, u: Ledger, from: Key)
    requires Later(env, s, t, from) && Later(env, t, u, from)
    ensures Later(env, s, u, from)
  {
    hide SameState, Extends;
    ExtendsIsTransitive(s, t, u);
  }

  /** The loop after one more node, unless the ones before it threw. */
  lemma OneMoreNode(env: Env, s: Ledger, nodes: seq<Node>, from: Key, op: Op)
    requires !ApplyNodes(env, s, nodes).thrown
    ensures var p := ApplyNodes(env, s, nodes);
            var o := ApplyOp(env, p.ledger, from, op);
            ApplyNodes(env, s, nodes + [Node(from, Operation(op))])
            == Progress(o.ledger, p.invalid + if o.status.Failure? then 1 else 0, o.status.Thrown?)
  {
    hide ApplyOp;
    assert (nodes + [Node(from, Operation(op))])[..|nodes|] == nodes;
  }

  lemma OneMore(env: Env, s: Ledger, from: Key, items: seq<Item>)
    requires AllByValidator(items) && items != []
    requires !ApplyNodes(env, s, Published(from, items[..|items| - 1])).thrown
    ensures var last := items[|items| - 1];
            var p := ApplyNodes(env, s, Published(from, items[..|items| - 1]));
            var o := ApplyOp(env, p.ledger, from, Completed(last.op, last.seal));
            ApplyNodes(env, s, Published(from, items))
            == Progress(o.ledger, p.invalid + if o.status.Failure? then 1 else 0, o.status.Thrown?)
  {
    hide ApplyOp, ApplyNodes;
    var last := items[|items| - 1];
    OneMoreNode(env, s, Published(from, items[..|items| - 1]), from, Completed(last.op, last.seal));
  }

  /** What becomes of the last operation of a batch. */
  lemma LastOne(env: Env, s: Ledger, from: Key, item: Item, t: Ledger)
    requires AcceptedOn(env, item.on, from, item.op, item.seal) && Later(env, item.on, s, from) && Later(env, s, t, from)
    ensures var o := ApplyOp(env, t, from, Completed(item.op, item.seal));
            && (o.status.Failure? <==> Clashes(env, t, item.op)) && !o.status.Thrown? && Later(env, s, o.ledger, from)
            && (!item.op.RoleAccess? ==> o.ledger.base == t.base)
  {
    assert item.op.ByValidator();
    hide AcceptedOn, Later, Clashes, ApplyOp;
    LaterStill(env, item.on, s, t, from);
    AcceptedFailsExactly(env, item.on, t, from, item.op, item.seal);
    StepIsLater(env, s, t, from, Completed(item.op, item.seal));
  }

  /** The operations that fail in a batch are the ones that clash when their turn comes; none throws. */
  lemma {:induction false} FailuresAreClashes(env: Env, s: Ledger, from: Key, items: seq<Item>)
    requires SameState(env, s) && from in s.base && AllAccepted(env, s, from, items)
    ensures AllByValidator(items)
    ensures var p := ApplyNodes(env, s, Published(from, items));
            p.invalid == Clashing(env, s, from, items) && !p.thrown && Later(env, s, p.ledger, from)
  {
    hide AcceptedOn, Later, Clashes, ApplyOp, SameState;
    AcceptedByValidator(env, s, from, items);
    if items == [] {
      NowIsLater(env, s, from);
    } else {
      var before := items[..|items| - 1];
      FailuresAreClashes(env, s, from, before);
      LastOne(env, s, from, items[|items| - 1], ApplyNodes(env, s, Published(from, before)).ledger);
      OneMore(env, s, from, items);
      hide ApplyNodes, Published;
    }
  }

  lemma BatchOf(env: Env, s: Ledger, from: Key, nodes: seq<Node>)
    requires 1 <= |nodes| <= BATCH_SIZE && nodes[0].from == from && !ApplyNodes(env, s, nodes).thrown
    ensures var p := ApplyNodes(env, s, nodes);
            ApplyBatch(env, s, nodes) == Some(if p.invalid == 0 then p.ledger else Penalize(env, p.ledger, from, p.invalid))
  {
    hide ApplyNodes, Penalize;
  }

  /** A batch of accepted operations is penalised if and only if one of them clashes when its turn comes. */
  lemma AcceptedBatchPenalty(env: Env, s: Ledger, from: Key, items: seq<Item>)
    requires SameState(env, s) && from in s.base && AllAccepted(env, s, from, items) && 1 <= |items| <= BATCH_SIZE
    ensures AllByValidator(items)
    ensures var p := ApplyNodes(env, s, Published(from, items));
            var n := Clashing(env, s, from, items);
            ApplyBatch(env, s, Published(from, items))
            == Some(if n == 0 then p.ledger else Penalize(env, p.ledger, from, n))
  {
    hide ApplyNodes, ApplyBatch, Clashing, Penalize, AllAccepted, SameState, Later;
    FailuresAreClashes(env, s, from, items);
    BatchOf(env, s, from, Published(from, items));
  }

  /** How many of them name another set of indexers than the one there is. */
  function Outdated(env: Env, s: Ledger, items: seq<Item>): nat {
    if items == [] then 0
    else
      Outdated(env, s, items[..|items| - 1])
      + if items[|items| - 1].op.txv != env.sequenceState(Indexers(s.base)) then 1 else 0
  }

  predicate MoneyOnly(items: seq<Item>) {
    forall i {:trigger items[i]} :: 0 <= i < |items| ==> !items[i].op.RoleAccess?
  }

  /** Transfers, subnetwork transactions and deployments leave the indexers alone, so that they clash only
      with a change of indexers before the batch. */
  lemma {:induction false} MoneyClashesIfOutdated(env: Env, s: Ledger, from: Key, items: seq<Item>)
    requires SameState(env, s) && from in s.base && AllAccepted(env, s, from, items) && MoneyOnly(items)
    ensures AllByValidator(items) && Clashing(env, s, from, items) == Outdated(env, s, items)
    ensures ApplyNodes(env, s, Published(from, items)).ledger.base == s.base
  {
    hide AcceptedOn, Later, ApplyOp, SameState, RoleClash;
    AcceptedByValidator(env, s, from, items);
    if items != [] {
      var before := items[..|items| - 1];
      MoneyClashesIfOutdated(env, s, from, before);
      FailuresAreClashes(env, s, from, before);
      LastOne(env, s, from, items[|items| - 1], ApplyNodes(env, s, Published(from, before)).ledger);
      OneMore(env, s, from, items);
      hide ApplyNodes, Published;
    }
  }

  /** A batch of accepted transfers, subnetwork transactions and deployments costs a fee for each of them
      that was accepted under other indexers, and nothing else, however they get into each other's way. */
  lemma AcceptedMoneyPenalty(env: Env, s: Ledger, from: Key, items: seq<Item>)
    requires SameState(env, s) && from in s.base && AllAccepted(env, s, from, items) && 1 <= |items| <= BATCH_SIZE
    requires MoneyOnly(items)
    ensures AllByValidator(items)
    ensures var p := ApplyNodes(env, s, Published(from, items));
            var n := Outdated(env, s, items);
            ApplyBatch(env, s, Published(from, items))
            == Some(if n == 0 then p.ledger else Penalize(env, p.ledger, from, n))
  {
    hide ApplyNodes, ApplyBatch, Clashing, Penalize, AllAccepted, SameState;
    MoneyClashesIfOutdated(env, s, from, items);
    AcceptedBatchPenalty(env, s, from, items);
  }

  lemma AcceptedIsUpToDate(env: Env, s: Ledger, from: Key, op: Op, seal: Completion)
    requires AcceptedOn(env, s, from, op, seal)
    ensures op.txv == env.sequenceState(Indexers(s.base))
  {
    hide CanComplete;
  }

  lemma {:induction false} SameIndexersUpToDate(env: Env, s: Ledger, from: Key, items: seq<Item>)
    requires AllAccepted(env, s, from, items)
    requires forall i {:trigger items[i]} :: 0 <= i < |items| ==> Indexers(items[i].on.base) == Indexers(s.base)
    ensures Outdated(env, s, items) == 0
  {
    hide AcceptedOn, Later, Indexers;
    if items != [] {
      var last := items[|items| - 1];
      SameIndexersUpToDate(env, s, from, items[..|items| - 1]);
      AcceptedIsUpToDate(env, last.on, from, last.op, last.seal);
    }
  }

  /** None is penalised while the indexers stay the same. */
  lemma AcceptedMoneyIsNeverPenalized(env: Env, s: Ledger, from: Key, items: seq<Item>)
    requires SameState(env, s) && from in s.base && AllAccepted(env, s, from, items) && 1 <= |items| <= BATCH_SIZE
    requires MoneyOnly(items)
    requires forall i {:trigger items[i]} :: 0 <= i < |items| ==> Indexers(items[i].on.base) == Indexers(s.base)
    ensures AllByValidator(items)
    ensures ApplyBatch(env, s, Published(from, items)) == Some(ApplyNodes(env, s, Published(from, items)).ledger)
  {
    hide ApplyNodes, ApplyBatch, AllAccepted, SameState;
    SameIndexersUpToDate(env, s, from, items);
    AcceptedMoneyPenalty(env, s, from, items);
  }

  // ---------- role operations that are accepted and fail ----------

  /** Of two different ADD_WRITER operations of one requester, both accepted on one state, the second
      always fails. */
  lemma SecondAddWriterFails(env: Env, s: Ledger, from: Key, first: Item, second: Item)
    requires SameState(env, s) && from in s.base && first.on == s && second.on == s
    requires AcceptedOn(env, s, from, first.op, first.seal) && AcceptedOn(env, s, from, second.op, second.seal)
    requires first.op.Type().ADD_WRITER? && second.op.Type().ADD_WRITER?
    requires first.op.address == second.op.address && first.op.tx != second.op.tx
    ensures ApplyNodes(env, s, Published(from, [first, second])).invalid == 1
  {
    hide Later, ApplyOp, SameState, AcceptedOn, ApplyNodes, Published, Completed, Clashes;
    var t := ApplyOp(env, s, from, Completed(first.op, first.seal)).ledger;
    FirstSucceeds(env, s, from, first.op, first.seal);
    NowIsLater(env, s, from);
    LastOne(env, s, from, first, s);
    LastOne(env, s, from, second, t);
    FirstTakesRole(env, s, from, first.op, first.seal);
    AcceptedIsNew(env, s, from, second.op, second.seal);
    TakenRoleClashes(env, t, second.op);
    TwoNodes(env, s, from, first, second);
  }

  lemma TakenRoleClashes(env: Env, t: Ledger, op: Op)
    requires op.Type().ADD_WRITER? && op.tx !in t.txs && op.address in t.nodes && t.nodes[op.address].role.Writer?
    ensures Clashes(env, t, op)
  {
  }

  lemma FirstSucceeds(env: Env, s: Ledger, from: Key, op: Op, seal: Completion)
    requires SameState(env, s) && AcceptedOn(env, s, from, op, seal) && op.Type().ADD_WRITER?
    ensures ApplyOp(env, s, from, Completed(op, seal)).status.Success?
  {
    hide CanComplete, SameState, ApplyOp, Validate;
    PreCheckAgrees(env, s, from, op, seal);
  }

  lemma AcceptedIsNew(env: Env, s: Ledger, from: Key, op: Op, seal: Completion)
    requires AcceptedOn(env, s, from, op, seal)
    ensures op.tx !in s.txs
  {
    hide CanComplete;
  }

  lemma FirstTakesRole(env: Env, s: Ledger, from: Key, op: Op, seal: Completion)
    requires op.ByValidator() && op.Type().ADD_WRITER? && ApplyOp(env, s, from, Completed(op, seal)).status.Success?
    ensures var t := ApplyOp(env, s, from, Completed(op, seal)).ledger;
            op.address in t.nodes && t.nodes[op.address].role.Writer? && t.txs == s.txs[op.tx := Completed(op, seal)]
  {
    var c := Completed(op, seal);
    ValidatorDispatch(env, s, from, c);
    hide ApplyOp;
    assert ValidatorEffect(env, s, c) == AddWriter(env, s, c);
  }

  lemma TwoNodes(env: Env, s: Ledger, from: Key, first: Item, second: Item)
    requires first.op.ByValidator() && second.op.ByValidator()
    requires ApplyOp(env, s, from, Completed(first.op, first.seal)).status.Success?
    requires ApplyOp(env, ApplyOp(env, s, from, Completed(first.op, first.seal)).ledger, from,
                     Completed(second.op, second.seal)).status.Failure?
    ensures ApplyNodes(env, s, Published(from, [first, second])).invalid == 1
  {
    hide ApplyOp, ApplyNodes;
    assert [first, second][..1] == [first] && [first][..0] == [];
    NoNodes(env, s);
    OneMore(env, s, from, [first]);
    OneMore(env, s, from, [first, second]);
  }

  lemma NoNodes(env: Env, s: Ledger)
    ensures ApplyNodes(env, s, []) == Progress(s, 0, false)
  {
  }

  /** A role operation that is accepted although the handler does not take its key: it fails on the very
      state it was accepted on. */
  lemma WrongKeyFails(env: Env, s: Ledger, from: Key, op: Op, seal: Completion)
    requires SameState(env, s) && from in s.base && AcceptedOn(env, s, from, op, seal)
    requires op.RoleAccess? && !KeyAccepted(s, op)
    ensures ApplyOp(env, s, from, Completed(op, seal)) == Fail(s)
  {
    hide ApplyOp, SameState, AcceptedOn, Later;
    NowIsLater(env, s, from);
    AcceptedIsNew(env, s, from, op, seal);
    StillCalls(env, s, s, from, op, seal);
    AcceptedFailsExactly(env, s, s, from, op, seal);
    EffectIsAtomic(env, s, from, Completed(op, seal));
  }

  /** It costs the validator, unless that is the admin, a fee, its role, and its place in the writer set. */
  lemma WrongKeyIsSlashed(env: Env, s: Ledger, from: Key, op: Op, seal: Completion)
    requires SameState(env, s) && from in s.base && AcceptedOn(env, s, from, op, seal)
    requires op.RoleAccess? && !KeyAccepted(s, op)
    ensures s.admin.Some? && from in s.writerKeys && s.writerKeys[from] in s.nodes
    ensures ApplyBatch(env, s, [Node(from, Operation(Completed(op, seal)))])
         == Some(if from == s.admin.value.wk then s else AfterSlashing(s, from, 1))
  {
    assert s.admin.Some?;
    SlashedFrom(env, s, from, 1);
    hide ApplyOp, SameState, AcceptedOn, ApplyNodes, ApplyBatch, AfterSlashing, Penalize, KeyAccepted;
    WrongKeyFails(env, s, from, op, seal);
    NoNodes(env, s);
    var c := Completed(op, seal);
    OneMoreNode(env, s, [], from, c);
    assert [] + [Node(from, Operation(c))] == [Node(from, Operation(c))];
    BatchOf(env, s, from, [Node(from, Operation(c))]);
  }
}
