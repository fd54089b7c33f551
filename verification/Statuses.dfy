/**
 When an operation succeeds, is ignored or fails: one table for all thirteen types, in terms of roles,
 keys and balances. The invariant and the bound on the supply leave nothing of the handlers' other checks.
 */
module Statuses {
  import opened Bytes
  import opened Records
  import opened Ledger
  import opened Invariant
  import opened Conservation
  import opened Supply
  import opened Authorization

  function RoleOf(s: Ledger, a: Address): Role {
    if a in s.nodes then s.nodes[a].role else Reader
  }

  predicate CanPay(s: Ledger, a: Address, amount: nat) {
    a in s.nodes && s.nodes[a].balance >= amount
  }

  predicate TooPoor(s: Ledger, a: Address, amount: nat) {
    a in s.nodes && s.nodes[a].balance < amount
  }

  /** A key that nobody has used, or the node's own from an earlier time as a writer. */
  predicate KeyIsFree(s: Ledger, a: Address, k: Key) {
    k !in s.writerKeys || (a in s.nodes && s.nodes[a].wk == k)
  }

  function TransferTotal(op: Op): nat
    requires op.Transfer?
  {
    if op.to == op.address then FEE else op.am + FEE
  }

  /** Never accepted, whatever the ledger holds. */
  predicate Forbidden(env: Env, op: Op) {
    (op.BootstrapDeployment? && op.bs == env.bootstrap)
    || (op.SubnetTx? && (op.bs == op.mbs || op.mbs != env.bootstrap))
  }

  /** What the ledger must hold for an operation to succeed. */
  predicate Admissible(env: Env, s: Ledger, op: Op) {
    match op.Type()
    case ADD_ADMIN => s.admin.None?
    case DISABLE_INITIALIZATION => s.initialization == Some(true)
    case BALANCE_INITIALIZATION => s.initialization == Some(true) && AddressValid(env, op.ia)
    case APPEND_WHITELIST =>
      AddressValid(env, op.ia) && RoleOf(s, op.ia).Reader? && (s.initialization == Some(false) ==> CanPay(s, op.address, FEE))
    case ADD_INDEXER => AddressValid(env, op.ia) && RoleOf(s, op.ia).Writer? && CanPay(s, op.address, FEE)
    case REMOVE_INDEXER => AddressValid(env, op.ia) && RoleOf(s, op.ia).Indexer? && CanPay(s, op.address, FEE)
    case BAN_VALIDATOR => env.addressOk(op.ia) && RoleOf(s, op.ia) in {Whitelisted, Writer} && CanPay(s, op.address, FEE)
    case ADD_WRITER => RoleOf(s, op.address).Whitelisted? && KeyIsFree(s, op.address, op.iw) && CanPay(s, op.address, 11 * FEE)
    case REMOVE_WRITER => RoleOf(s, op.address).Writer? && s.nodes[op.address].wk == op.iw && CanPay(s, op.address, FEE)
    case ADMIN_RECOVERY => IsAdmin(s, op.address) && op.iw !in s.writerKeys && CanPay(s, op.address, FEE)
    case BOOTSTRAP_DEPLOYMENT => op.bs !in s.deployments && CanPay(s, op.address, FEE)
    case TX => op.bs in s.deployments && CanPay(s, op.address, FEE)
    case TRANSFER => AddressValid(env, op.to) && CanPay(s, op.address, TransferTotal(op))
  }

  predicate IsAdmin(s: Ledger, a: Address) {
    s.admin.Some? && s.admin.value.address == a
  }

  /** What is passed over without a penalty: a validator's operation that came too late, or that its requester
      cannot pay for. */
  predicate Excused(env: Env, s: Ledger, op: Op) {
    match op.Type()
    case ADD_WRITER =>
      op.tx in s.txs || (RoleOf(s, op.address).Whitelisted? && KeyIsFree(s, op.address, op.iw) && TooPoor(s, op.address, FEE))
    case REMOVE_WRITER =>
      op.tx in s.txs || (RoleOf(s, op.address).Writer? && s.nodes[op.address].wk == op.iw && TooPoor(s, op.address, FEE))
    case ADMIN_RECOVERY =>
      op.tx !in s.txs && IsAdmin(s, op.address) && op.iw !in s.writerKeys && TooPoor(s, op.address, FEE)
    case BOOTSTRAP_DEPLOYMENT => op.tx in s.txs || op.bs in s.deployments || TooPoor(s, op.address, FEE)
    case TX => op.tx in s.txs || (op.bs in s.deployments && TooPoor(s, op.address, FEE))
    case TRANSFER =>
      op.tx in s.txs
      || (AddressValid(env, op.to) && TransferTotal(op) < AMOUNT_LIMIT && TooPoor(s, op.address, TransferTotal(op)))
    case _ => false
  }

  /** The whole table. */
  predicate FollowsTable(env: Env, s: Ledger, from: Key, op: Op, status: Status) {
    var called := Called(env, s, from, op) && !Forbidden(env, op);
    && (status.Success? <==> called && op.tx !in s.txs && Admissible(env, s, op))
    && (status.Ignore? <==> called && Excused(env, s, op))
    && !status.Thrown?
  }

  // ---------- operations of the admin ----------

  lemma AddAdminStatus(env: Env, s: Ledger, from: Key, op: Op)
    requires Inv(env, s) && op.Type().ADD_ADMIN?
    ensures FollowsTable(env, s, from, op, ApplyOp(env, s, from, op).status)
  {
    FlagOfAdmin(env, s);
    RequestedIsChecked(env, s, op);
    hide Requested, Authentic, UpToDate, Inv;
    assert ApplyOp(env, s, from, op) == ApplyAddAdmin(env, s, from, op);
  }

  lemma CoreStatus(env: Env, s: Ledger, from: Key, op: Op)
    requires Inv(env, s) && (op.CoreAdmin? || op.BalanceInitialization?) && !op.Type().ADD_ADMIN?
    ensures FollowsTable(env, s, from, op, ApplyOp(env, s, from, op).status)
  {
    FlagOfAdmin(env, s);
    AdminCallIsCalled(env, s, from, op);
    if Called(env, s, from, op) { CalledHasAdmin(env, s, from, op); }
    hide AdminCall, Called, Inv;
    assert s.initialization.Some? ==> s.initialization.value == true || s.initialization.value == false;
    if op.BalanceInitialization? {
      assert op.Type() == BALANCE_INITIALIZATION && !Forbidden(env, op);
      assert ApplyOp(env, s, from, op) == ApplyBalanceInitialization(env, s, from, op);
    } else {
      assert ApplyOp(env, s, from, op) == ApplyDisableInitialization(env, s, from, op);
    }
  }

  lemma CalledHasAdmin(env: Env, s: Ledger, from: Key, op: Op)
    requires !op.ByValidator() && !op.Type().ADD_ADMIN? && Called(env, s, from, op)
    ensures s.admin == Some(AdminEntry(op.address, from))
  {
    hide Requested;
  }

  /** There is a flag exactly when there is an admin, and no key is registered before. */
  lemma FlagOfAdmin(env: Env, s: Ledger)
    requires Inv(env, s)
    ensures s.admin.Some? <==> s.initialization.Some?
    ensures s.admin.None? ==> s.writerKeys == map[]
  {
  }

  /** What the invariant says of an admin operation that was called, and of the node it names. */
  lemma AdminFacts(env: Env, s: Ledger, from: Key, op: Op)
    requires Inv(env, s) && op.AdminControl? && Called(env, s, from, op)
    ensures Running(env, s) && op.address in s.nodes && s.nodes[op.address].role.Indexer?
    ensures s.initialization.Some?
    ensures op.ia in s.nodes ==> EntryOk(env, s, op.ia)
  {
    hide Requested;
  }

  lemma WhitelistStatus(env: Env, s: Ledger, from: Key, op: Op)
    requires Inv(env, s) && op.AdminControl? && op.control.Whitelisting?
    ensures FollowsTable(env, s, from, op, ApplyOp(env, s, from, op).status)
  {
    AdminCallIsCalled(env, s, from, op);
    if Called(env, s, from, op) { AdminFacts(env, s, from, op); }
    hide AdminCall, Called, Running, Inv, Whitelist, PayForWhitelist, ReadEntry, EntryOk;
  }

  lemma IndexerStatus(env: Env, s: Ledger, from: Key, op: Op)
    requires Inv(env, s) && op.AdminControl? && (op.control.IndexerAddition? || op.control.IndexerRemoval?)
    ensures FollowsTable(env, s, from, op, ApplyOp(env, s, from, op).status)
  {
    AdminCallIsCalled(env, s, from, op);
    if Called(env, s, from, op) { AdminFacts(env, s, from, op); }
    hide AdminCall, Called, Running, Inv;
  }

  lemma BanStatus(env: Env, s: Ledger, from: Key, op: Op)
    requires EnvOk(env) && Inv(env, s) && Total(s.nodes) < AMOUNT_LIMIT && op.AdminControl? && op.control.Ban?
    ensures FollowsTable(env, s, from, op, ApplyOp(env, s, from, op).status)
  {
    AdminCallIsCalled(env, s, from, op);
    if Called(env, s, from, op) { AdminFacts(env, s, from, op); }
    if op.ia in s.nodes { WorthBound(s.nodes, op.ia); }
    hide AdminCall, Called, Running, Inv, Total;
  }

  // ---------- operations that a validator completes ----------

  /** What the invariant says of such an operation that was called. */
  lemma SealedFacts(env: Env, s: Ledger, from: Key, op: Op)
    requires EnvOk(env) && Inv(env, s) && Total(s.nodes) < AMOUNT_LIMIT && op.ByValidator() && Called(env, s, from, op)
    ensures Running(env, s) && op.done.Some? && op.done.value.va in s.nodes && op.done.value.va != op.address
    ensures CanPay(s, op.address, FEE) ==> CanCredit(env, s, op.done.value.va, PercentOfFee(75))
    ensures op.address in s.nodes ==> EntryOk(env, s, op.address) && s.nodes[op.address].Worth() < AMOUNT_LIMIT
  {
    hide Requested;
    if op.address in s.nodes {
      WorthBound(s.nodes, op.address);
      if CanPay(s, op.address, FEE) { CreditFits(env, s, op.done.value.va, op.address, PercentOfFee(75)); }
    }
  }

  lemma AccessStatus(env: Env, s: Ledger, from: Key, op: Op)
    requires EnvOk(env) && Inv(env, s) && Total(s.nodes) < AMOUNT_LIMIT && op.RoleAccess?
    ensures FollowsTable(env, s, from, op, ApplyOp(env, s, from, op).status)
  {
    ValidatorCallIsCalled(env, s, from, op);
    hide ValidatorCall, Called, Inv, Total;
    if Called(env, s, from, op) {
      SealedFacts(env, s, from, op);
      if op.access.WriterAddition? {
        AdditionStatus(env, s, from, op);
      } else if op.access.WriterRemoval? {
        RemovalStatus(env, s, from, op);
      } else {
        RecoveryStatus(env, s, from, op);
      }
    } else {
      NotCalled(env, s, from, op);
    }
    hide ApplyOp;
  }

  lemma NotCalled(env: Env, s: Ledger, from: Key, op: Op)
    requires op.ByValidator() && !ValidatorCall(env, s, from, op)
    ensures ApplyOp(env, s, from, op) == Fail(s)
  {
    hide ValidatorCall;
  }

  /** The facts about a called role operation that its effect depends on. */
  ghost predicate CallFacts(env: Env, s: Ledger, op: Op) {
    && Running(env, s) && env.cap >= AMOUNT_LIMIT && op.ByValidator()
    && op.done.Some? && op.done.value.va in s.nodes && op.done.value.va != op.address
    && (CanPay(s, op.address, FEE) ==> CanCredit(env, s, op.done.value.va, PercentOfFee(75)))
    && (op.address in s.nodes ==> EntryOk(env, s, op.address) && s.nodes[op.address].Worth() < AMOUNT_LIMIT)
  }

  lemma AdditionStatus(env: Env, s: Ledger, from: Key, op: Op)
    requires CallFacts(env, s, op) && op.RoleAccess? && op.access.WriterAddition?
    requires Called(env, s, from, op) && ValidatorCall(env, s, from, op)
    ensures FollowsTable(env, s, from, op, ApplyOp(env, s, from, op).status)
  {
    KeyOfCalled(env, s, from, op);
    hide Called, ValidatorCall, Running;
  }

  lemma KeyOfCalled(env: Env, s: Ledger, from: Key, op: Op)
    requires op.RoleAccess? && Called(env, s, from, op)
    ensures op.iw != ZERO_WK
  {
    hide Sealed;
  }

  lemma RemovalStatus(env: Env, s: Ledger, from: Key, op: Op)
    requires CallFacts(env, s, op) && op.RoleAccess? && op.access.WriterRemoval?
    requires Called(env, s, from, op) && ValidatorCall(env, s, from, op)
    ensures FollowsTable(env, s, from, op, ApplyOp(env, s, from, op).status)
  {
    hide Called, ValidatorCall, Running;
  }

  lemma RecoveryStatus(env: Env, s: Ledger, from: Key, op: Op)
    requires CallFacts(env, s, op) && op.RoleAccess? && op.access.Recovery?
    requires Called(env, s, from, op) && ValidatorCall(env, s, from, op)
    ensures FollowsTable(env, s, from, op, ApplyOp(env, s, from, op).status)
  {
    AdminIsMember(env, s, op.iw);
    hide Called, ValidatorCall, Running;
  }

  lemma AdminIsMember(env: Env, s: Ledger, k: Key)
    requires Running(env, s)
    ensures s.admin.Some? && s.admin.value.wk in Indexers(s.base) && s.admin.value.address in s.nodes
    ensures k in s.base ==> k in s.writerKeys
  {
    assert EntryOk(env, s, s.admin.value.address);
    assert k in s.base ==> MemberOk(s, k);
  }

  lemma DeploymentStatus(env: Env, s: Ledger, from: Key, op: Op)
    requires CallFacts(env, s, op) && op.BootstrapDeployment?
    requires Called(env, s, from, op) && ValidatorCall(env, s, from, op)
    ensures FollowsTable(env, s, from, op, ApplyOp(env, s, from, op).status)
  {
    hide Called, ValidatorCall, Running;
  }

  lemma SubnetStatus(env: Env, s: Ledger, from: Key, op: Op)
    requires CallFacts(env, s, op) && op.SubnetTx? && Total(s.nodes) < AMOUNT_LIMIT
    requires Called(env, s, from, op) && ValidatorCall(env, s, from, op)
    ensures FollowsTable(env, s, from, op, ApplyOp(env, s, from, op).status)
  {
    assert op.bs in s.deployments ==> DeploymentOk(env, s, op.bs);
    hide Called, ValidatorCall, Running, Total;
    if op.bs in s.deployments { TransferFeeFits(env, s, op.address, op.done.value.va, s.deployments[op.bs].creator); }
    hide TransferFee;
  }

  lemma TransferStatus(env: Env, s: Ledger, from: Key, op: Op)
    requires CallFacts(env, s, op) && op.Transfer? && Total(s.nodes) < AMOUNT_LIMIT
    requires Called(env, s, from, op) && ValidatorCall(env, s, from, op)
    ensures FollowsTable(env, s, from, op, ApplyOp(env, s, from, op).status)
  {
    hide Called, ValidatorCall, Running, Total, AddressValid;
    TransferFundsFits(env, s, op.address, op.to, op.done.value.va, op.am);
    hide TransferFunds;
  }

  lemma MoneyStatus(env: Env, s: Ledger, from: Key, op: Op)
    requires EnvOk(env) && Inv(env, s) && Total(s.nodes) < AMOUNT_LIMIT && op.ByValidator() && !op.RoleAccess?
    ensures FollowsTable(env, s, from, op, ApplyOp(env, s, from, op).status)
  {
    ValidatorCallIsCalled(env, s, from, op);
    hide ValidatorCall, Called, Inv, Total;
    if Called(env, s, from, op) {
      SealedFacts(env, s, from, op);
      if op.BootstrapDeployment? {
        DeploymentStatus(env, s, from, op);
      } else if op.SubnetTx? {
        SubnetStatus(env, s, from, op);
      } else {
        TransferStatus(env, s, from, op);
      }
    } else {
      NotCalled(env, s, from, op);
    }
    hide ApplyOp;
  }

  /** On every ledger of the invariant whose supply is below 2 to the power 128, the status of an operation is
      the one in the table. */
  lemma StatusExactly(env: Env, s: Ledger, from: Key, op: Op)
    requires EnvOk(env) && Inv(env, s) && Total(s.nodes) < AMOUNT_LIMIT
    ensures FollowsTable(env, s, from, op, ApplyOp(env, s, from, op).status)
  {
    hide ApplyOp, Inv, FollowsTable, Total;
    if op.RoleAccess? { AccessStatus(env, s, from, op); }
    else if op.ByValidator() { MoneyStatus(env, s, from, op); }
    else if op.Type().ADD_ADMIN? { AddAdminStatus(env, s, from, op); }
    else if op.CoreAdmin? || op.BalanceInitialization? { CoreStatus(env, s, from, op); }
    else if op.control.Whitelisting? { WhitelistStatus(env, s, from, op); }
    else if op.control.Ban? { BanStatus(env, s, from, op); }
    else { IndexerStatus(env, s, from, op); }
  }
}
