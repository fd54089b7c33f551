/**
 Guards apart from effects: an operation either does nothing, or its guards passed and it
 does what its effect function says.
 */
module Dispatch {
  import opened Bytes
  import opened Records
  import opened Ledger

  ghost predicate Refused(s: Ledger, o: Outcome) {
    o == Fail(s) || o == Skip(s)
  }

  ghost function ControlEffect(env: Env, s: Ledger, op: Op): Outcome
    requires op.AdminControl?
  {
    match op.control
    case Whitelisting => AppendWhitelist(s, op)
    case IndexerAddition => AddIndexer(s, op)
    case IndexerRemoval => RemoveIndexer(s, op)
    case Ban => BanValidator(env, s, op)
  }

  ghost function AccessEffect(env: Env, s: Ledger, op: Op): Outcome
    requires op.RoleAccess? && op.done.Some?
  {
    match op.access
    case WriterAddition => AddWriter(env, s, op)
    case WriterRemoval => RemoveWriter(env, s, op)
    case Recovery => AdminRecovery(env, s, op)
  }

  ghost function FundsEffect(env: Env, s: Ledger, op: Op): Funds
    requires (op.Transfer? || op.SubnetTx?) && op.done.Some? && (op.SubnetTx? ==> op.bs in s.deployments)
  {
    if op.SubnetTx? then TransferFee(env, s, op.address, op.done.value.va, s.deployments[op.bs].creator)
    else TransferFunds(env, s, op.address, op.to, op.done.value.va, op.am)
  }

  ghost function ValidatorEffect(env: Env, s: Ledger, op: Op): Outcome
    requires op.ByValidator() && op.done.Some? && (op.SubnetTx? ==> op.bs in s.deployments)
  {
    if op.RoleAccess? then AccessEffect(env, s, op)
    else if op.BootstrapDeployment? then DeployBootstrap(env, s, op)
    else Settle(s, FundsEffect(env, s, op), op)
  }

  /** What has been checked once an admin operation takes effect. */
  ghost predicate AdminGuards(s: Ledger, from: Key, op: Op) {
    s.admin == Some(AdminEntry(op.address, from)) && op.tx !in s.txs
  }

  /** What has been checked once a validator's operation takes effect. */
  ghost predicate ValidatorGuards(env: Env, s: Ledger, from: Key, op: Op) {
    && op.ByValidator() && op.done.Some? && op.address != op.done.value.va && AddressValid(env, op.address)
    && ActiveValidator(s, from, op.done.value.va) && op.tx !in s.txs
    && (op.RoleAccess? ==> op.iw != ZERO_WK)
    && (op.SubnetTx? ==> op.bs in s.deployments)
  }

  lemma ControlDispatch(env: Env, s: Ledger, from: Key, op: Op)
    requires op.AdminControl?
    ensures Refused(s, ApplyOp(env, s, from, op))
            || (AdminGuards(s, from, op) && ApplyOp(env, s, from, op) == ControlEffect(env, s, op))
  {
    match op.control
    case Whitelisting =>
    case IndexerAddition =>
    case IndexerRemoval =>
    case Ban =>
  }

  lemma AccessDispatch(env: Env, s: Ledger, from: Key, op: Op)
    requires op.RoleAccess?
    ensures Refused(s, ApplyOp(env, s, from, op))
            || (ValidatorGuards(env, s, from, op) && ApplyOp(env, s, from, op) == AccessEffect(env, s, op))
  {
    if ValidatorCall(env, s, from, op) {
      match op.access
      case WriterAddition =>
      case WriterRemoval =>
      case Recovery =>
    }
  }

  lemma ValidatorDispatch(env: Env, s: Ledger, from: Key, op: Op)
    requires op.ByValidator()
    ensures Refused(s, ApplyOp(env, s, from, op))
            || (ValidatorGuards(env, s, from, op) && ApplyOp(env, s, from, op) == ValidatorEffect(env, s, op))
  {
    if op.RoleAccess? {
      AccessDispatch(env, s, from, op);
    } else if op.BootstrapDeployment? {
      assert ApplyOp(env, s, from, op) == ApplyBootstrapDeployment(env, s, from, op);
    } else if op.SubnetTx? {
      assert ApplyOp(env, s, from, op) == ApplySubnetTx(env, s, from, op);
    } else {
      assert ApplyOp(env, s, from, op) == ApplyTransfer(env, s, from, op);
    }
  }

  /** Core operations: the guards that later proofs need. */
  lemma CoreDispatch(env: Env, s: Ledger, from: Key, op: Op)
    requires op.CoreAdmin? || op.BalanceInitialization?
    ensures var o := ApplyOp(env, s, from, op);
            o == Fail(s) || (o.status.Success? && op.tx !in s.txs && o.ledger.txs == s.txs[op.tx := op]
                             && if op.Type().ADD_ADMIN? then s.admin.None?
                                else AdminGuards(s, from, op) && !InitializationDisabled(s))
  {
    if op.BalanceInitialization? {
      assert ApplyOp(env, s, from, op) == ApplyBalanceInitialization(env, s, from, op);
    } else if op.core.AdminAddition? {
      assert ApplyOp(env, s, from, op) == ApplyAddAdmin(env, s, from, op);
    } else {
      assert ApplyOp(env, s, from, op) == ApplyDisableInitialization(env, s, from, op);
    }
  }
}
