/**
 Which of its two views of the ledger a validator consults: the signed one lags behind the unsigned one, and
 balances, roles, keys, deployments and hashes are looked up in one, the other or both.
 */
module Views {
  import opened Records
  import opened Ledger
  import opened PreCheck
  import opened Authorization
  import opened Statuses

  /** Looked up in the unsigned view alone. */
  predicate PartialCall(env: Env, unsigned: Ledger, self: Address, op: Op)
    requires op.ByValidator()
  {
    && FieldsPresent(op) && op.done.None? && op.address != self && env.addressOk(op.address) && env.keyOk(op.address)
    && op.tx !in unsigned.txs && env.hash(PartialMessage(env, op)) == op.tx && env.verify(op.sig, op.tx, op.address)
    && op.txv == env.sequenceState(set k | k in unsigned.base && unsigned.base[k])
  }

  predicate CanPayInBoth(signed: Ledger, unsigned: Ledger, a: Address, amount: nat) {
    CanPay(signed, a, amount) && CanPay(unsigned, a, amount)
  }

  /** The key is new in the unsigned view, or registered there to the node that has it in the signed one. */
  predicate KeyIsFreeInBoth(signed: Ledger, unsigned: Ledger, a: Address, k: Key) {
    k in unsigned.writerKeys ==> a in signed.nodes && signed.nodes[a].wk == k && unsigned.writerKeys[k] == a
  }

  /** The deployment that the signed view knows was made by an operation that the unsigned view has recorded. */
  predicate DeployedInBoth(signed: Ledger, unsigned: Ledger, b: Key) {
    && b in signed.deployments && signed.deployments[b].txHash in unsigned.txs
    && unsigned.txs[signed.deployments[b].txHash].BootstrapDeployment?
    && unsigned.txs[signed.deployments[b].txHash].bs == b
  }

  predicate AdmissibleInViews(env: Env, signed: Ledger, unsigned: Ledger, op: Op)
    requires op.ByValidator()
  {
    match op.Type()
    case ADD_WRITER =>
      CanPayInBoth(signed, unsigned, op.address, 11 * FEE) && RoleOf(signed, op.address).Whitelisted?
      && KeyIsFreeInBoth(signed, unsigned, op.address, op.iw)
    case REMOVE_WRITER => CanPayInBoth(signed, unsigned, op.address, FEE) && RoleOf(signed, op.address).Writer?
    case ADMIN_RECOVERY =>
      CanPayInBoth(signed, unsigned, op.address, FEE) && IsAdmin(signed, op.address) && op.iw != signed.admin.value.wk
    case BOOTSTRAP_DEPLOYMENT =>
      CanPayInBoth(signed, unsigned, op.address, FEE) && op.bs != env.bootstrap && op.bs !in unsigned.deployments
    case TX =>
      CanPayInBoth(signed, unsigned, op.address, FEE) && op.bs != env.bootstrap && op.mbs == env.bootstrap
      && DeployedInBoth(signed, unsigned, op.bs)
    case TRANSFER =>
      CanPay(unsigned, op.address, TransferTotal(op)) && AddressValid(env, op.to)
      && (op.to != op.address && op.to in unsigned.nodes ==> unsigned.nodes[op.to].balance + op.am < AMOUNT_LIMIT)
    case _ => false
  }

  lemma CommonInViews(env: Env, unsigned: Ledger, self: Address, op: Op)
    requires op.ByValidator()
    ensures CommonChecks(env, unsigned, self, op).Accepted? <==> PartialCall(env, unsigned, self, op)
  {
    SchemaIsPresence(op);
    hide FieldsPresent, PartialMessage;
    assert Indexers(unsigned.base) == set k | k in unsigned.base && unsigned.base[k];
  }

  lemma AccessInViews(env: Env, signed: Ledger, unsigned: Ledger, op: Op)
    requires op.RoleAccess?
    ensures SpecificChecks(env, signed, unsigned, op).Accepted? <==> AdmissibleInViews(env, signed, unsigned, op)
  {
  }

  lemma MoneyInViews(env: Env, signed: Ledger, unsigned: Ledger, op: Op)
    requires op.ByValidator() && !op.RoleAccess?
    ensures SpecificChecks(env, signed, unsigned, op).Accepted? <==> AdmissibleInViews(env, signed, unsigned, op)
  {
  }

  /** For any two views, an operation is accepted exactly when its call is good in the unsigned one and what it
      needs is found where the checks look for it. */
  lemma AcceptedByViews(env: Env, signed: Ledger, unsigned: Ledger, self: Address, op: Op)
    requires op.ByValidator()
    ensures Validate(env, signed, unsigned, self, op).Accepted?
       <==> PartialCall(env, unsigned, self, op) && AdmissibleInViews(env, signed, unsigned, op)
  {
    CommonInViews(env, unsigned, self, op);
    if op.RoleAccess? { AccessInViews(env, signed, unsigned, op); } else { MoneyInViews(env, signed, unsigned, op); }
    hide CommonChecks, SpecificChecks, PartialCall, AdmissibleInViews;
  }
}
