/**
 The checks a validator makes on a partial operation before it completes, countersigns and
 publishes it, against the signed and the unsigned view of the state. An accepted operation
 should not be one that the state machine then refuses, since that costs the validator a fee.
 */
module PreCheck {
  import opened Bytes
  import opened Records
  import opened Ledger
  import opened Invariant
  import opened Conservation
  import opened Supply

  datatype ResultCode =
    | SCHEMA_VALIDATION_FAILED | SELF_VALIDATION_FORBIDDEN | REQUESTER_ADDRESS_INVALID | REQUESTER_PUBLIC_KEY_INVALID
    | TX_ALREADY_EXISTS | TX_HASH_MISMATCH | TX_SIGNATURE_INVALID | TX_EXPIRED | OPERATION_ALREADY_COMPLETED
    | REQUESTER_NOT_FOUND | INSUFFICIENT_FEE_BALANCE | EXTERNAL_BOOTSTRAP_EQUALS_MSB_BOOTSTRAP
    | TRANSFER_RECIPIENT_ADDRESS_INVALID | TRANSFER_RECIPIENT_PUBLIC_KEY_INVALID
    | TRANSFER_SENDER_NOT_FOUND | TRANSFER_INSUFFICIENT_BALANCE | TRANSFER_RECIPIENT_BALANCE_OVERFLOW
    | MSB_BOOTSTRAP_MISMATCH | EXTERNAL_BOOTSTRAP_NOT_DEPLOYED | EXTERNAL_BOOTSTRAP_TX_MISSING
    | EXTERNAL_BOOTSTRAP_MISMATCH | BOOTSTRAP_ALREADY_EXISTS | ROLE_INSUFFICIENT_FEE_BALANCE | ROLE_INVALID_WRITER_KEY
    | ROLE_NODE_ENTRY_NOT_FOUND | ROLE_NODE_ALREADY_WRITER | ROLE_NODE_NOT_WHITELISTED | ROLE_NODE_NOT_WRITER
    | ROLE_NODE_IS_INDEXER | ROLE_ADMIN_ENTRY_MISSING | ROLE_INVALID_RECOVERY_CASE | UNEXPECTED_ERROR

  datatype Verdict = Accepted | Rejected(code: ResultCode)

  const MAX_AMOUNT: nat := AMOUNT_LIMIT - 1

  /** The message a partial operation is signed over; a subnetwork transaction names its own
      idea of the main bootstrap here. */
  function PartialMessage(env: Env, op: Op): Message {
    if op.SubnetTx? then
      [Network(env.networkId), Buffer(op.txv), Buffer(op.iw), Buffer(op.ch), Buffer(op.bs), Buffer(op.mbs),
       Buffer(op.nonce), Kind(op.Type())]
    else RequesterMessage(env, op)
  }

  /** The checks every validator starts with, in order. */
  function CommonChecks(env: Env, unsigned: Ledger, self: Address, op: Op): Verdict
    requires op.ByValidator()
  {
    if !op.SchemaOk() then Rejected(SCHEMA_VALIDATION_FAILED)
    else if op.address == self then Rejected(SELF_VALIDATION_FORBIDDEN)
    else if !env.addressOk(op.address) then Rejected(REQUESTER_ADDRESS_INVALID)
    else if !env.keyOk(op.address) then Rejected(REQUESTER_PUBLIC_KEY_INVALID)
    else if op.tx in unsigned.txs then Rejected(TX_ALREADY_EXISTS)
    else if env.hash(PartialMessage(env, op)) != op.tx then Rejected(TX_HASH_MISMATCH)
    else if !env.verify(op.sig, op.tx, op.address) then Rejected(TX_SIGNATURE_INVALID)
    else if op.txv != env.sequenceState(Indexers(unsigned.base)) then Rejected(TX_EXPIRED)
    else if op.done.Some? then Rejected(OPERATION_ALREADY_COMPLETED)
    else Accepted
  }

  function RequesterBalance(s: Ledger, op: Op, atLeast: nat, otherwise: ResultCode): Verdict {
    if op.address !in s.nodes then Rejected(REQUESTER_NOT_FOUND)
    else if s.nodes[op.address].balance < atLeast then Rejected(otherwise)
    else Accepted
  }

  /** The second check, unless the first one rejects. */
  function Then(first: Verdict, second: Verdict): Verdict {
    if first.Rejected? then first else second
  }

  function TransferChecks(env: Env, unsigned: Ledger, op: Op): Verdict
    requires op.Transfer?
  {
    var total := if op.address == op.to then FEE else op.am + FEE;
    if !env.addressOk(op.to) then Rejected(TRANSFER_RECIPIENT_ADDRESS_INVALID)
    else if !env.keyOk(op.to) then Rejected(TRANSFER_RECIPIENT_PUBLIC_KEY_INVALID)
    else if op.address !in unsigned.nodes then Rejected(TRANSFER_SENDER_NOT_FOUND)
    else if unsigned.nodes[op.address].balance < total then Rejected(TRANSFER_INSUFFICIENT_BALANCE)
    else if op.address != op.to && op.to in unsigned.nodes && unsigned.nodes[op.to].balance + op.am > MAX_AMOUNT then
      Rejected(TRANSFER_RECIPIENT_BALANCE_OVERFLOW)
    else Accepted
  }

  /** Both views must show the fee, and the bootstrap must not be the network's own. */
  function SubnetworkChecks(env: Env, signed: Ledger, unsigned: Ledger, op: Op): Verdict
    requires op.BootstrapDeployment? || op.SubnetTx?
  {
    Then(RequesterBalance(unsigned, op, FEE, INSUFFICIENT_FEE_BALANCE),
         Then(RequesterBalance(signed, op, FEE, INSUFFICIENT_FEE_BALANCE),
              if op.bs == env.bootstrap then Rejected(EXTERNAL_BOOTSTRAP_EQUALS_MSB_BOOTSTRAP) else Accepted))
  }

  /** The deployment is looked up in the signed view, the operation that made it in the unsigned one. */
  function DeployedChecks(env: Env, signed: Ledger, unsigned: Ledger, op: Op): Verdict
    requires op.SubnetTx?
  {
    if op.mbs != env.bootstrap then Rejected(MSB_BOOTSTRAP_MISMATCH)
    else if op.bs !in signed.deployments then Rejected(EXTERNAL_BOOTSTRAP_NOT_DEPLOYED)
    else
      var txHash := signed.deployments[op.bs].txHash;
      if txHash !in unsigned.txs then Rejected(EXTERNAL_BOOTSTRAP_TX_MISSING)
      else if !unsigned.txs[txHash].BootstrapDeployment? then Rejected(UNEXPECTED_ERROR)
      else if unsigned.txs[txHash].bs != op.bs then Rejected(EXTERNAL_BOOTSTRAP_MISMATCH)
      else Accepted
  }

  function WriterKeyCheck(signed: Ledger, unsigned: Ledger, op: Op): Verdict
    requires op.RoleAccess?
  {
    if op.address !in signed.nodes then Rejected(REQUESTER_NOT_FOUND)
    else if op.iw in unsigned.writerKeys
            && (signed.nodes[op.address].wk != op.iw || unsigned.writerKeys[op.iw] != op.address) then
      Rejected(ROLE_INVALID_WRITER_KEY)
    else Accepted
  }

  function RoleCheck(signed: Ledger, op: Op): Verdict
    requires op.RoleAccess?
  {
    match op.access
    case WriterAddition =>
      if op.address !in signed.nodes then Rejected(ROLE_NODE_ENTRY_NOT_FOUND)
      else if signed.nodes[op.address].role.IsActive() then Rejected(ROLE_NODE_ALREADY_WRITER)
      else if signed.nodes[op.address].role.Reader? then Rejected(ROLE_NODE_NOT_WHITELISTED)
      else Accepted
    case WriterRemoval =>
      if op.address !in signed.nodes then Rejected(ROLE_NODE_ENTRY_NOT_FOUND)
      else if !signed.nodes[op.address].role.IsActive() then Rejected(ROLE_NODE_NOT_WRITER)
      else if signed.nodes[op.address].role.Indexer? then Rejected(ROLE_NODE_IS_INDEXER)
      else Accepted
    case Recovery =>
      if signed.admin.None? then Rejected(ROLE_ADMIN_ENTRY_MISSING)
      else if signed.admin.value.address != op.address || op.iw == signed.admin.value.wk then
        Rejected(ROLE_INVALID_RECOVERY_CASE)
      else Accepted
  }

  /** Adding a writer takes eleven fees: one is charged and ten are staked. */
  function RoleAccessChecks(signed: Ledger, unsigned: Ledger, op: Op): Verdict
    requires op.RoleAccess?
  {
    var funds :=
      if op.access.WriterAddition? then
        Then(RequesterBalance(unsigned, op, 11 * FEE, ROLE_INSUFFICIENT_FEE_BALANCE),
             Then(RequesterBalance(signed, op, 11 * FEE, ROLE_INSUFFICIENT_FEE_BALANCE), WriterKeyCheck(signed, unsigned, op)))
      else
        Then(RequesterBalance(signed, op, FEE, INSUFFICIENT_FEE_BALANCE),
             RequesterBalance(unsigned, op, FEE, INSUFFICIENT_FEE_BALANCE));
    Then(funds, RoleCheck(signed, op))
  }

  function SpecificChecks(env: Env, signed: Ledger, unsigned: Ledger, op: Op): Verdict
    requires op.ByValidator()
  {
    if op.Transfer? then TransferChecks(env, unsigned, op)
    else if op.RoleAccess? then RoleAccessChecks(signed, unsigned, op)
    else if op.BootstrapDeployment? then
      Then(SubnetworkChecks(env, signed, unsigned, op),
           if op.bs in unsigned.deployments then Rejected(BOOTSTRAP_ALREADY_EXISTS) else Accepted)
    else Then(SubnetworkChecks(env, signed, unsigned, op), DeployedChecks(env, signed, unsigned, op))
  }

  function Validate(env: Env, signed: Ledger, unsigned: Ledger, self: Address, op: Op): Verdict
    requires op.ByValidator()
  {
    Then(CommonChecks(env, unsigned, self, op), SpecificChecks(env, signed, unsigned, op))
  }

  // ---------- completing an accepted operation ----------

  /** The validator's address, nonce and signature are added; nothing else changes. */
  function Completed(op: Op, seal: Completion): Op
    requires op.ByValidator()
  {
    op.(done := Some(seal))
  }

  /** A validator that may publish: active, with its own key, a fresh nonce and a good signature. */
  ghost predicate CanComplete(env: Env, s: Ledger, from: Key, op: Op, seal: Completion)
    requires op.ByValidator()
  {
    && op.done.None? && ActiveValidator(s, from, seal.va) && AddressValid(env, seal.va)
    && seal.vn != ZERO_WK && seal.vn != op.nonce && seal.vs != ZERO_SIGNATURE && seal.vs != op.sig && !IsBlank(seal.va)
    && env.verify(seal.vs, env.hash(ValidatorMessage(env, Completed(op, seal))), seal.va)
  }

  /** The state that both views and the state machine see. */
  ghost predicate SameState(env: Env, s: Ledger) {
    EnvOk(env) && Running(env, s) && Total(s.nodes) < AMOUNT_LIMIT
  }

  /** What passes the common checks passes the guards of apply, and the other way round. */
  lemma CommonAgrees(env: Env, s: Ledger, from: Key, op: Op, seal: Completion)
    requires op.ByValidator() && CanComplete(env, s, from, op, seal)
    requires op.SubnetTx? ==> op.mbs == env.bootstrap
    ensures CommonChecks(env, s, seal.va, op).Accepted?
       <==> ValidatorCall(env, s, from, Completed(op, seal)) && op.tx !in s.txs
  {
    var c := Completed(op, seal);
    assert c.Type() == op.Type();
    assert PartialMessage(env, op) == RequesterMessage(env, c);
    assert UpToDate(env, s, c) <==> op.txv == env.sequenceState(Indexers(s.base));
    assert c.SchemaOk() == op.SchemaOk();
  }

  lemma TransferAgrees(env: Env, s: Ledger, from: Key, op: Op, seal: Completion)
    requires SameState(env, s) && op.Transfer? && CanComplete(env, s, from, op, seal)
    ensures Validate(env, s, s, seal.va, op).Accepted? <==> ApplyOp(env, s, from, Completed(op, seal)).status.Success?
  {
    hide ValidatorCall, CommonChecks, Running, CanComplete;
    var c := Completed(op, seal);
    CommonAgrees(env, s, from, op, seal);
    CompletionFacts(env, s, from, op, seal);
    assert ApplyOp(env, s, from, c) == ApplyTransfer(env, s, from, c);
    if CommonChecks(env, s, seal.va, op).Accepted? {
      TransferFundsFits(env, s, op.address, op.to, seal.va, op.am);
      BalanceBound(env, s, op.address);
      if op.to in s.nodes && op.to != op.address && op.address in s.nodes && s.nodes[op.address].balance >= op.am + FEE {
        WorthBoundTwo(s.nodes, op.to, op.address);
      }
    }
  }

  lemma CompletionFacts(env: Env, s: Ledger, from: Key, op: Op, seal: Completion)
    requires SameState(env, s) && op.ByValidator() && CanComplete(env, s, from, op, seal)
    ensures seal.va in s.nodes && Total(s.nodes) < AMOUNT_LIMIT
    ensures CommonChecks(env, s, seal.va, op).Accepted? ==> op.address != seal.va
  {
  }

  lemma BalanceBound(env: Env, s: Ledger, a: Address)
    requires SameState(env, s)
    ensures a in s.nodes ==> s.nodes[a].balance < AMOUNT_LIMIT
  {
    if a in s.nodes { WorthBound(s.nodes, a); }
  }

  lemma DeploymentAgrees(env: Env, s: Ledger, from: Key, op: Op, seal: Completion)
    requires SameState(env, s) && op.BootstrapDeployment? && CanComplete(env, s, from, op, seal)
    ensures Validate(env, s, s, seal.va, op).Accepted? <==> ApplyOp(env, s, from, Completed(op, seal)).status.Success?
  {
    hide ValidatorCall, CommonChecks, Running, CanComplete;
    var c := Completed(op, seal);
    CommonAgrees(env, s, from, op, seal);
    CompletionFacts(env, s, from, op, seal);
    assert ApplyOp(env, s, from, c) == ApplyBootstrapDeployment(env, s, from, c);
    if CommonChecks(env, s, seal.va, op).Accepted? && op.address in s.nodes && s.nodes[op.address].balance >= FEE {
      CreditFits(env, s, seal.va, op.address, PercentOfFee(75));
    }
  }

  lemma DeploymentFacts(env: Env, s: Ledger, b: Key)
    requires SameState(env, s)
    ensures b in s.deployments ==> DeploymentOk(env, s, b)
  {
  }

  lemma SubnetTxAgrees(env: Env, s: Ledger, from: Key, op: Op, seal: Completion)
    requires SameState(env, s) && op.SubnetTx? && CanComplete(env, s, from, op, seal)
    ensures Validate(env, s, s, seal.va, op).Accepted? <==> ApplyOp(env, s, from, Completed(op, seal)).status.Success?
  {
    hide ValidatorCall, CommonChecks, Running, CanComplete;
    var c := Completed(op, seal);
    CompletionFacts(env, s, from, op, seal);
    assert ApplyOp(env, s, from, c) == ApplySubnetTx(env, s, from, c);
    if op.mbs == env.bootstrap {
      CommonAgrees(env, s, from, op, seal);
      DeploymentFacts(env, s, op.bs);
      if CommonChecks(env, s, seal.va, op).Accepted? && op.bs in s.deployments {
        TransferFeeFits(env, s, op.address, seal.va, s.deployments[op.bs].creator);
      }
    }
  }

  /** The facts of the invariant that role changes rest on. */
  lemma KeyFacts(env: Env, s: Ledger, a: Address, k: Key)
    requires SameState(env, s)
    ensures a in s.nodes ==> EntryOk(env, s, a)
    ensures k in s.base ==> k in s.writerKeys
    ensures AdminOk(env, s) && EntryOk(env, s, s.admin.value.address)
  {
    assert k in s.base ==> MemberOk(s, k);
  }

  /** What the checks do not look at: whether the key named is one that the handler takes. */
  ghost predicate KeyAccepted(s: Ledger, op: Op)
    requires op.RoleAccess?
  {
    match op.access
    case WriterAddition => true
    case WriterRemoval => op.address in s.nodes && s.nodes[op.address].wk == op.iw
    case Recovery => op.iw !in s.writerKeys
  }

  lemma RoleAccessAgrees(env: Env, s: Ledger, from: Key, op: Op, seal: Completion)
    requires SameState(env, s) && op.RoleAccess? && CanComplete(env, s, from, op, seal)
    ensures Validate(env, s, s, seal.va, op).Accepted? && KeyAccepted(s, op)
       <==> ApplyOp(env, s, from, Completed(op, seal)).status.Success?
  {
    hide ValidatorCall, CommonChecks, Running, CanComplete;
    var c := Completed(op, seal);
    CommonAgrees(env, s, from, op, seal);
    CompletionFacts(env, s, from, op, seal);
    KeyFacts(env, s, op.address, op.iw);
    BalanceBound(env, s, op.address);
    if CommonChecks(env, s, seal.va, op).Accepted? && op.address in s.nodes {
      WorthBound(s.nodes, op.address);
      if s.nodes[op.address].balance >= FEE { CreditFits(env, s, seal.va, op.address, PercentOfFee(75)); }
    }
    match op.access
    case WriterAddition => assert ApplyOp(env, s, from, c) == ApplyAddWriter(env, s, from, c);
    case WriterRemoval => assert ApplyOp(env, s, from, c) == ApplyRemoveWriter(env, s, from, c);
    case Recovery => assert ApplyOp(env, s, from, c) == ApplyAdminRecovery(env, s, from, c);
  }

  /** A validator accepts a partial operation exactly when the completed one succeeds on the same state,
      except that for removal and recovery the key has to be right as well. */
  lemma PreCheckAgrees(env: Env, s: Ledger, from: Key, op: Op, seal: Completion)
    requires SameState(env, s) && op.ByValidator() && CanComplete(env, s, from, op, seal)
    ensures Validate(env, s, s, seal.va, op).Accepted? && (op.RoleAccess? ==> KeyAccepted(s, op))
       <==> ApplyOp(env, s, from, Completed(op, seal)).status.Success?
  {
    hide ValidatorCall, CommonChecks, Running, CanComplete;
    if op.Transfer? { TransferAgrees(env, s, from, op, seal); }
    else if op.RoleAccess? { RoleAccessAgrees(env, s, from, op, seal); }
    else if op.BootstrapDeployment? { DeploymentAgrees(env, s, from, op, seal); }
    else { SubnetTxAgrees(env, s, from, op, seal); }
  }

  /** A batch of one accepted operation is not penalised: it leaves just what the operation does. */
  lemma AcceptedIsNotPenalized(env: Env, s: Ledger, from: Key, op: Op, seal: Completion)
    requires SameState(env, s) && op.ByValidator() && CanComplete(env, s, from, op, seal)
    requires Validate(env, s, s, seal.va, op).Accepted? && (op.RoleAccess? ==> KeyAccepted(s, op))
    ensures ApplyBatch(env, s, [Node(from, Operation(Completed(op, seal)))])
         == Some(ApplyOp(env, s, from, Completed(op, seal)).ledger)
  {
    hide ValidatorCall, CommonChecks, Running, CanComplete, ApplyOp, Validate;
    PreCheckAgrees(env, s, from, op, seal);
    var nodes := [Node(from, Operation(Completed(op, seal)))];
    assert nodes[..|nodes| - 1] == [];
    assert ApplyNodes(env, s, []) == Progress(s, 0, false);
    assert ApplyNodes(env, s, nodes) == Progress(ApplyOp(env, s, from, Completed(op, seal)).ledger, 0, false);
  }
}
