/**
 No overflow from conservation: while the supply is below 2 to the power 128, every credit
 fits, so the cap on balances might as well not be there, and no handler ever throws.
 The supply of a run is then exactly what was issued in it less what was burned.
 */
module Supply {
  import opened Bytes
  import opened Records
  import opened Ledger
  import opened Dispatch
  import opened Invariant
  import opened Runs
  import opened History
  import opened Conservation

  /** The same environment with another limit on balances. */
  ghost predicate Widened(env: Env, wide: Env) {
    EnvOk(env) && EnvOk(wide) && wide == env.(cap := wide.cap)
  }

  /** A ledger whose whole supply fits one balance, after initialization. */
  ghost predicate Settled(env: Env, s: Ledger) {
    Inv(env, s) && InitializationDisabled(s) && Total(s.nodes) < AMOUNT_LIMIT
  }

  /** What another entry can pay always fits. */
  lemma CreditFits(env: Env, s: Ledger, a: Address, payer: Address, amount: nat)
    requires EnvOk(env) && Total(s.nodes) < AMOUNT_LIMIT
    requires a in s.nodes && payer in s.nodes && a != payer && amount <= s.nodes[payer].balance
    ensures CanCredit(env, s, a, amount)
  {
    WorthBoundTwo(s.nodes, a, payer);
  }

  lemma BanFits(env: Env, wide: Env, s: Ledger, op: Op)
    requires Widened(env, wide) && Total(s.nodes) < AMOUNT_LIMIT && op.AdminControl?
    ensures BanValidator(env, s, op) == BanValidator(wide, s, op)
  {
    if op.ia in s.nodes { WorthBound(s.nodes, op.ia); }
  }

  lemma AccessFits(env: Env, wide: Env, s: Ledger, from: Key, op: Op)
    requires Widened(env, wide) && Total(s.nodes) < AMOUNT_LIMIT && op.RoleAccess?
    requires ValidatorGuards(env, s, from, op)
    ensures AccessEffect(env, s, op) == AccessEffect(wide, s, op)
  {
    if op.address in s.nodes {
      WorthBound(s.nodes, op.address);
      if s.nodes[op.address].balance >= FEE {
        CreditFits(env, s, op.done.value.va, op.address, PercentOfFee(75));
        CreditFits(wide, s, op.done.value.va, op.address, PercentOfFee(75));
      }
    }
    match op.access
    case WriterAddition => assert AddWriter(env, s, op) == AddWriter(wide, s, op);
    case WriterRemoval => assert RemoveWriter(env, s, op) == RemoveWriter(wide, s, op);
    case Recovery => assert AdminRecovery(env, s, op) == AdminRecovery(wide, s, op);
  }

  lemma DeployFits(env: Env, wide: Env, s: Ledger, from: Key, op: Op)
    requires Widened(env, wide) && Total(s.nodes) < AMOUNT_LIMIT && op.BootstrapDeployment?
    requires ValidatorGuards(env, s, from, op)
    ensures DeployBootstrap(env, s, op) == DeployBootstrap(wide, s, op)
  {
    if op.address in s.nodes && s.nodes[op.address].balance >= FEE {
      CreditFits(env, s, op.done.value.va, op.address, PercentOfFee(75));
      CreditFits(wide, s, op.done.value.va, op.address, PercentOfFee(75));
    }
  }

  lemma TransferFeeFits(env: Env, s: Ledger, requester: Address, va: Address, creator: Address)
    requires EnvOk(env) && Total(s.nodes) < AMOUNT_LIMIT && va in s.nodes && requester != va && creator in s.nodes
    ensures TransferFee(env, s, requester, va, creator).status
         == if requester !in s.nodes then Failure
            else if s.nodes[requester].balance < FEE then Ignore else Success
  {
    if requester in s.nodes && s.nodes[requester].balance >= FEE {
      CreditFits(env, s, va, requester, PercentOfFee(50));
      if creator != requester { CreditFits(env, s, creator, requester, PercentOfFee(50) + PercentOfFee(25)); }
    }
  }

  lemma TransferFundsFits(env: Env, s: Ledger, sender: Address, to: Address, va: Address, am: nat)
    requires EnvOk(env) && Total(s.nodes) < AMOUNT_LIMIT && va in s.nodes && sender != va
    ensures var total := if to == sender then FEE else am + FEE;
            TransferFunds(env, s, sender, to, va, am).status ==
            if total >= AMOUNT_LIMIT || sender !in s.nodes then Failure
            else if s.nodes[sender].balance < total then Ignore else Success
  {
    var total := if to == sender then FEE else am + FEE;
    if sender in s.nodes && s.nodes[sender].balance >= total {
      CreditFits(env, s, va, sender, PercentOfFee(75));
      if to != sender {
        CreditFits(env, s, va, sender, am + PercentOfFee(75));
        if to in s.nodes { CreditFits(env, s, to, sender, am); }
      }
    }
  }

  lemma FundsFit(env: Env, wide: Env, s: Ledger, from: Key, op: Op)
    requires Widened(env, wide) && Running(env, s) && Total(s.nodes) < AMOUNT_LIMIT && (op.Transfer? || op.SubnetTx?)
    requires ValidatorGuards(env, s, from, op)
    ensures FundsEffect(env, s, op) == FundsEffect(wide, s, op) && !FundsEffect(env, s, op).status.Thrown?
  {
    var va := op.done.value.va;
    if op.SubnetTx? {
      assert DeploymentOk(env, s, op.bs);
      TransferFeeFits(env, s, op.address, va, s.deployments[op.bs].creator);
      TransferFeeFits(wide, s, op.address, va, s.deployments[op.bs].creator);
    } else {
      TransferFundsFits(env, s, op.address, op.to, va, op.am);
      TransferFundsFits(wide, s, op.address, op.to, va, op.am);
    }
  }

  lemma ControlEffectFits(env: Env, wide: Env, s: Ledger, op: Op)
    requires Widened(env, wide) && Total(s.nodes) < AMOUNT_LIMIT && op.AdminControl?
    ensures ControlEffect(env, s, op) == ControlEffect(wide, s, op) && !ControlEffect(env, s, op).status.Thrown?
  {
    BanFits(env, wide, s, op);
  }

  lemma ValidatorEffectFits(env: Env, wide: Env, s: Ledger, from: Key, op: Op)
    requires Widened(env, wide) && Running(env, s) && Total(s.nodes) < AMOUNT_LIMIT && ValidatorGuards(env, s, from, op)
    ensures ValidatorEffect(env, s, op) == ValidatorEffect(wide, s, op) && !ValidatorEffect(env, s, op).status.Thrown?
  {
    if op.RoleAccess? { AccessFits(env, wide, s, from, op); }
    else if op.BootstrapDeployment? { DeployFits(env, wide, s, from, op); }
    else { FundsFit(env, wide, s, from, op); }
  }

  /** The guards read no limit. */
  lemma GuardsIgnoreCap(env: Env, wide: Env, s: Ledger, from: Key, op: Op)
    requires wide == env.(cap := wide.cap)
    ensures AdminCall(env, s, from, op) == AdminCall(wide, s, from, op)
    ensures ValidatorCall(env, s, from, op) == ValidatorCall(wide, s, from, op)
    ensures Authentic(env, op) == Authentic(wide, op) && UpToDate(env, s, op) == UpToDate(wide, s, op)
  {
    assert RequesterMessage(env, op) == RequesterMessage(wide, op);
    if op.ByValidator() && op.done.Some? {
      assert ValidatorMessage(env, op) == ValidatorMessage(wide, op);
    }
  }

  lemma ControlFits(env: Env, wide: Env, s: Ledger, from: Key, op: Op)
    requires Widened(env, wide) && Total(s.nodes) < AMOUNT_LIMIT && op.AdminControl?
    ensures ApplyOp(env, s, from, op) == ApplyOp(wide, s, from, op)
    ensures !ApplyOp(env, s, from, op).status.Thrown?
  {
    GuardsIgnoreCap(env, wide, s, from, op);
    if AdminCall(env, s, from, op) { ControlEffectFits(env, wide, s, op); }
    match op.control
    case Whitelisting =>
    case IndexerAddition =>
    case IndexerRemoval =>
    case Ban => BanFits(env, wide, s, op);
  }

  /** An effect that is the same under both limits makes the whole operation the same. */
  lemma AccessCallFits(env: Env, wide: Env, s: Ledger, from: Key, op: Op)
    requires wide == env.(cap := wide.cap) && op.RoleAccess?
    requires ValidatorGuards(env, s, from, op) ==> AccessEffect(env, s, op) == AccessEffect(wide, s, op)
    ensures ApplyOp(env, s, from, op) == ApplyOp(wide, s, from, op)
  {
    GuardsIgnoreCap(env, wide, s, from, op);
    if op.access.WriterAddition? {
      assert ApplyAddWriter(env, s, from, op) == ApplyAddWriter(wide, s, from, op);
    } else if op.access.WriterRemoval? {
      assert ApplyRemoveWriter(env, s, from, op) == ApplyRemoveWriter(wide, s, from, op);
    } else {
      assert ApplyAdminRecovery(env, s, from, op) == ApplyAdminRecovery(wide, s, from, op);
    }
  }

  lemma MoneyCallFits(env: Env, wide: Env, s: Ledger, from: Key, op: Op)
    requires wide == env.(cap := wide.cap) && op.ByValidator() && !op.RoleAccess?
    requires ValidatorGuards(env, s, from, op) ==> ValidatorEffect(env, s, op) == ValidatorEffect(wide, s, op)
    requires ValidatorGuards(env, s, from, op) && !op.BootstrapDeployment? ==> FundsEffect(env, s, op) == FundsEffect(wide, s, op)
    ensures ApplyOp(env, s, from, op) == ApplyOp(wide, s, from, op)
  {
    GuardsIgnoreCap(env, wide, s, from, op);
    hide TransferFee, TransferFunds;
    if op.BootstrapDeployment? {
      assert ApplyBootstrapDeployment(env, s, from, op) == ApplyBootstrapDeployment(wide, s, from, op);
    } else if op.SubnetTx? {
      assert ApplySubnetTx(env, s, from, op) == ApplySubnetTx(wide, s, from, op);
    } else {
      assert ApplyTransfer(env, s, from, op) == ApplyTransfer(wide, s, from, op);
    }
  }

  lemma ValidatorFits(env: Env, wide: Env, s: Ledger, from: Key, op: Op)
    requires Widened(env, wide) && Inv(env, s) && Total(s.nodes) < AMOUNT_LIMIT && op.ByValidator()
    ensures ApplyOp(env, s, from, op) == ApplyOp(wide, s, from, op)
    ensures !ApplyOp(env, s, from, op).status.Thrown?
  {
    ValidatorDispatch(env, s, from, op);
    if ValidatorGuards(env, s, from, op) {
      ValidatorEffectFits(env, wide, s, from, op);
      if op.Transfer? || op.SubnetTx? { FundsFit(env, wide, s, from, op); }
    }
    hide Running, ApplyOp, FundsEffect, AccessEffect, DeployBootstrap, ValidatorGuards;
    if op.RoleAccess? { AccessCallFits(env, wide, s, from, op); } else { MoneyCallFits(env, wide, s, from, op); }
  }

  lemma CoreFits(env: Env, wide: Env, s: Ledger, from: Key, op: Op)
    requires Widened(env, wide) && (op.CoreAdmin? || op.BalanceInitialization?)
    ensures ApplyOp(env, s, from, op) == ApplyOp(wide, s, from, op)
    ensures !ApplyOp(env, s, from, op).status.Thrown?
  {
    GuardsIgnoreCap(env, wide, s, from, op);
    CoreDispatch(env, s, from, op);
    if op.BalanceInitialization? {
      assert ApplyBalanceInitialization(env, s, from, op) == ApplyBalanceInitialization(wide, s, from, op);
    } else if op.core.AdminAddition? {
      assert ApplyAddAdmin(env, s, from, op) == ApplyAddAdmin(wide, s, from, op);
    } else {
      assert ApplyDisableInitialization(env, s, from, op) == ApplyDisableInitialization(wide, s, from, op);
    }
  }

  /** With every credit fitting, an operation does the same under any limit, and does not throw. */
  lemma OperationNeverOverflows(env: Env, wide: Env, s: Ledger, from: Key, op: Op)
    requires Widened(env, wide) && Inv(env, s) && Total(s.nodes) < AMOUNT_LIMIT
    ensures ApplyOp(env, s, from, op) == ApplyOp(wide, s, from, op)
    ensures !ApplyOp(env, s, from, op).status.Thrown?
  {
    hide Inv, ApplyOp, Total;
    if op.AdminControl? { ControlFits(env, wide, s, from, op); }
    else if op.ByValidator() { ValidatorFits(env, wide, s, from, op); }
    else { CoreFits(env, wide, s, from, op); }
  }

  /** Nor does a penalty overflow. */
  lemma PenaltyNeverOverflows(env: Env, wide: Env, s: Ledger, key: Key, n: nat)
    requires Widened(env, wide) && Inv(env, s) && Total(s.nodes) < AMOUNT_LIMIT && key in s.base && 1 <= n <= BATCH_SIZE
    ensures Penalize(env, s, key, n) == Penalize(wide, s, key, n)
  {
    if s.admin.Some? {
      SlashingIsExact(env, s, key, n);
      var a := s.writerKeys[key];
      assert MemberOk(s, key) && EntryOk(env, s, a) && KeyOk(env, s, key);
      WorthBound(s.nodes, a);
    }
  }

  // ---------- batches ----------

  /** What the operations of a batch burn. */
  function NodesBurn(env: Env, s: Ledger, nodes: seq<Node>): nat {
    if nodes == [] then 0
    else
      var before, last := nodes[..|nodes| - 1], nodes[|nodes| - 1];
      var p := ApplyNodes(env, s, before);
      NodesBurn(env, s, before)
      + if p.thrown || last.payload.Malformed? then 0
        else Burned(p.ledger, last.payload.op, ApplyNode(env, p.ledger, last))
  }

  /** What they issue. */
  function NodesIssue(env: Env, s: Ledger, nodes: seq<Node>): nat {
    if nodes == [] then 0
    else
      var before, last := nodes[..|nodes| - 1], nodes[|nodes| - 1];
      var p := ApplyNodes(env, s, before);
      NodesIssue(env, s, before)
      + if p.thrown || last.payload.Malformed? then 0 else Issued(last.payload.op, ApplyNode(env, p.ledger, last))
  }

  /** What a penalty of n fees burns: nothing of the admin's, at most the stake of anyone else. */
  function PenaltyBurn(s: Ledger, key: Key, n: nat): nat {
    if s.admin.None? || s.admin.value.wk == key then 0 else Min(STAKE, n * FEE)
  }

  function BatchBurn(env: Env, s: Ledger, nodes: seq<Node>): nat
    requires nodes != []
  {
    if |nodes| > BATCH_SIZE then PenaltyBurn(s, nodes[0].from, BATCH_SIZE)
    else
      var p := ApplyNodes(env, s, nodes);
      NodesBurn(env, s, nodes) + if p.invalid == 0 then 0 else PenaltyBurn(p.ledger, nodes[0].from, p.invalid)
  }

  /** An oversized batch issues nothing. */
  function BatchIssue(env: Env, s: Ledger, nodes: seq<Node>): nat {
    if |nodes| > BATCH_SIZE then 0 else NodesIssue(env, s, nodes)
  }

  /** One operation on a ledger whose supply fits a balance. */
  lemma StepSettles(env: Env, wide: Env, s: Ledger, from: Key, op: Op)
    requires Widened(env, wide) && Inv(env, s) && Total(s.nodes) < AMOUNT_LIMIT
    requires from in s.base && !SelfDemotes(env, s, from, op)
    ensures var o := ApplyOp(env, s, from, op);
            && o == ApplyOp(wide, s, from, op) && !o.status.Thrown?
            && Inv(env, o.ledger) && from in o.ledger.base && Conserves(s, op, o)
  {
    hide Inv, ApplyOp, Conserves, Total, SelfDemotes;
    OperationKeepsInv(env, s, from, op);
    OperationConserves(env, s, from, op);
    OperationNeverOverflows(env, wide, s, from, op);
  }

  lemma {:induction false} NodesSettle(env: Env, wide: Env, s: Ledger, nodes: seq<Node>, from: Key)
    requires Widened(env, wide) && Inv(env, s) && from in s.base && LegalNodes(env, s, nodes, from)
    requires Total(s.nodes) + NodesIssue(env, s, nodes) < AMOUNT_LIMIT
    ensures var p := ApplyNodes(env, s, nodes);
            && p == ApplyNodes(wide, s, nodes) && !p.thrown && p.invalid <= |nodes|
            && Inv(env, p.ledger) && from in p.ledger.base
            && Total(p.ledger.nodes) + NodesBurn(env, s, nodes) == Total(s.nodes) + NodesIssue(env, s, nodes)
  {
    hide Inv, ApplyOp, SelfDemotes, Burned, Issued, Total, Widened;
    if nodes != [] {
      var before, last := nodes[..|nodes| - 1], nodes[|nodes| - 1];
      NodesSettle(env, wide, s, before, from);
      if last.payload.Operation? {
        StepSettles(env, wide, ApplyNodes(env, s, before).ledger, from, last.payload.op);
      }
    }
  }

  lemma PenaltySettles(env: Env, wide: Env, s: Ledger, key: Key, n: nat)
    requires Widened(env, wide) && Inv(env, s) && Total(s.nodes) < AMOUNT_LIMIT && key in s.base && 1 <= n <= BATCH_SIZE
    ensures var s' := Penalize(env, s, key, n);
            && s' == Penalize(wide, s, key, n) && Inv(env, s') && s'.initialization == s.initialization
            && Total(s'.nodes) + PenaltyBurn(s, key, n) == Total(s.nodes)
  {
    PenaltyNeverOverflows(env, wide, s, key, n);
    PenalizeKeepsInv(env, s, key, n);
    if s.admin.Some? {
      SlashingIsExact(env, s, key, n);
      PenaltyConserves(env, s, key, n);
    }
  }

  /** While the supply with what the batch issues fits a balance, the batch goes through without a throw,
      does the same as with unlimited balances, and changes the supply by what it issues and burns. */
  lemma BatchSettles(env: Env, wide: Env, s: Ledger, nodes: seq<Node>)
    requires Widened(env, wide) && Inv(env, s) && LegalBatch(env, s, nodes)
    requires Total(s.nodes) + BatchIssue(env, s, nodes) < AMOUNT_LIMIT
    ensures ApplyBatch(env, s, nodes) == ApplyBatch(wide, s, nodes)
    ensures var r := ApplyBatch(env, s, nodes);
            && r.Some? && Inv(env, r.value)
            && Total(r.value.nodes) + BatchBurn(env, s, nodes) == Total(s.nodes) + BatchIssue(env, s, nodes)
  {
    var from := nodes[0].from;
    hide Inv, ApplyNodes, LegalNodes, Penalize, Total, PenaltyBurn, Widened;
    if |nodes| > BATCH_SIZE {
      PenaltySettles(env, wide, s, from, BATCH_SIZE);
    } else {
      NodesSettle(env, wide, s, nodes, from);
      var p := ApplyNodes(env, s, nodes);
      if p.invalid > 0 { PenaltySettles(env, wide, p.ledger, from, p.invalid); }
    }
  }

  /** A batch with invalid operations costs its writer, unless that is the admin, exactly that many fees
      out of its stake, its role and its place in the writer set; the operations that succeeded stand. */
  lemma BatchIsSlashed(env: Env, s: Ledger, nodes: seq<Node>)
    requires EnvOk(env) && Inv(env, s) && LegalBatch(env, s, nodes) && |nodes| <= BATCH_SIZE
    requires Total(s.nodes) + NodesIssue(env, s, nodes) < AMOUNT_LIMIT
    ensures var from, p := nodes[0].from, ApplyNodes(env, s, nodes);
            && p.invalid <= BATCH_SIZE
            && (p.ledger.admin.Some? ==> from in p.ledger.writerKeys && p.ledger.writerKeys[from] in p.ledger.nodes)
            && ApplyBatch(env, s, nodes)
               == Some(if p.invalid == 0 || p.ledger.admin.None? || from == p.ledger.admin.value.wk then p.ledger
                       else AfterSlashing(p.ledger, from, p.invalid))
  {
    var from, p := nodes[0].from, ApplyNodes(env, s, nodes);
    hide Inv, ApplyNodes, LegalNodes, Penalize, AfterSlashing, Total;
    NodesSettle(env, env, s, nodes, from);
    SlashedFrom(env, p.ledger, from, p.invalid);
  }

  lemma SlashedFrom(env: Env, s: Ledger, key: Key, n: nat)
    requires EnvOk(env) && Inv(env, s) && Total(s.nodes) < AMOUNT_LIMIT && key in s.base && n <= BATCH_SIZE
    ensures s.admin.Some? ==> key in s.writerKeys && s.writerKeys[key] in s.nodes
    ensures n > 0 ==> Penalize(env, s, key, n)
                      == if s.admin.None? || key == s.admin.value.wk then s else AfterSlashing(s, key, n)
  {
    if s.admin.Some? { SlashingIsExact(env, s, key, if n == 0 then 1 else n); }
  }

  // ---------- who issues ----------

  /** A writer that cannot add to the supply: initialization is over, or the writer is not the admin. */
  ghost predicate IssuesNothing(env: Env, s: Ledger, from: Key) {
    Running(env, s) && (InitializationDisabled(s) || s.admin.value.wk != from)
  }

  /** A running ledger does not turn back into the genesis. */
  lemma AdminNeverGone(env: Env, s: Ledger, s': Ledger)
    requires Running(env, s) && Inv(env, s') && Extends(s, s')
    ensures Running(env, s')
  {
  }

  /** The key of a writer stays its own, and so does the admin's. */
  lemma KeysStayApart(env: Env, s: Ledger, s': Ledger, from: Key)
    requires Running(env, s) && Running(env, s') && Extends(s, s') && from in s.base && from in s'.base
    requires s.admin.value.wk != from
    ensures s'.admin.value.wk != from
  {
    assert MemberOk(s, from) && MemberOk(s', from);
    assert EntryOk(env, s, s.admin.value.address) && EntryOk(env, s', s'.admin.value.address);
  }

  /** Such a writer stays one through its batch, and issues nothing in it. */
  lemma {:induction false} NothingIssued(env: Env, s: Ledger, nodes: seq<Node>, from: Key)
    requires EnvOk(env) && IssuesNothing(env, s, from) && from in s.base && LegalNodes(env, s, nodes, from)
    ensures NodesIssue(env, s, nodes) == 0
    ensures var s' := ApplyNodes(env, s, nodes).ledger; IssuesNothing(env, s', from)
  {
    StaysSilent(env, s, nodes, from);
    hide IssuesNothing, ApplyOp, Issued, SelfDemotes;
    if nodes != [] {
      var before, last := nodes[..|nodes| - 1], nodes[|nodes| - 1];
      NothingIssued(env, s, before, from);
      if last.payload.Operation? { NoIssueByOthers(env, ApplyNodes(env, s, before).ledger, from, last.payload.op); }
    }
  }

  lemma NoIssueByOthers(env: Env, s: Ledger, from: Key, op: Op)
    requires IssuesNothing(env, s, from)
    ensures Issued(op, ApplyOp(env, s, from, op)) == 0
  {
    OnlyAdminIssues(env, s, from, op);
    hide ApplyOp;
  }

  lemma StaysSilent(env: Env, s: Ledger, nodes: seq<Node>, from: Key)
    requires EnvOk(env) && IssuesNothing(env, s, from) && from in s.base && LegalNodes(env, s, nodes, from)
    ensures IssuesNothing(env, ApplyNodes(env, s, nodes).ledger, from)
  {
    var s' := ApplyNodes(env, s, nodes).ledger;
    var ordinary := s.admin.value.wk != from;
    hide Running, ApplyNodes, LegalNodes;
    InvIsRooted(env, s);
    NodesKeepInv(env, s, nodes, from);
    NodesExtend(env, s, nodes);
    AdminNeverGone(env, s, s');
    if ordinary { KeysStayApart(env, s, s', from); }
  }

  lemma {:induction false} IssueSplits(env: Env, s: Ledger, a: seq<Node>, b: seq<Node>)
    requires !ApplyNodes(env, s, a).thrown
    ensures NodesIssue(env, s, a + b) == NodesIssue(env, s, a) + NodesIssue(env, ApplyNodes(env, s, a).ledger, b)
  {
    hide ApplyOp, Issued;
    if b == [] {
      assert a + b == a;
    } else {
      var c := b[..|b| - 1];
      IssueSplits(env, s, a, c);
      ApplyNodesSplits(env, s, a, c);
      assert (a + b)[..|a + b| - 1] == a + c;
      hide ApplyNodes;
    }
  }

  lemma {:induction false} LegalSplits(env: Env, s: Ledger, a: seq<Node>, b: seq<Node>, from: Key)
    requires LegalNodes(env, s, a + b, from)
    ensures LegalNodes(env, s, a, from)
    ensures !ApplyNodes(env, s, a).thrown ==> LegalNodes(env, ApplyNodes(env, s, a).ledger, b, from)
  {
    hide SelfDemotes;
    if b == [] {
      assert a + b == a;
    } else {
      var c := b[..|b| - 1];
      assert (a + b)[..|a + b| - 1] == a + c;
      LegalSplits(env, s, a, c, from);
      ApplyNodesSplits(env, s, a, c);
      hide ApplyNodes;
    }
  }

  /** The rest of the batch in which initialization ends: from there on it issues nothing, whoever signs
      it, does not throw, and burns its schedule. */
  lemma RestSettles(env: Env, wide: Env, s: Ledger, a: seq<Node>, b: seq<Node>, from: Key)
    requires Widened(env, wide) && Inv(env, s) && from in s.base && LegalNodes(env, s, a + b, from)
    requires Total(s.nodes) + NodesIssue(env, s, a) < AMOUNT_LIMIT
    requires InitializationDisabled(ApplyNodes(env, s, a).ledger)
    ensures var p, q := ApplyNodes(env, s, a), ApplyNodes(env, s, a + b);
            && q == ApplyNodes(wide, s, a + b) && !q.thrown && NodesIssue(env, s, a + b) == NodesIssue(env, s, a)
            && Total(q.ledger.nodes) + NodesBurn(env, p.ledger, b) == Total(p.ledger.nodes)
  {
    var t := ApplyNodes(env, s, a).ledger;
    LegalSplits(env, s, a, b, from);
    hide Running, LegalNodes, Total, ApplyNodes, NodesIssue, NodesBurn;
    NodesSettle(env, wide, s, a, from);
    NothingIssued(env, t, b, from);
    NodesSettle(env, wide, t, b, from);
    IssueSplits(env, s, a, b);
    NodesSettle(env, wide, s, a + b, from);
    ApplyNodesSplits(env, s, a, b);
  }

  // ---------- runs ----------

  function RunBurn(env: Env, s: Ledger, batches: seq<seq<Node>>): nat
    requires NonEmpty(batches)
  {
    if batches == [] then 0
    else
      var before, last := batches[..|batches| - 1], batches[|batches| - 1];
      var r := Run(env, s, before);
      RunBurn(env, s, before) + if r.None? then 0 else BatchBurn(env, r.value, last)
  }

  function RunIssue(env: Env, s: Ledger, batches: seq<seq<Node>>): nat
    requires NonEmpty(batches)
  {
    if batches == [] then 0
    else
      var before, last := batches[..|batches| - 1], batches[|batches| - 1];
      var r := Run(env, s, before);
      RunIssue(env, s, before) + if r.None? then 0 else BatchIssue(env, r.value, last)
  }

  /** While what there is and what is issued fits a balance, a legal run goes through without a throw, does
      the same as with unlimited balances, and ends with the supply that was issued and not burned. */
  lemma {:induction false} RunBalances(env: Env, wide: Env, s: Ledger, batches: seq<seq<Node>>)
    requires Widened(env, wide) && Inv(env, s) && LegalRun(env, s, batches)
    requires Total(s.nodes) + RunIssue(env, s, batches) < AMOUNT_LIMIT
    ensures Run(env, s, batches) == Run(wide, s, batches)
    ensures var r := Run(env, s, batches);
            && r.Some? && Inv(env, r.value)
            && Total(r.value.nodes) + RunBurn(env, s, batches) == Total(s.nodes) + RunIssue(env, s, batches)
  {
    hide Inv, LegalBatch, ApplyBatch, Total, BatchBurn, BatchIssue, Widened;
    if batches != [] {
      var before, last := batches[..|batches| - 1], batches[|batches| - 1];
      RunBalances(env, wide, s, before);
      BatchSettles(env, wide, Run(env, s, before).value, last);
    }
  }

  /** The supply of every ledger that a legal run reaches from the empty store, as long as less than 2 to
      the power 128 is issued in it: all that was issued and not burned. */
  lemma SupplyIsIssuedLessBurned(env: Env, wide: Env, batches: seq<seq<Node>>)
    requires Widened(env, wide) && LegalRun(env, Genesis(env), batches)
    requires RunIssue(env, Genesis(env), batches) < AMOUNT_LIMIT
    ensures Run(env, Genesis(env), batches) == Run(wide, Genesis(env), batches)
    ensures var r := Run(env, Genesis(env), batches);
            r.Some? && Total(r.value.nodes) + RunBurn(env, Genesis(env), batches) == RunIssue(env, Genesis(env), batches)
  {
    assert Total(Genesis(env).nodes) == 0;
    RunBalances(env, wide, Genesis(env), batches);
  }

  /** Once initialization is over nothing is issued. */
  lemma {:induction false} SettledIssuesNothing(env: Env, s: Ledger, batches: seq<seq<Node>>)
    requires EnvOk(env) && Inv(env, s) && InitializationDisabled(s) && LegalRun(env, s, batches)
    ensures RunIssue(env, s, batches) == 0
  {
    if batches != [] {
      var before, last := batches[..|batches| - 1], batches[|batches| - 1];
      SettledIssuesNothing(env, s, before);
      hide Running, ApplyBatch, BatchIssue;
      if Run(env, s, before).Some? {
        RunKeepsInv(env, s, before);
        InvIsRooted(env, s);
        RunExtends(env, s, before);
        SettledBatch(env, Run(env, s, before).value, last);
      }
    }
  }

  lemma SettledBatch(env: Env, s: Ledger, nodes: seq<Node>)
    requires EnvOk(env) && Inv(env, s) && InitializationDisabled(s) && LegalBatch(env, s, nodes)
    ensures BatchIssue(env, s, nodes) == 0
  {
    if |nodes| <= BATCH_SIZE { NothingIssued(env, s, nodes, nodes[0].from); }
  }

  /** From a settled ledger every legal run goes through without a throw, does the same as with
      unlimited balances, and loses exactly what the schedule burns. */
  lemma RunSettles(env: Env, wide: Env, s: Ledger, batches: seq<seq<Node>>)
    requires Widened(env, wide) && Settled(env, s) && LegalRun(env, s, batches)
    ensures Run(env, s, batches) == Run(wide, s, batches)
    ensures var r := Run(env, s, batches);
            r.Some? && Settled(env, r.value) && Total(r.value.nodes) + RunBurn(env, s, batches) == Total(s.nodes)
  {
    assert NonEmpty(batches);
    hide Running, LegalRun, Run, RunBurn, RunIssue;
    SettledIssuesNothing(env, s, batches);
    RunBalances(env, wide, s, batches);
    InvIsRooted(env, s);
    RunExtends(env, s, batches);
  }

  // ---------- when a handler does throw ----------

  /** The one way to throw: a transfer to its own validator whose amount no longer fits there. */
  predicate OverpaysValidator(env: Env, s: Ledger, op: Op) {
    && op.Transfer? && op.done.Some? && op.to == op.done.value.va
    && op.address in s.nodes && op.to in s.nodes
    && op.am + FEE < AMOUNT_LIMIT && s.nodes[op.address].balance >= op.am + FEE
    && s.nodes[op.to].balance + op.am >= env.cap
  }

  lemma ThrowsExactly(env: Env, s: Ledger, from: Key, op: Op)
    ensures ApplyOp(env, s, from, op).status.Thrown?
       <==> op.Transfer? && ValidatorCall(env, s, from, op) && op.tx !in s.txs && AddressValid(env, op.to)
            && OverpaysValidator(env, s, op)
  {
    if op.Transfer? {
      assert ApplyOp(env, s, from, op) == ApplyTransfer(env, s, from, op);
    } else if op.AdminControl? {
      ControlDispatch(env, s, from, op);
    } else if op.ByValidator() {
      ValidatorDispatch(env, s, from, op);
    } else {
      CoreDispatch(env, s, from, op);
    }
  }
}
