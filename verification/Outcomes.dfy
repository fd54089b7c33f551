/**
 What each operation writes, entry by entry: the steps between the outcomes of Ledger.dfy and
 the writes of the handlers in StateMachine.dfy.
 */
module Outcomes {
  import opened Bytes
  import opened Records
  import L = Ledger
  import Dispatch

  ghost predicate CountersUp(s: L.Ledger, t: L.Ledger) {
    t.licenseCount <= s.licenseCount + 1 && t.writersLength <= s.writersLength + 1
  }

  lemma WhitelistCounters(s: L.Ledger, op: L.Op)
    requires op.AdminControl?
    ensures CountersUp(s, L.AppendWhitelist(s, op).ledger)
  {
    if L.AppendWhitelist(s, op).status.Success? {
      WhitelistCounts(L.PayForWhitelist(s, op.address), op.ia, L.ReadEntry(s, op.ia));
    }
    hide L.Whitelist, L.ReadEntry;
  }

  lemma WhitelistCounts(s: L.Ledger, a: Address, read: Option<Entry>)
    ensures CountersUp(s, L.Whitelist(s, a, read))
  {
  }

  lemma IndexerCounters(s: L.Ledger, op: L.Op)
    requires op.AdminControl?
    ensures CountersUp(s, L.AddIndexer(s, op).ledger) && CountersUp(s, L.RemoveIndexer(s, op).ledger)
  {
    hide L.Indexers;
  }

  lemma BanCounters(env: L.Env, s: L.Ledger, op: L.Op)
    requires op.AdminControl?
    ensures CountersUp(s, L.BanValidator(env, s, op).ledger)
  {
  }

  lemma ControlCounters(env: L.Env, s: L.Ledger, op: L.Op)
    requires op.AdminControl?
    ensures CountersUp(s, Dispatch.ControlEffect(env, s, op).ledger)
  {
    hide CountersUp, L.AppendWhitelist, L.AddIndexer, L.RemoveIndexer, L.BanValidator;
    match op.control
    case Whitelisting => WhitelistCounters(s, op);
    case IndexerAddition => IndexerCounters(s, op);
    case IndexerRemoval => IndexerCounters(s, op);
    case Ban => BanCounters(env, s, op);
  }

  lemma ValidatorCounters(env: L.Env, s: L.Ledger, op: L.Op)
    requires op.ByValidator() && op.done.Some? && (op.SubnetTx? ==> op.bs in s.deployments)
    ensures CountersUp(s, Dispatch.ValidatorEffect(env, s, op).ledger)
  {
    if op.RoleAccess? {
      match op.access
      case WriterAddition => assert CountersUp(s, L.AddWriter(env, s, op).ledger);
      case WriterRemoval => assert CountersUp(s, L.RemoveWriter(env, s, op).ledger);
      case Recovery => assert CountersUp(s, L.AdminRecovery(env, s, op).ledger);
    } else if op.BootstrapDeployment? {
      assert CountersUp(s, L.DeployBootstrap(env, s, op).ledger);
    }
  }

  /** An operation takes at most one licence and adds at most one writer to the history. */
  lemma CountersStep(env: L.Env, s: L.Ledger, from: Key, op: L.Op)
    ensures CountersUp(s, L.ApplyOp(env, s, from, op).ledger)
  {
    hide L.ApplyOp, Dispatch.ControlEffect, Dispatch.ValidatorEffect;
    if op.AdminControl? {
      Dispatch.ControlDispatch(env, s, from, op);
      ControlCounters(env, s, op);
    } else if op.ByValidator() {
      Dispatch.ValidatorDispatch(env, s, from, op);
      if Dispatch.ValidatorGuards(env, s, from, op) { ValidatorCounters(env, s, op); }
    } else {
      CoreCounters(env, s, from, op);
    }
  }

  lemma AdminAdditionCounters(env: L.Env, s: L.Ledger, from: Key, op: L.Op)
    requires op.CoreAdmin?
    ensures CountersUp(s, L.ApplyAddAdmin(env, s, from, op).ledger)
  {
    hide L.Authentic, L.UpToDate;
  }

  lemma CoreCounters(env: L.Env, s: L.Ledger, from: Key, op: L.Op)
    requires op.CoreAdmin? || op.BalanceInitialization?
    ensures CountersUp(s, L.ApplyOp(env, s, from, op).ledger)
  {
    hide L.AdminCall, L.Authentic, L.UpToDate, L.AddressValid, L.ApplyAddAdmin;
    if op.BalanceInitialization? {
      assert L.ApplyOp(env, s, from, op) == L.ApplyBalanceInitialization(env, s, from, op);
    } else if op.core.AdminAddition? {
      assert L.ApplyOp(env, s, from, op) == L.ApplyAddAdmin(env, s, from, op);
      AdminAdditionCounters(env, s, from, op);
    } else {
      assert L.ApplyOp(env, s, from, op) == L.ApplyDisableInitialization(env, s, from, op);
    }
  }

  /** Once a prefix of the batch has thrown, the batch has. */
  lemma {:induction false} ThrowEndsBatch(env: L.Env, s: L.Ledger, batch: seq<L.Node>, k: nat)
    requires k <= |batch| && L.ApplyNodes(env, s, batch[..k]).thrown
    ensures L.ApplyNodes(env, s, batch).thrown
    decreases |batch| - k
  {
    if k == |batch| {
      assert batch[..k] == batch;
    } else {
      assert batch[..k + 1][..k] == batch[..k];
      ThrowEndsBatch(env, s, batch, k + 1);
    }
  }

  /** The requester's entry is rewritten, then the validator is credited. */
  ghost predicate Credited(s: L.Ledger, va: Address, amount: nat, v: Entry) {
    va in s.nodes && v == s.nodes[va].(balance := s.nodes[va].balance + amount)
  }

  ghost function WriterAdded(s: L.Ledger, op: L.Op, w: Entry, v: Entry): L.Ledger
    requires op.RoleAccess? && op.done.Some?
  {
    s.(base := s.base[op.iw := false],
       nodes := s.nodes[op.address := w][op.done.value.va := v],
       writerKeys := if op.iw in s.writerKeys then s.writerKeys else s.writerKeys[op.iw := op.address],
       writersIndex := s.writersIndex[s.writersLength := op.address],
       writersLength := s.writersLength + 1,
       txs := s.txs[op.tx := op])
  }

  lemma AddedWriter(env: L.Env, s: L.Ledger, op: L.Op, w: Entry, v: Entry)
    requires op.RoleAccess? && op.done.Some? && op.address != op.done.value.va
    requires L.AddWriter(env, s, op).status.Success? && Credited(s, op.done.value.va, L.PercentOfFee(75), v)
    requires w == s.nodes[op.address].(role := Writer, wk := op.iw, stake := STAKE,
                                       balance := s.nodes[op.address].balance - FEE - STAKE)
    ensures L.AddWriter(env, s, op).ledger
         == WriterAdded(s, op, w, v)
  {
  }

  lemma RemovedWriter(env: L.Env, s: L.Ledger, op: L.Op, w: Entry, v: Entry)
    requires op.RoleAccess? && op.done.Some? && op.address != op.done.value.va
    requires L.RemoveWriter(env, s, op).status.Success? && Credited(s, op.done.value.va, L.PercentOfFee(75), v)
    requires var e := s.nodes[op.address]; w == e.(role := Whitelisted, balance := e.balance - FEE + e.stake, stake := 0)
    ensures L.RemoveWriter(env, s, op).ledger
         == s.(base := s.base - {op.iw}, nodes := s.nodes[op.address := w][op.done.value.va := v], txs := s.txs[op.tx := op])
  {
  }

  lemma RecoveredAdmin(env: L.Env, s: L.Ledger, op: L.Op, w: Entry, v: Entry)
    requires op.RoleAccess? && op.done.Some? && op.address != op.done.value.va
    requires L.AdminRecovery(env, s, op).status.Success? && Credited(s, op.done.value.va, L.PercentOfFee(75), v)
    requires var e := s.nodes[op.address]; w == e.(wk := op.iw, balance := e.balance - FEE)
    ensures L.AdminRecovery(env, s, op).ledger
         == s.(base := (s.base - {s.admin.value.wk})[op.iw := true], writerKeys := s.writerKeys[op.iw := op.address],
               admin := Some(L.AdminEntry(op.address, op.iw)),
               nodes := s.nodes[op.address := w][op.done.value.va := v], txs := s.txs[op.tx := op])
  {
  }

  lemma DeployedBootstrap(env: L.Env, s: L.Ledger, op: L.Op, w: Entry, v: Entry)
    requires op.BootstrapDeployment? && op.done.Some? && op.address != op.done.value.va
    requires L.DeployBootstrap(env, s, op).status.Success? && Credited(s, op.done.value.va, L.PercentOfFee(75), v)
    requires var e := s.nodes[op.address]; w == e.(balance := e.balance - FEE)
    ensures L.DeployBootstrap(env, s, op).ledger
         == s.(deployments := s.deployments[op.bs := L.Deployment(op.tx, op.address)],
               nodes := s.nodes[op.address := w][op.done.value.va := v], txs := s.txs[op.tx := op])
  {
  }

  lemma SplitFee(env: L.Env, s: L.Ledger, requester: Address, va: Address, creator: Address, w: Entry, v: Entry, c: Entry)
    requires requester != va && L.TransferFee(env, s, requester, va, creator).status.Success?
    requires w == s.nodes[requester].(balance := s.nodes[requester].balance - FEE)
    requires Credited(s, va, L.PercentOfFee(50) + if creator == va then L.PercentOfFee(25) else 0, v)
    requires creator != requester && creator != va ==> Credited(s, creator, L.PercentOfFee(25), c)
    ensures L.TransferFee(env, s, requester, va, creator).nodes
         == if creator != requester && creator != va then s.nodes[requester := w][va := v][creator := c]
            else s.nodes[requester := w][va := v]
  {
    var n := if creator != requester && creator != va then s.nodes[requester := w][va := v][creator := c]
             else s.nodes[requester := w][va := v];
    assert n.Keys == L.TransferFee(env, s, requester, va, creator).nodes.Keys;
  }

  /** The ledger after a new admin. */
  ghost function AdminAdded(s: L.Ledger, op: L.Op): L.Ledger
    requires op.CoreAdmin?
  {
    var license := s.licenseCount + 1;
    s.(licenseCount := license, licenseIndex := s.licenseIndex[license := op.address],
       nodes := s.nodes[op.address := Entry(Indexer, op.iw, ADMIN_INITIAL_BALANCE, license, STAKE)],
       writerKeys := s.writerKeys[op.iw := op.address],
       writersIndex := s.writersIndex[s.writersLength := op.address], writersLength := s.writersLength + 1,
       admin := Some(L.AdminEntry(op.address, op.iw)), initialization := Some(true), txs := s.txs[op.tx := op])
  }

  ghost predicate AdminCharged(s: L.Ledger, op: L.Op, f: Entry) {
    && op.AdminControl? && op.address in s.nodes && s.nodes[op.address].balance >= FEE
    && f == s.nodes[op.address].(balance := s.nodes[op.address].balance - FEE)
  }

  lemma AddedIndexer(s: L.Ledger, op: L.Op, e: Entry, f: Entry)
    requires AdminCharged(s, op, f) && L.AddIndexer(s, op).status.Success? && e == s.nodes[op.ia].(role := Indexer)
    ensures L.AddIndexer(s, op).ledger
         == s.(base := (s.base - {e.wk})[e.wk := true], nodes := s.nodes[op.ia := e][op.address := f], txs := s.txs[op.tx := op])
  {
  }

  lemma RemovedIndexer(s: L.Ledger, op: L.Op, e: Entry, f: Entry)
    requires AdminCharged(s, op, f) && L.RemoveIndexer(s, op).status.Success? && e == s.nodes[op.ia].(role := Writer)
    ensures L.RemoveIndexer(s, op).ledger
         == s.(base := (s.base - {e.wk})[e.wk := false],
               writersIndex := s.writersIndex[s.writersLength := op.ia], writersLength := s.writersLength + 1,
               nodes := s.nodes[op.ia := e][op.address := f], txs := s.txs[op.tx := op])
  {
  }

  lemma Banned(env: L.Env, s: L.Ledger, op: L.Op, e: Entry, f: Entry)
    requires AdminCharged(s, op, f) && L.BanValidator(env, s, op).status.Success?
    requires var was := s.nodes[op.ia];
             e == if was.role.Writer? then was.(role := Reader, balance := was.balance + was.stake, stake := 0)
                  else was.(role := Reader)
    ensures L.BanValidator(env, s, op).ledger
         == s.(base := if s.nodes[op.ia].role.Writer? then s.base - {e.wk} else s.base,
               nodes := s.nodes[op.ia := e][op.address := f], txs := s.txs[op.tx := op])
  {
  }

  /** A penalty on a registered key whose owner has an entry. */
  lemma Slashed(env: L.Env, s: L.Ledger, key: Key, n: nat)
    requires s.admin.Some? && s.admin.value.wk != key && key in s.writerKeys && n <= BATCH_SIZE
    requires L.AddressValid(env, s.writerKeys[key]) && s.writerKeys[key] in s.nodes
    ensures var e := s.nodes[s.writerKeys[key]];
            var left := if FEE * n >= e.stake then 0 else e.stake - FEE * n;
            L.Penalize(env, s, key, n)
            == if left > 0 && e.balance + left >= env.cap then s
               else s.(base := s.base - {key},
                       nodes := s.nodes[s.writerKeys[key] := e.(role := Whitelisted, balance := e.balance + left, stake := 0)])
  {
  }

  /** A first write to a key that is written again later makes no difference. */
  lemma Overwritten(m: map<Address, Entry>, to: Address, x: Entry, a: Address, e: Entry, va: Address, v: Entry)
    requires to != a
    ensures m[to := x][a := e][va := v][to := if to == va then v else x] == if to == va then m[a := e][va := v] else m[a := e][va := v][to := x]
    ensures to == va ==> m[to := x][a := e][va := v] == m[a := e][va := v]
  {
  }

  ghost predicate PaidBy(s: L.Ledger, sender: Address, to: Address, am: Amount, e: Entry) {
    var total := if to == sender then FEE else am + FEE;
    sender in s.nodes && s.nodes[sender].balance >= total
    && e == s.nodes[sender].(balance := s.nodes[sender].balance - total)
  }

  ghost predicate PaidTo(s: L.Ledger, to: Address, am: Amount, e: Entry) {
    e == if to in s.nodes then s.nodes[to].(balance := s.nodes[to].balance + am) else L.NewReader(am)
  }

  /** The two halves of a transfer in turn decide its status. */
  lemma TransferStatus(env: L.Env, s: L.Ledger, sender: Address, to: Address, va: Address, am: Amount)
    requires va in s.nodes
    ensures L.TransferFunds(env, s, sender, to, va, am).status
         == var paid := PaymentStatus(env, s, sender, to, va, am);
            if paid.Success? then RewardStatus(s.nodes[va].balance, if to == va then Some(am) else None, env.cap) else paid
  {
  }

  /** What paying the sender's part and crediting a third party comes to. */
  ghost function PaymentStatus(env: L.Env, s: L.Ledger, sender: Address, to: Address, va: Address, am: Amount): L.Status {
    var total := if to == sender then FEE else am + FEE;
    if total >= AMOUNT_LIMIT || sender !in s.nodes then L.Failure
    else if s.nodes[sender].balance < total then L.Ignore
    else if to != sender && to != va && to in s.nodes && !L.CanCredit(env, s, to, am) then L.Failure
    else L.Success
  }

  /** What crediting the validator comes to: adding the transfer first, if it gets it, and then the reward. */
  ghost function RewardStatus(balance: nat, transfer: Option<nat>, cap: nat): L.Status {
    if transfer.Some? && balance + transfer.value >= cap then L.Thrown
    else if balance + (if transfer.Some? then transfer.value else 0) + L.PercentOfFee(75) >= cap then L.Failure
    else L.Success
  }

  /** A successful transfer, entry by entry. */
  lemma TransferEntries(env: L.Env, s: L.Ledger, sender: Address, to: Address, va: Address, am: Amount,
                        e: Entry, r: Entry, v: Entry)
    requires sender != va && L.TransferFunds(env, s, sender, to, va, am).status.Success?
    requires PaidBy(s, sender, to, am, e) && (to != sender && to != va ==> PaidTo(s, to, am, r))
    requires v == s.nodes[va].(balance := s.nodes[va].balance + (if to == va then am else 0) + L.PercentOfFee(75))
    ensures L.TransferFunds(env, s, sender, to, va, am).nodes
         == if to != sender && to != va then s.nodes[sender := e][va := v][to := r] else s.nodes[sender := e][va := v]
  {
    var n := if to != sender && to != va then s.nodes[sender := e][va := v][to := r] else s.nodes[sender := e][va := v];
    assert n.Keys == L.TransferFunds(env, s, sender, to, va, am).nodes.Keys;
  }

  /** The second half of a transfer settles the whole. */
  lemma TransferSettles(env: L.Env, s: L.Ledger, op: L.Op, e: Entry, r: Entry, v: Entry, status: L.Status)
    requires op.Transfer? && op.done.Some? && op.address != op.done.value.va && op.done.value.va in s.nodes
    requires PaymentStatus(env, s, op.address, op.to, op.done.value.va, op.am).Success?
    requires PaidBy(s, op.address, op.to, op.am, e) && (op.to != op.address && op.to != op.done.value.va ==> PaidTo(s, op.to, op.am, r))
    requires var e := s.nodes[op.done.value.va];
             && status == RewardStatus(e.balance, if op.to == op.done.value.va then Some(op.am) else None, env.cap)
             && (status.Success? ==>
                 v == e.(balance := e.balance + (if op.to == op.done.value.va then op.am else 0) + L.PercentOfFee(75)))
    ensures var va := op.done.value.va;
            var n := s.nodes[op.address := e][va := v];
            L.Settle(s, L.TransferFunds(env, s, op.address, op.to, va, op.am), op)
            == L.Outcome(status, if !status.Success? then s
                                 else s.(nodes := if op.to != op.address && op.to != va then n[op.to := r] else n,
                                         txs := s.txs[op.tx := op]))
  {
    TransferStatus(env, s, op.address, op.to, op.done.value.va, op.am);
    hide L.TransferFunds, PaidBy, PaidTo, PaymentStatus, RewardStatus, L.PercentOfFee;
    if status.Success? { TransferEntries(env, s, op.address, op.to, op.done.value.va, op.am, e, r, v); }
  }
}
