/**
 What a ledger never forgets: recorded operations, registered keys, deployments, licences,
 the admin's address and the end of initialization. Recorded hashes are what makes an
 operation take effect at most once.
 */
module History {
  import opened Bytes
  import opened Records
  import opened Ledger
  import opened Dispatch
  import opened Invariant
  import opened Runs

  /** Keys are only added; none is lost or given another value. */
  ghost predicate Grows<K, V>(m: map<K, V>, m': map<K, V>) {
    forall k {:trigger k in m'} :: k in m ==> k in m' && m'[k] == m[k]
  }

  /** Entries stay, and a nonzero licence never changes. */
  ghost predicate KeepsLicenses(n: map<Address, Entry>, n': map<Address, Entry>) {
    forall a {:trigger a in n'} :: a in n ==>
      a in n' && (n[a].license != 0 ==> n'[a].license == n[a].license)
  }

  /** Everything registered in s is still there, unchanged, in s'. */
  ghost predicate Extends(s: Ledger, s': Ledger) {
    && Grows(s.txs, s'.txs) && Grows(s.writerKeys, s'.writerKeys)
    && Grows(s.deployments, s'.deployments) && Grows(s.licenseIndex, s'.licenseIndex)
    && KeepsLicenses(s.nodes, s'.nodes)
    && (s.admin.Some? ==> s'.admin.Some? && s'.admin.value.address == s.admin.value.address)
    && (InitializationDisabled(s) ==> InitializationDisabled(s'))
  }

  lemma GrowsIsTransitive<K, V>(m: map<K, V>, n: map<K, V>, o: map<K, V>)
    requires Grows(m, n) && Grows(n, o)
    ensures Grows(m, o)
  {
    forall k | k in m ensures k in o && o[k] == m[k] { assert k in n; }
  }

  lemma ExtendsItself(s: Ledger)
    ensures Extends(s, s)
  {
  }

  lemma ExtendsIsTransitive(s: Ledger, t: Ledger, u: Ledger)
    requires Extends(s, t) && Extends(t, u)
    ensures Extends(s, u)
  {
    GrowsIsTransitive(s.txs, t.txs, u.txs);
    GrowsIsTransitive(s.writerKeys, t.writerKeys, u.writerKeys);
    GrowsIsTransitive(s.deployments, t.deployments, u.deployments);
    GrowsIsTransitive(s.licenseIndex, t.licenseIndex, u.licenseIndex);
    forall a | a in s.nodes
      ensures a in u.nodes && (s.nodes[a].license != 0 ==> u.nodes[a].license == s.nodes[a].license) {
      assert a in t.nodes;
    }
  }

  // ---------- one operation ----------

  /** Nothing changed, or the operation was recorded under its own hash, and nothing else was. */
  ghost predicate Atomic(s: Ledger, op: Op, o: Outcome) {
    if o.status.Success? then o.ledger.txs == s.txs[op.tx := op] else o.ledger == s
  }

  lemma WhitelistIsAtomic(s: Ledger, op: Op)
    requires op.AdminControl?
    ensures Atomic(s, op, AppendWhitelist(s, op))
  {
    if AppendWhitelist(s, op).status.Success? {
      WhitelistFrame(PayForWhitelist(s, op.address), op.ia, ReadEntry(s, op.ia));
    }
    hide Whitelist, ReadEntry;
  }

  lemma ControlIsAtomic(env: Env, s: Ledger, op: Op)
    requires op.AdminControl?
    ensures Atomic(s, op, ControlEffect(env, s, op))
  {
    match op.control
    case Whitelisting => WhitelistIsAtomic(s, op);
    case IndexerAddition => assert Atomic(s, op, AddIndexer(s, op));
    case IndexerRemoval => assert Atomic(s, op, RemoveIndexer(s, op));
    case Ban => assert Atomic(s, op, BanValidator(env, s, op));
  }

  lemma ValidatorIsAtomic(env: Env, s: Ledger, op: Op)
    requires op.ByValidator() && op.done.Some? && (op.SubnetTx? ==> op.bs in s.deployments)
    ensures Atomic(s, op, ValidatorEffect(env, s, op))
  {
    if op.RoleAccess? {
      match op.access
      case WriterAddition => assert Atomic(s, op, AddWriter(env, s, op));
      case WriterRemoval => assert Atomic(s, op, RemoveWriter(env, s, op));
      case Recovery => assert Atomic(s, op, AdminRecovery(env, s, op));
    } else if op.BootstrapDeployment? {
      assert Atomic(s, op, DeployBootstrap(env, s, op));
    } else {
      assert Atomic(s, op, Settle(s, FundsEffect(env, s, op), op));
    }
  }

  /** Failed, ignored and thrown operations change nothing; a successful one had a new hash,
      records it with itself, and records nothing else. */
  lemma EffectIsAtomic(env: Env, s: Ledger, from: Key, op: Op)
    ensures var o := ApplyOp(env, s, from, op);
            if o.status.Success? then op.tx !in s.txs && o.ledger.txs == s.txs[op.tx := op]
            else o.ledger == s
  {
    if op.AdminControl? {
      ControlDispatch(env, s, from, op);
      ControlIsAtomic(env, s, op);
    } else if op.ByValidator() {
      ValidatorDispatch(env, s, from, op);
      if ValidatorGuards(env, s, from, op) { ValidatorIsAtomic(env, s, op); }
    } else {
      CoreDispatch(env, s, from, op);
    }
  }

  /** An operation whose hash is recorded fails or is ignored, and changes nothing. */
  lemma ReplayChangesNothing(env: Env, s: Ledger, from: Key, op: Op)
    requires op.tx in s.txs
    ensures Refused(s, ApplyOp(env, s, from, op))
  {
    if op.AdminControl? {
      ControlDispatch(env, s, from, op);
    } else if op.ByValidator() {
      ValidatorDispatch(env, s, from, op);
    } else {
      CoreDispatch(env, s, from, op);
    }
  }

  // ---------- nothing registered is lost ----------

  /** What that rests on: licence numbers are given out in order, and before there is an admin there are
      neither entries nor the flag. */
  ghost predicate Rooted(s: Ledger) {
    && (forall i {:trigger i in s.licenseIndex} :: i in s.licenseIndex ==> i <= s.licenseCount)
    && (s.admin.None? ==> s.nodes == map[] && s.initialization.None?)
  }

  lemma InvIsRooted(env: Env, s: Ledger)
    requires Inv(env, s)
    ensures Rooted(s)
  {
  }

  lemma WriteExtends(s: Ledger, a: Address, e: Entry)
    requires a in s.nodes ==> s.nodes[a].license == 0 || s.nodes[a].license == e.license
    ensures Extends(s, s.(nodes := s.nodes[a := e]))
  {
    assert KeepsLicenses(s.nodes, s.nodes[a := e]);
  }

  lemma WriteTwiceExtends(s: Ledger, a: Address, e: Entry, b: Address, f: Entry)
    requires a in s.nodes ==> s.nodes[a].license == 0 || s.nodes[a].license == e.license
    requires var m := s.nodes[a := e]; b in m ==> m[b].license == 0 || m[b].license == f.license
    ensures Extends(s, s.(nodes := s.nodes[a := e][b := f]))
  {
    WriteExtends(s, a, e);
    var t := s.(nodes := s.nodes[a := e]);
    WriteExtends(t, b, f);
    ExtendsIsTransitive(s, t, t.(nodes := t.nodes[b := f]));
  }

  lemma RecordExtends(s: Ledger, t: Ledger, op: Op)
    requires Extends(s, t) && op.tx !in t.txs
    ensures Extends(s, Record(t, op).ledger)
  {
    assert Grows(t.txs, t.txs[op.tx := op]);
    ExtendsIsTransitive(s, t, Record(t, op).ledger);
  }

  lemma WhitelistExtends(s: Ledger, a: Address, read: Option<Entry>)
    requires (s.licenseCount + 1) !in s.licenseIndex
    requires a in s.nodes ==> read.Some? && read.value.license == s.nodes[a].license
    ensures Extends(s, Whitelist(s, a, read)) && Whitelist(s, a, read).txs == s.txs
  {
    if read.Some? && read.value.license != 0 {
      WriteExtends(s, a, read.value.(role := Whitelisted));
    } else {
      var t := AssignLicense(s, a);
      assert Grows(s.licenseIndex, t.licenseIndex);
      var e := (if read.Some? then read.value else NewReader(0)).(role := Whitelisted, license := t.licenseCount);
      WriteExtends(t, a, e);
      ExtendsIsTransitive(s, t, t.(nodes := t.nodes[a := e]));
    }
  }

  lemma AppendWhitelistExtends(s: Ledger, op: Op)
    requires (s.licenseCount + 1) !in s.licenseIndex && op.AdminControl? && op.tx !in s.txs
    ensures Extends(s, AppendWhitelist(s, op).ledger)
  {
    ExtendsItself(s);
    hide Grows, KeepsLicenses, Whitelist;
    if AppendWhitelist(s, op).status.Success? {
      var paid := PayForWhitelist(s, op.address);
      if InitializationDisabled(s) { WriteExtends(s, op.address, paid.nodes[op.address]); }
      var t := Whitelist(paid, op.ia, ReadEntry(s, op.ia));
      WhitelistExtends(paid, op.ia, ReadEntry(s, op.ia));
      ExtendsIsTransitive(s, paid, t);
      RecordExtends(s, t, op);
    }
  }

  lemma AddIndexerExtends(s: Ledger, op: Op)
    requires op.AdminControl? && op.tx !in s.txs
    ensures Extends(s, AddIndexer(s, op).ledger)
  {
    var s' := AddIndexer(s, op).ledger;
    if AddIndexer(s, op).status.Success? {
      WriteTwiceExtends(s, op.ia, s.nodes[op.ia].(role := Indexer), op.address, s'.nodes[op.address]);
      RecordExtends(s, s'.(txs := s.txs), op);
    }
  }

  lemma RemoveIndexerExtends(s: Ledger, op: Op)
    requires op.AdminControl? && op.tx !in s.txs
    ensures Extends(s, RemoveIndexer(s, op).ledger)
  {
    var s' := RemoveIndexer(s, op).ledger;
    if RemoveIndexer(s, op).status.Success? {
      WriteTwiceExtends(s, op.ia, s.nodes[op.ia].(role := Writer), op.address, s'.nodes[op.address]);
      RecordExtends(s, s'.(txs := s.txs), op);
    }
  }

  lemma BanExtends(env: Env, s: Ledger, op: Op)
    requires op.AdminControl? && op.tx !in s.txs
    ensures Extends(s, BanValidator(env, s, op).ledger)
  {
    ExtendsItself(s);
    hide Grows, KeepsLicenses;
    if BanValidator(env, s, op).status.Success? {
      var e, admin := s.nodes[op.ia], s.nodes[op.address];
      var banned := if e.role.Writer? then e.(role := Reader, balance := e.balance + e.stake, stake := 0)
                    else e.(role := Reader);
      var t := s.(nodes := s.nodes[op.ia := banned][op.address := admin.(balance := admin.balance - FEE)]);
      WriteTwiceExtends(s, op.ia, banned, op.address, admin.(balance := admin.balance - FEE));
      RecordExtends(s, t, op);
    }
  }

  /** The requester's entry is rewritten, then the validator is credited. */
  lemma RequestExtends(s: Ledger, a: Address, e: Entry, va: Address, amount: nat)
    requires a in s.nodes && va in s.nodes && e.license == s.nodes[a].license
    ensures Extends(s, s.(nodes := Credit(s.nodes[a := e], va, amount)))
  {
    var m := s.nodes[a := e];
    WriteTwiceExtends(s, a, e, va, m[va].(balance := m[va].balance + amount));
  }

  lemma AddWriterExtends(env: Env, s: Ledger, op: Op)
    requires op.RoleAccess? && op.done.Some? && op.tx !in s.txs
    ensures Extends(s, AddWriter(env, s, op).ledger)
  {
    ExtendsItself(s);
    hide KeepsLicenses;
    var s' := AddWriter(env, s, op).ledger;
    if AddWriter(env, s, op).status.Success? {
      var e := s.nodes[op.address];
      var writer := e.(role := Writer, wk := op.iw, balance := e.balance - FEE - STAKE, stake := STAKE);
      RequestExtends(s, op.address, writer, op.done.value.va, PercentOfFee(75));
      assert Grows(s.writerKeys, s'.writerKeys);
      RecordExtends(s, s'.(txs := s.txs), op);
    }
  }

  lemma RemoveWriterExtends(env: Env, s: Ledger, op: Op)
    requires op.RoleAccess? && op.done.Some? && op.tx !in s.txs
    ensures Extends(s, RemoveWriter(env, s, op).ledger)
  {
    ExtendsItself(s);
    hide KeepsLicenses;
    var s' := RemoveWriter(env, s, op).ledger;
    if RemoveWriter(env, s, op).status.Success? {
      var e := s.nodes[op.address];
      var removed := e.(role := Whitelisted, balance := e.balance - FEE + e.stake, stake := 0);
      RequestExtends(s, op.address, removed, op.done.value.va, PercentOfFee(75));
      RecordExtends(s, s'.(txs := s.txs), op);
    }
  }

  lemma AdminRecoveryExtends(env: Env, s: Ledger, op: Op)
    requires op.RoleAccess? && op.done.Some? && op.tx !in s.txs
    ensures Extends(s, AdminRecovery(env, s, op).ledger)
  {
    ExtendsItself(s);
    hide KeepsLicenses;
    var s' := AdminRecovery(env, s, op).ledger;
    if AdminRecovery(env, s, op).status.Success? {
      var e := s.nodes[op.address];
      RequestExtends(s, op.address, e.(wk := op.iw, balance := e.balance - FEE), op.done.value.va, PercentOfFee(75));
      assert Grows(s.writerKeys, s'.writerKeys);
      RecordExtends(s, s'.(txs := s.txs), op);
    }
  }

  lemma DeployBootstrapExtends(env: Env, s: Ledger, op: Op)
    requires op.BootstrapDeployment? && op.done.Some? && op.tx !in s.txs
    ensures Extends(s, DeployBootstrap(env, s, op).ledger)
  {
    ExtendsItself(s);
    hide KeepsLicenses;
    var s' := DeployBootstrap(env, s, op).ledger;
    if DeployBootstrap(env, s, op).status.Success? {
      var e := s.nodes[op.address];
      RequestExtends(s, op.address, e.(balance := e.balance - FEE), op.done.value.va, PercentOfFee(75));
      assert Grows(s.deployments, s'.deployments);
      RecordExtends(s, s'.(txs := s.txs), op);
    }
  }

  lemma AccessExtends(env: Env, s: Ledger, op: Op)
    requires op.RoleAccess? && op.done.Some? && op.tx !in s.txs
    ensures Extends(s, AccessEffect(env, s, op).ledger)
  {
    match op.access
    case WriterAddition => AddWriterExtends(env, s, op);
    case WriterRemoval => RemoveWriterExtends(env, s, op);
    case Recovery => AdminRecoveryExtends(env, s, op);
  }

  lemma ControlExtends(env: Env, s: Ledger, op: Op)
    requires Rooted(s) && op.AdminControl? && op.tx !in s.txs
    ensures Extends(s, ControlEffect(env, s, op).ledger)
  {
    if op.control.Whitelisting? { AppendWhitelistExtends(s, op); }
    else if op.control.Ban? { BanExtends(env, s, op); }
    else if op.control.IndexerAddition? { AddIndexerExtends(s, op); }
    else { RemoveIndexerExtends(s, op); }
  }

  lemma FundsKeepLicenses(env: Env, s: Ledger, op: Op)
    requires (op.Transfer? || op.SubnetTx?) && op.done.Some? && (op.SubnetTx? ==> op.bs in s.deployments)
    ensures KeepsLicenses(s.nodes, FundsEffect(env, s, op).nodes)
  {
  }

  lemma ValidatorExtends(env: Env, s: Ledger, op: Op)
    requires op.ByValidator() && op.done.Some? && (op.SubnetTx? ==> op.bs in s.deployments) && op.tx !in s.txs
    ensures Extends(s, ValidatorEffect(env, s, op).ledger)
  {
    var s' := ValidatorEffect(env, s, op).ledger;
    if op.RoleAccess? {
      AccessExtends(env, s, op);
    } else if op.BootstrapDeployment? {
      DeployBootstrapExtends(env, s, op);
    } else {
      FundsKeepLicenses(env, s, op);
      RecordExtends(s, s.(nodes := FundsEffect(env, s, op).nodes), op);
    }
  }

  lemma AddAdminExtends(env: Env, s: Ledger, from: Key, op: Op)
    requires Rooted(s) && op.CoreAdmin?
    ensures Extends(s, ApplyAddAdmin(env, s, from, op).ledger)
  {
    hide Authentic, UpToDate;
    var s' := ApplyAddAdmin(env, s, from, op).ledger;
    assert KeepsLicenses(s.nodes, s'.nodes) && Grows(s.licenseIndex, s'.licenseIndex);
  }

  lemma CoreExtends(env: Env, s: Ledger, from: Key, op: Op)
    requires Rooted(s) && (op.CoreAdmin? || op.BalanceInitialization?)
    ensures Extends(s, ApplyOp(env, s, from, op).ledger)
  {
    CoreDispatch(env, s, from, op);
    ExtendsItself(s);
    hide Rooted, Grows, KeepsLicenses;
    var s' := ApplyOp(env, s, from, op).ledger;
    if s' == s {
    } else if op.BalanceInitialization? {
      assert s' == ApplyBalanceInitialization(env, s, from, op).ledger;
      WriteExtends(s, op.ia, s'.nodes[op.ia]);
      RecordExtends(s, s'.(txs := s.txs), op);
    } else if op.core.AdminAddition? {
      AddAdminExtends(env, s, from, op);
    } else {
      assert s' == ApplyDisableInitialization(env, s, from, op).ledger;
    }
  }

  /** Whatever an operation does, everything registered before it stays as it was. */
  lemma OperationExtends(env: Env, s: Ledger, from: Key, op: Op)
    requires Rooted(s)
    ensures Extends(s, ApplyOp(env, s, from, op).ledger)
  {
    if op.AdminControl? {
      ControlDispatch(env, s, from, op);
      if AdminGuards(s, from, op) { ControlExtends(env, s, op); }
    } else if op.ByValidator() {
      ValidatorDispatch(env, s, from, op);
      if ValidatorGuards(env, s, from, op) { ValidatorExtends(env, s, op); }
    } else {
      CoreExtends(env, s, from, op);
    }
  }

  /** Licences are only given out under the next number. */
  ghost predicate SameLicenses(s: Ledger, s': Ledger) {
    s'.licenseIndex == s.licenseIndex && s'.licenseCount == s.licenseCount
  }

  lemma WhitelistStaysRooted(s: Ledger, op: Op)
    requires Rooted(s) && op.AdminControl? && s.admin.Some?
    ensures Rooted(AppendWhitelist(s, op).ledger)
  {
    if AppendWhitelist(s, op).status.Success? {
      LicensesInOrder(PayForWhitelist(s, op.address), op.ia, ReadEntry(s, op.ia));
    }
    hide Whitelist, ReadEntry;
  }

  lemma LicensesInOrder(s: Ledger, a: Address, read: Option<Entry>)
    requires Rooted(s) && s.admin.Some?
    ensures Rooted(Whitelist(s, a, read)) && Whitelist(s, a, read).admin == s.admin
  {
  }

  /** Same licences, and an admin if there was one. */
  ghost predicate RootedLike(s: Ledger, s': Ledger) {
    SameLicenses(s, s') && (s.admin.Some? ==> s'.admin.Some?)
  }

  lemma IndexersRooted(s: Ledger, op: Op)
    requires op.AdminControl?
    ensures RootedLike(s, AddIndexer(s, op).ledger) && RootedLike(s, RemoveIndexer(s, op).ledger)
  {
    hide Indexers;
  }

  lemma BanRooted(env: Env, s: Ledger, op: Op)
    requires op.AdminControl?
    ensures RootedLike(s, BanValidator(env, s, op).ledger)
  {
  }

  lemma ControlStaysRooted(env: Env, s: Ledger, op: Op)
    requires Rooted(s) && op.AdminControl? && s.admin.Some?
    ensures Rooted(ControlEffect(env, s, op).ledger)
  {
    hide AppendWhitelist, AddIndexer, RemoveIndexer, BanValidator;
    match op.control
    case Whitelisting => WhitelistStaysRooted(s, op);
    case IndexerAddition => IndexersRooted(s, op);
    case IndexerRemoval => IndexersRooted(s, op);
    case Ban => BanRooted(env, s, op);
  }

  lemma AddWriterRooted(env: Env, s: Ledger, op: Op)
    requires op.RoleAccess? && op.done.Some?
    ensures RootedLike(s, AddWriter(env, s, op).ledger)
  {
    hide Credit;
  }

  lemma RemovalsRooted(env: Env, s: Ledger, op: Op)
    requires op.RoleAccess? && op.done.Some?
    ensures RootedLike(s, RemoveWriter(env, s, op).ledger) && RootedLike(s, AdminRecovery(env, s, op).ledger)
  {
    hide Credit, Indexers;
  }

  lemma DeployRooted(env: Env, s: Ledger, op: Op)
    requires op.BootstrapDeployment? && op.done.Some?
    ensures RootedLike(s, DeployBootstrap(env, s, op).ledger)
  {
    hide Credit, Debit;
  }

  lemma ValidatorKeepsLicenses(env: Env, s: Ledger, op: Op)
    requires op.ByValidator() && op.done.Some? && (op.SubnetTx? ==> op.bs in s.deployments)
    ensures RootedLike(s, ValidatorEffect(env, s, op).ledger)
  {
    hide TransferFee, TransferFunds, AddWriter, RemoveWriter, AdminRecovery, DeployBootstrap;
    if op.RoleAccess? {
      AddWriterRooted(env, s, op);
      RemovalsRooted(env, s, op);
    } else if op.BootstrapDeployment? {
      DeployRooted(env, s, op);
    }
  }

  lemma CoreStaysRooted(env: Env, s: Ledger, from: Key, op: Op)
    requires Rooted(s) && (op.CoreAdmin? || op.BalanceInitialization?)
    ensures Rooted(ApplyOp(env, s, from, op).ledger)
  {
    CoreDispatch(env, s, from, op);
    hide AdminCall, Authentic, UpToDate, AddressValid;
    if op.BalanceInitialization? {
      assert ApplyOp(env, s, from, op) == ApplyBalanceInitialization(env, s, from, op);
    } else if op.core.AdminAddition? {
      assert ApplyOp(env, s, from, op) == ApplyAddAdmin(env, s, from, op);
    } else {
      assert ApplyOp(env, s, from, op) == ApplyDisableInitialization(env, s, from, op);
    }
  }

  lemma OperationStaysRooted(env: Env, s: Ledger, from: Key, op: Op)
    requires Rooted(s)
    ensures Rooted(ApplyOp(env, s, from, op).ledger)
  {
    if op.AdminControl? {
      ControlDispatch(env, s, from, op);
      if AdminGuards(s, from, op) { ControlStaysRooted(env, s, op); }
    } else if op.ByValidator() {
      ValidatorDispatch(env, s, from, op);
      hide ValidatorEffect;
      if ValidatorGuards(env, s, from, op) { ValidatorKeepsLicenses(env, s, op); }
    } else {
      CoreStaysRooted(env, s, from, op);
    }
  }

  // ---------- batches and runs ----------

  lemma {:induction false} NodesExtend(env: Env, s: Ledger, nodes: seq<Node>)
    requires Rooted(s)
    ensures var s' := ApplyNodes(env, s, nodes).ledger; Extends(s, s') && Rooted(s')
  {
    hide Rooted, Extends, ApplyOp;
    if nodes == [] {
      ExtendsItself(s);
    } else {
      var before, last := nodes[..|nodes| - 1], nodes[|nodes| - 1];
      NodesExtend(env, s, before);
      var t := ApplyNodes(env, s, before).ledger;
      if last.payload.Operation? {
        OperationExtends(env, t, last.from, last.payload.op);
        OperationStaysRooted(env, t, last.from, last.payload.op);
        ExtendsIsTransitive(s, t, ApplyOp(env, t, last.from, last.payload.op).ledger);
      }
    }
  }

  lemma PenaltyExtends(env: Env, s: Ledger, key: Key, n: nat)
    requires Rooted(s)
    ensures Extends(s, Penalize(env, s, key, n)) && Rooted(Penalize(env, s, key, n))
  {
    assert KeepsLicenses(s.nodes, Penalize(env, s, key, n).nodes);
  }

  lemma BatchExtends(env: Env, s: Ledger, nodes: seq<Node>)
    requires Rooted(s) && nodes != []
    ensures var r := ApplyBatch(env, s, nodes); r.Some? ==> Extends(s, r.value) && Rooted(r.value)
  {
    var from, p := nodes[0].from, ApplyNodes(env, s, nodes);
    hide Rooted, Extends, ApplyNodes, Penalize;
    PenaltyExtends(env, s, from, BATCH_SIZE);
    NodesExtend(env, s, nodes);
    PenaltyExtends(env, p.ledger, from, p.invalid);
    ExtendsIsTransitive(s, p.ledger, Penalize(env, p.ledger, from, p.invalid));
  }

  /** Over any run, whoever signs its batches and whatever they hold, nothing registered is lost or changed. */
  lemma {:induction false} RunExtends(env: Env, s: Ledger, batches: seq<seq<Node>>)
    requires Rooted(s) && NonEmpty(batches)
    ensures var r := Run(env, s, batches); r.Some? ==> Extends(s, r.value) && Rooted(r.value)
  {
    hide Rooted, Extends, ApplyBatch;
    if batches == [] {
      ExtendsItself(s);
    } else {
      var before, last := batches[..|batches| - 1], batches[|batches| - 1];
      RunExtends(env, s, before);
      if Run(env, s, before).Some? {
        var t := Run(env, s, before).value;
        BatchExtends(env, t, last);
        if Run(env, s, batches).Some? { ExtendsIsTransitive(s, t, Run(env, s, batches).value); }
      }
    }
  }

  /** What any run from the empty store has registered at some point is there, unchanged, ever after. */
  lemma {:induction false} NothingIsLost(env: Env, batches: seq<seq<Node>>, i: nat)
    requires NonEmpty(batches) && i <= |batches| && Run(env, Genesis(env), batches).Some?
    ensures var r := Run(env, Genesis(env), batches[..i]);
            r.Some? && Extends(r.value, Run(env, Genesis(env), batches).value)
    decreases |batches|
  {
    hide Extends, Rooted, ApplyBatch;
    var u := Run(env, Genesis(env), batches).value;
    if i == |batches| {
      assert batches[..i] == batches;
      ExtendsItself(u);
    } else {
      var before, last := batches[..|batches| - 1], batches[|batches| - 1];
      NothingIsLost(env, before, i);
      assert before[..i] == batches[..i];
      var t := Run(env, Genesis(env), before).value;
      GenesisIsRooted(env);
      RunExtends(env, Genesis(env), before);
      BatchExtends(env, t, last);
      ExtendsIsTransitive(Run(env, Genesis(env), batches[..i]).value, t, u);
    }
  }

  lemma GenesisIsRooted(env: Env)
    ensures Rooted(Genesis(env))
  {
  }

  // ---------- at most one effect for each hash ----------

  /** How many operations carrying a hash succeed in a loop over nodes. */
  function Effects(env: Env, s: Ledger, nodes: seq<Node>, h: Hash): nat {
    if nodes == [] then 0
    else
      var before, last := nodes[..|nodes| - 1], nodes[|nodes| - 1];
      var p := ApplyNodes(env, s, before);
      Effects(env, s, before, h)
      + if !p.thrown && last.payload.Operation? && last.payload.op.tx == h
           && ApplyNode(env, p.ledger, last).status.Success? then 1 else 0
  }

  /** The same over a run. */
  function RunEffects(env: Env, s: Ledger, batches: seq<seq<Node>>, h: Hash): nat
    requires NonEmpty(batches)
  {
    if batches == [] then 0
    else
      var before, last := batches[..|batches| - 1], batches[|batches| - 1];
      var r := Run(env, s, before);
      RunEffects(env, s, before, h)
      + if r.Some? && |last| <= BATCH_SIZE && ApplyBatch(env, r.value, last).Some?
        then Effects(env, r.value, last, h) else 0
  }

  function Count(b: bool): nat { if b then 1 else 0 }

  lemma {:induction false} EffectsAreRecorded(env: Env, s: Ledger, nodes: seq<Node>, h: Hash)
    ensures Effects(env, s, nodes, h) + Count(h in s.txs) == Count(h in ApplyNodes(env, s, nodes).ledger.txs)
  {
    if nodes != [] {
      var before, last := nodes[..|nodes| - 1], nodes[|nodes| - 1];
      EffectsAreRecorded(env, s, before, h);
      if last.payload.Operation? {
        EffectIsAtomic(env, ApplyNodes(env, s, before).ledger, last.from, last.payload.op);
      }
    }
  }

  /** Over any run, an operation with a given hash takes effect exactly once if the hash has become
      recorded, and never otherwise; a hash recorded before the run has no effect at all. */
  lemma {:induction false} AtMostOnce(env: Env, s: Ledger, batches: seq<seq<Node>>, h: Hash)
    requires NonEmpty(batches) && Run(env, s, batches).Some?
    ensures RunEffects(env, s, batches, h) + Count(h in s.txs) == Count(h in Run(env, s, batches).value.txs)
  {
    if batches != [] {
      var before, last := batches[..|batches| - 1], batches[|batches| - 1];
      AtMostOnce(env, s, before, h);
      EffectsAreRecorded(env, Run(env, s, before).value, last, h);
    }
  }
}
