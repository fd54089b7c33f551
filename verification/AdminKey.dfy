/**
 Keys are registered to their owners after every run, whoever signs and whatever is signed. The
 admin's key stays the admin's through everything that key signs, so the admin is never penalised.
 */
module AdminKey {
  import opened Bytes
  import opened Records
  import opened Ledger
  import opened Dispatch
  import opened Runs

  /** Keys in entries, and the admin's key, are registered to their owners. */
  ghost predicate KeysRegistered(s: Ledger) {
    && (forall a {:trigger s.nodes[a]} :: a in s.nodes && s.nodes[a].wk != ZERO_WK ==>
          s.nodes[a].wk in s.writerKeys && s.writerKeys[s.nodes[a].wk] == a)
    && (s.admin.Some? ==>
        var admin := s.admin.value;
        admin.wk != ZERO_WK && admin.wk in s.writerKeys && s.writerKeys[admin.wk] == admin.address)
  }

  /** Entries keep their keys, and new ones have none. */
  ghost predicate SameKeys(n: map<Address, Entry>, n': map<Address, Entry>) {
    forall a {:trigger n'[a]} :: a in n' ==> n'[a].wk == if a in n then n[a].wk else ZERO_WK
  }

  lemma SameKeysTransitive(n: map<Address, Entry>, m: map<Address, Entry>, o: map<Address, Entry>)
    requires SameKeys(n, m) && SameKeys(m, o) && n.Keys <= m.Keys
    ensures SameKeys(n, o)
  {
  }

  lemma WritesKeepKeys(n: map<Address, Entry>, a: Address, e: Entry, b: Address, f: Entry)
    requires e.wk == if a in n then n[a].wk else ZERO_WK
    requires f.wk == if b in n then n[b].wk else ZERO_WK
    ensures SameKeys(n, n[a := e]) && SameKeys(n, n[a := e][b := f])
  {
  }

  /** Same registry and admin, same keys in the entries. */
  ghost predicate KeyFrame(s: Ledger, s': Ledger) {
    s'.writerKeys == s.writerKeys && s'.admin == s.admin && SameKeys(s.nodes, s'.nodes)
  }

  lemma FrameRegisters(s: Ledger, s': Ledger)
    requires KeysRegistered(s) && KeyFrame(s, s')
    ensures KeysRegistered(s')
  {
  }

  lemma WhitelistKeepsKeys(s: Ledger, a: Address, read: Option<Entry>)
    requires if read.Some? then a in s.nodes && read.value.wk == s.nodes[a].wk else a !in s.nodes
    ensures KeyFrame(s, Whitelist(s, a, read)) && s.nodes.Keys <= Whitelist(s, a, read).nodes.Keys
  {
  }

  lemma AppendWhitelistFrame(s: Ledger, op: Op)
    requires op.AdminControl?
    ensures KeyFrame(s, AppendWhitelist(s, op).ledger)
  {
    if AppendWhitelist(s, op).status.Success? {
      var paid, read := PayForWhitelist(s, op.address), ReadEntry(s, op.ia);
      assert KeyFrame(s, paid) && paid.nodes.Keys == s.nodes.Keys;
      WhitelistKeepsKeys(paid, op.ia, read);
      hide SameKeys, Whitelist, PayForWhitelist;
      SameKeysTransitive(s.nodes, paid.nodes, Whitelist(paid, op.ia, read).nodes);
    } else {
      assert SameKeys(s.nodes, s.nodes);
    }
  }

  lemma SameKeysAsBefore(n: map<Address, Entry>)
    ensures SameKeys(n, n)
  {
  }

  lemma AddIndexerFrame(s: Ledger, op: Op)
    requires op.AdminControl?
    ensures KeyFrame(s, AddIndexer(s, op).ledger)
  {
    hide SameKeys, Indexers;
    SameKeysAsBefore(s.nodes);
    var t := AddIndexer(s, op);
    if t.status.Success? {
      var e, admin := s.nodes[op.ia].(role := Indexer), s.nodes[op.address];
      WritesKeepKeys(s.nodes, op.ia, e, op.address, admin.(balance := admin.balance - FEE));
    }
  }

  lemma RemoveIndexerFrame(s: Ledger, op: Op)
    requires op.AdminControl?
    ensures KeyFrame(s, RemoveIndexer(s, op).ledger)
  {
    hide SameKeys, Indexers;
    SameKeysAsBefore(s.nodes);
    var t := RemoveIndexer(s, op);
    if t.status.Success? {
      var e, admin := s.nodes[op.ia].(role := Writer), s.nodes[op.address];
      WritesKeepKeys(s.nodes, op.ia, e, op.address, admin.(balance := admin.balance - FEE));
    }
  }

  lemma BanFrame(env: Env, s: Ledger, op: Op)
    requires op.AdminControl?
    ensures KeyFrame(s, BanValidator(env, s, op).ledger)
  {
    hide SameKeys;
    SameKeysAsBefore(s.nodes);
    var t := BanValidator(env, s, op);
    if t.status.Success? {
      var e, admin := s.nodes[op.ia], s.nodes[op.address];
      var banned := if e.role.Writer? then e.(role := Reader, balance := e.balance + e.stake, stake := 0) else e.(role := Reader);
      WritesKeepKeys(s.nodes, op.ia, banned, op.address, admin.(balance := admin.balance - FEE));
    }
  }

  /** A payment to a validator writes one entry more. */
  lemma PaymentKeepsKeys(n: map<Address, Entry>, a: Address, e: Entry, va: Address, amount: nat)
    requires a in n && e.wk == n[a].wk && va in n
    ensures SameKeys(n, Credit(n[a := e], va, amount))
  {
  }

  lemma RemoveWriterFrame(env: Env, s: Ledger, op: Op)
    requires op.RoleAccess? && op.done.Some?
    ensures KeyFrame(s, RemoveWriter(env, s, op).ledger)
  {
    hide SameKeys, Credit;
    SameKeysAsBefore(s.nodes);
    var t := RemoveWriter(env, s, op);
    if t.status.Success? {
      var e := s.nodes[op.address];
      var removed := e.(role := Whitelisted, balance := e.balance - FEE + e.stake, stake := 0);
      PaymentKeepsKeys(s.nodes, op.address, removed, op.done.value.va, PercentOfFee(75));
    }
  }

  lemma DeployFrame(env: Env, s: Ledger, op: Op)
    requires op.BootstrapDeployment? && op.done.Some?
    ensures KeyFrame(s, DeployBootstrap(env, s, op).ledger)
  {
    hide SameKeys, Credit;
    SameKeysAsBefore(s.nodes);
    var t := DeployBootstrap(env, s, op);
    if t.status.Success? {
      var e := s.nodes[op.address];
      PaymentKeepsKeys(s.nodes, op.address, e.(balance := e.balance - FEE), op.done.value.va, PercentOfFee(75));
    }
  }

  lemma FundsFrame(env: Env, s: Ledger, op: Op)
    requires (op.Transfer? || op.SubnetTx?) && op.done.Some? && (op.SubnetTx? ==> op.bs in s.deployments)
    ensures KeyFrame(s, Settle(s, FundsEffect(env, s, op), op).ledger)
  {
    if op.SubnetTx? {
      FeeKeepsKeys(env, s, op.address, op.done.value.va, s.deployments[op.bs].creator);
    } else {
      TransferKeepsKeys(env, s, op.address, op.to, op.done.value.va, op.am);
    }
    assert SameKeys(s.nodes, s.nodes);
    hide SameKeys, TransferFee, TransferFunds;
  }

  lemma FeeKeepsKeys(env: Env, s: Ledger, requester: Address, va: Address, creator: Address)
    ensures SameKeys(s.nodes, TransferFee(env, s, requester, va, creator).nodes)
  {
  }

  lemma TransferKeepsKeys(env: Env, s: Ledger, sender: Address, to: Address, va: Address, am: nat)
    ensures SameKeys(s.nodes, TransferFunds(env, s, sender, to, va, am).nodes)
  {
  }

  lemma AddWriterRegisters(env: Env, s: Ledger, op: Op)
    requires KeysRegistered(s) && op.RoleAccess? && op.done.Some?
    ensures var s' := AddWriter(env, s, op).ledger; KeysRegistered(s') && s'.admin == s.admin
  {
  }

  lemma RecoveryRegisters(env: Env, s: Ledger, op: Op)
    requires KeysRegistered(s) && op.RoleAccess? && op.done.Some? && op.iw != ZERO_WK
    ensures KeysRegistered(AdminRecovery(env, s, op).ledger)
  {
  }

  /** An operation leaves every key with its owner, whoever signs it, and the key that signs it, if it is
      the admin's, with the admin: the one operation that moves that needs another node's key. */
  lemma OperationKeepsKeys(env: Env, s: Ledger, from: Key, op: Op)
    requires KeysRegistered(s)
    ensures var s' := ApplyOp(env, s, from, op).ledger;
            KeysRegistered(s') && (s.admin.Some? && s.admin.value.wk == from ==> s'.admin == s.admin)
  {
    hide KeysRegistered, SameKeys;
    if op.AdminControl? {
      ControlDispatch(env, s, from, op);
      if AdminGuards(s, from, op) { ControlKeepsKeys(env, s, op); }
    } else if op.ByValidator() {
      ValidatorDispatch(env, s, from, op);
      if ValidatorGuards(env, s, from, op) { ValidatorKeepsKeys(env, s, from, op); }
    } else {
      CoreKeepsKeys(env, s, from, op);
    }
  }

  lemma ControlKeepsKeys(env: Env, s: Ledger, op: Op)
    requires KeysRegistered(s) && op.AdminControl?
    ensures var s' := ControlEffect(env, s, op).ledger; KeysRegistered(s') && s'.admin == s.admin
  {
    hide KeysRegistered, SameKeys;
    match op.control
    case Whitelisting => AppendWhitelistFrame(s, op); FrameRegisters(s, AppendWhitelist(s, op).ledger);
    case IndexerAddition => AddIndexerFrame(s, op); FrameRegisters(s, AddIndexer(s, op).ledger);
    case IndexerRemoval => RemoveIndexerFrame(s, op); FrameRegisters(s, RemoveIndexer(s, op).ledger);
    case Ban => BanFrame(env, s, op); FrameRegisters(s, BanValidator(env, s, op).ledger);
  }

  lemma ValidatorKeepsKeys(env: Env, s: Ledger, from: Key, op: Op)
    requires KeysRegistered(s) && ValidatorGuards(env, s, from, op)
    ensures var s' := ValidatorEffect(env, s, op).ledger;
            KeysRegistered(s') && (s.admin.Some? && s.admin.value.wk == from ==> s'.admin == s.admin)
  {
    if op.RoleAccess? {
      match op.access
      case WriterAddition => AddWriterRegisters(env, s, op);
      case WriterRemoval => RemoveWriterFrame(env, s, op); FrameRegisters(s, RemoveWriter(env, s, op).ledger);
      case Recovery =>
        RecoveryRegisters(env, s, op);
        if s.admin.Some? && s.admin.value.wk == from { RecoveryNeedsAnother(env, s, from, op); }
    } else if op.BootstrapDeployment? {
      DeployFrame(env, s, op);
      FrameRegisters(s, DeployBootstrap(env, s, op).ledger);
    } else {
      FundsFrame(env, s, op);
      FrameRegisters(s, Settle(s, FundsEffect(env, s, op), op).ledger);
    }
  }

  lemma RecoveryNeedsAnother(env: Env, s: Ledger, from: Key, op: Op)
    requires KeysRegistered(s) && s.admin.Some? && s.admin.value.wk == from
    requires op.RoleAccess? && op.access.Recovery? && ValidatorGuards(env, s, from, op)
    ensures AdminRecovery(env, s, op) == Fail(s)
  {
    assert s.nodes[op.done.value.va].wk == from;
  }

  lemma AddAdminRegisters(env: Env, s: Ledger, from: Key, op: Op)
    requires KeysRegistered(s) && op.CoreAdmin?
    ensures KeysRegistered(ApplyAddAdmin(env, s, from, op).ledger)
  {
    hide Authentic, UpToDate;
  }

  lemma CoreKeepsKeys(env: Env, s: Ledger, from: Key, op: Op)
    requires KeysRegistered(s) && (op.CoreAdmin? || op.BalanceInitialization?)
    ensures var s' := ApplyOp(env, s, from, op).ledger; KeysRegistered(s') && (s.admin.Some? ==> s'.admin == s.admin)
  {
    hide KeysRegistered, SameKeys;
    CoreDispatch(env, s, from, op);
    var s' := ApplyOp(env, s, from, op).ledger;
    if op.BalanceInitialization? {
      assert s' == ApplyBalanceInitialization(env, s, from, op).ledger;
      if s' != s {
        WritesKeepKeys(s.nodes, op.ia, s'.nodes[op.ia], op.ia, s'.nodes[op.ia]);
        FrameRegisters(s, s');
      }
    } else if op.core.AdminAddition? {
      assert s' == ApplyAddAdmin(env, s, from, op).ledger;
      AddAdminRegisters(env, s, from, op);
    } else {
      assert s' == ApplyDisableInitialization(env, s, from, op).ledger;
      SameKeysAsBefore(s.nodes);
      FrameRegisters(s, s');
    }
  }

  // ---------- batches and runs ----------

  lemma {:induction false} NodesKeepKeys(env: Env, s: Ledger, nodes: seq<Node>)
    requires KeysRegistered(s)
    ensures KeysRegistered(ApplyNodes(env, s, nodes).ledger)
  {
    hide KeysRegistered, ApplyOp;
    if nodes != [] {
      var before, last := nodes[..|nodes| - 1], nodes[|nodes| - 1];
      NodesKeepKeys(env, s, before);
      if last.payload.Operation? {
        OperationKeepsKeys(env, ApplyNodes(env, s, before).ledger, last.from, last.payload.op);
      }
    }
  }

  lemma PenaltyKeepsKeys(env: Env, s: Ledger, key: Key, n: nat)
    requires KeysRegistered(s)
    ensures KeysRegistered(Penalize(env, s, key, n))
  {
    hide AddressValid;
  }

  lemma BatchKeepsKeys(env: Env, s: Ledger, nodes: seq<Node>)
    requires KeysRegistered(s) && nodes != []
    ensures ApplyBatch(env, s, nodes).Some? ==> KeysRegistered(ApplyBatch(env, s, nodes).value)
  {
    hide KeysRegistered, ApplyNodes, Penalize;
    var from, p := nodes[0].from, ApplyNodes(env, s, nodes);
    PenaltyKeepsKeys(env, s, from, BATCH_SIZE);
    NodesKeepKeys(env, s, nodes);
    PenaltyKeepsKeys(env, p.ledger, from, p.invalid);
  }

  /** Keys are registered to their owners after every run from the empty store, whoever signs its batches
      and whatever they hold. */
  lemma {:induction false} ReachableRegistersKeys(env: Env, batches: seq<seq<Node>>)
    requires NonEmpty(batches)
    ensures Run(env, Genesis(env), batches).Some? ==> KeysRegistered(Run(env, Genesis(env), batches).value)
  {
    if batches != [] {
      var before := batches[..|batches| - 1];
      ReachableRegistersKeys(env, before);
      hide KeysRegistered, ApplyBatch;
      if Run(env, Genesis(env), before).Some? {
        BatchKeepsKeys(env, Run(env, Genesis(env), before).value, batches[|batches| - 1]);
      }
    }
  }

  /** All blocks are signed by one key. */
  ghost predicate SignedBy(nodes: seq<Node>, from: Key) {
    forall i {:trigger nodes[i]} :: 0 <= i < |nodes| ==> nodes[i].from == from
  }

  lemma {:induction false} AdminKeepsKeyThroughout(env: Env, s: Ledger, nodes: seq<Node>, from: Key)
    requires KeysRegistered(s) && s.admin.Some? && s.admin.value.wk == from && SignedBy(nodes, from)
    ensures var s' := ApplyNodes(env, s, nodes).ledger; KeysRegistered(s') && s'.admin == s.admin
  {
    hide KeysRegistered, ApplyOp;
    if nodes != [] {
      var before, last := nodes[..|nodes| - 1], nodes[|nodes| - 1];
      AdminKeepsKeyThroughout(env, s, before, from);
      if last.payload.Operation? {
        OperationKeepsKeys(env, ApplyNodes(env, s, before).ledger, from, last.payload.op);
      }
    }
  }

  lemma AdminBatchStands(env: Env, s: Ledger, nodes: seq<Node>)
    requires KeysRegistered(s) && s.admin.Some? && nodes != [] && SignedBy(nodes, s.admin.value.wk)
    ensures var p := ApplyNodes(env, s, nodes);
            ApplyBatch(env, s, nodes) == if |nodes| > BATCH_SIZE then Some(s)
                                         else if p.thrown then None
                                         else Some(p.ledger)
  {
    AdminKeepsKeyThroughout(env, s, nodes, nodes[0].from);
    hide ApplyNodes, KeysRegistered;
  }

  /** On no ledger that a run from the empty store reaches is the admin penalised, whatever it signs and
      whatever anyone signed before. */
  lemma AdminIsNeverPenalized(env: Env, batches: seq<seq<Node>>, nodes: seq<Node>)
    requires NonEmpty(batches) && Run(env, Genesis(env), batches).Some?
    requires var s := Run(env, Genesis(env), batches).value;
             s.admin.Some? && nodes != [] && SignedBy(nodes, s.admin.value.wk)
    ensures var s := Run(env, Genesis(env), batches).value;
            var p := ApplyNodes(env, s, nodes);
            ApplyBatch(env, s, nodes) == if |nodes| > BATCH_SIZE then Some(s)
                                         else if p.thrown then None
                                         else Some(p.ledger)
  {
    hide Run, KeysRegistered, ApplyBatch, ApplyNodes;
    ReachableRegistersKeys(env, batches);
    AdminBatchStands(env, Run(env, Genesis(env), batches).value, nodes);
  }
}
