/**
 Where the money comes from and goes to: the admin issues it until initialization is over, and
 every operation burns a scheduled amount and moves the rest. The supply of a ledger is what was
 issued less what was burned.
 */
module Conservation {
  import opened Bytes
  import opened Records
  import opened Ledger
  import opened Dispatch
  import opened Invariant
  import opened History

  // ---------- sums over entries ----------

  /** Balance and stake of all entries together. */
  ghost function Total(nodes: map<Address, Entry>): nat
    decreases |nodes|
  {
    if nodes == map[] then 0
    else
      var a :| a in nodes;
      nodes[a].Worth() + Total(nodes - {a})
  }

  /** Any entry can be taken out of the sum first. */
  lemma {:induction false} TotalWithout(nodes: map<Address, Entry>, a: Address)
    requires a in nodes
    ensures Total(nodes) == nodes[a].Worth() + Total(nodes - {a})
    decreases |nodes|
  {
    var b :| b in nodes && Total(nodes) == nodes[b].Worth() + Total(nodes - {b});
    if a != b {
      TotalWithout(nodes - {b}, a);
      TotalWithout(nodes - {a}, b);
      assert nodes - {b} - {a} == nodes - {a} - {b};
    }
  }

  function WorthAt(nodes: map<Address, Entry>, a: Address): nat {
    if a in nodes then nodes[a].Worth() else 0
  }

  /** Writing one entry changes the sum by the difference of what it is worth. */
  lemma TotalWrite(nodes: map<Address, Entry>, a: Address, e: Entry)
    ensures Total(nodes[a := e]) + WorthAt(nodes, a) == Total(nodes) + e.Worth()
  {
    var written := nodes[a := e];
    TotalWithout(written, a);
    assert written - {a} == nodes - {a};
    if a in nodes { TotalWithout(nodes, a); } else { assert nodes - {a} == nodes; }
  }

  lemma TotalWriteTwice(nodes: map<Address, Entry>, a: Address, e: Entry, b: Address, f: Entry)
    ensures Total(nodes[a := e][b := f]) + WorthAt(nodes, a) + WorthAt(nodes[a := e], b)
         == Total(nodes) + e.Worth() + f.Worth()
  {
    TotalWrite(nodes, a, e);
    TotalWrite(nodes[a := e], b, f);
  }

  /** One entry, or two different ones, are worth at most everything. */
  lemma WorthBound(nodes: map<Address, Entry>, a: Address)
    requires a in nodes
    ensures nodes[a].Worth() <= Total(nodes)
  {
    TotalWithout(nodes, a);
  }

  lemma WorthBoundTwo(nodes: map<Address, Entry>, a: Address, b: Address)
    requires a in nodes && b in nodes && a != b
    ensures nodes[a].Worth() + nodes[b].Worth() <= Total(nodes)
  {
    TotalWithout(nodes, a);
    TotalWithout(nodes - {a}, b);
  }

  lemma CreditTotal(nodes: map<Address, Entry>, a: Address, amount: nat)
    requires a in nodes
    ensures Total(Credit(nodes, a, amount)) == Total(nodes) + amount
  {
    TotalWrite(nodes, a, nodes[a].(balance := nodes[a].balance + amount));
  }

  lemma DebitTotal(nodes: map<Address, Entry>, a: Address, amount: nat)
    requires a in nodes && nodes[a].balance >= amount
    ensures Total(Debit(nodes, a, amount)) + amount == Total(nodes)
  {
    TotalWrite(nodes, a, nodes[a].(balance := nodes[a].balance - amount));
  }

  // ---------- issue and burn schedule ----------

  /** What a successful operation adds to the supply. */
  function Issue(op: Op): nat {
    match op.Type()
    case ADD_ADMIN => ADMIN_INITIAL_BALANCE + STAKE
    case BALANCE_INITIALIZATION => op.am
    case _ => 0
  }

  /** What a successful operation takes out of the supply; a balance that is initialized again is lost,
      and whitelisting costs nothing until initialization is over. */
  function Burn(s: Ledger, op: Op): nat {
    match op.Type()
    case BALANCE_INITIALIZATION => if op.ia in s.nodes then s.nodes[op.ia].balance else 0
    case APPEND_WHITELIST => if InitializationDisabled(s) then FEE else 0
    case ADD_INDEXER => FEE
    case REMOVE_INDEXER => FEE
    case BAN_VALIDATOR => FEE
    case ADD_WRITER => FEE / 4
    case REMOVE_WRITER => FEE / 4
    case ADMIN_RECOVERY => FEE / 4
    case BOOTSTRAP_DEPLOYMENT => FEE / 4
    case TRANSFER => FEE / 4
    case TX => if CreatedSubnet(s, op) then FEE / 2 else FEE / 4
    case _ => 0
  }

  predicate CreatedSubnet(s: Ledger, op: Op) {
    op.SubnetTx? && op.bs in s.deployments && s.deployments[op.bs].creator == op.address
  }

  /** The schedule as it applies to an outcome: nothing is burned unless the operation succeeds. */
  function Burned(s: Ledger, op: Op, o: Outcome): nat {
    if o.status.Success? then Burn(s, op) else 0
  }

  function Issued(op: Op, o: Outcome): nat {
    if o.status.Success? then Issue(op) else 0
  }

  ghost predicate Conserves(s: Ledger, op: Op, o: Outcome) {
    Total(o.ledger.nodes) + Burned(s, op, o) == Total(s.nodes) + Issued(op, o)
  }

  lemma WhitelistConserves(s: Ledger, a: Address, read: Option<Entry>)
    requires if read.Some? then a in s.nodes && read.value == s.nodes[a] else a !in s.nodes
    ensures Total(Whitelist(s, a, read).nodes) == Total(s.nodes)
  {
    var e := Whitelist(s, a, read).nodes[a];
    assert Whitelist(s, a, read).nodes == s.nodes[a := e] && e.Worth() == WorthAt(s.nodes, a);
    hide Whitelist;
    TotalWrite(s.nodes, a, e);
  }

  lemma AppendWhitelistConserves(env: Env, s: Ledger, op: Op)
    requires Running(env, s) && op.AdminControl? && op.control.Whitelisting?
    requires s.admin.value.address == op.address
    ensures Conserves(s, op, AppendWhitelist(s, op))
  {
    if AppendWhitelist(s, op).status.Success? {
      if InitializationDisabled(s) { DebitTotal(s.nodes, op.address, FEE); }
      var paid := PayForWhitelist(s, op.address);
      assert ReadEntry(s, op.ia) == ReadEntry(paid, op.ia);
      WhitelistConserves(paid, op.ia, ReadEntry(s, op.ia));
    }
  }

  lemma AddIndexerConserves(s: Ledger, op: Op)
    requires op.AdminControl? && op.control.IndexerAddition?
    requires op.address in s.nodes && s.nodes[op.address].role.Indexer?
    ensures Conserves(s, op, AddIndexer(s, op))
  {
    var o := AddIndexer(s, op);
    if o.status.Success? {
      TotalWriteTwice(s.nodes, op.ia, s.nodes[op.ia].(role := Indexer), op.address, o.ledger.nodes[op.address]);
    }
  }

  lemma RemoveIndexerConserves(s: Ledger, op: Op)
    requires op.AdminControl? && op.control.IndexerRemoval?
    ensures Conserves(s, op, RemoveIndexer(s, op))
  {
    var o := RemoveIndexer(s, op);
    if o.status.Success? {
      TotalWriteTwice(s.nodes, op.ia, s.nodes[op.ia].(role := Writer), op.address, o.ledger.nodes[op.address]);
    }
  }

  lemma BanConserves(env: Env, s: Ledger, op: Op)
    requires op.AdminControl? && op.control.Ban?
    requires op.address in s.nodes && s.nodes[op.address].role.Indexer?
    ensures Conserves(s, op, BanValidator(env, s, op))
  {
    var o := BanValidator(env, s, op);
    if o.status.Success? {
      assert op.ia != op.address;
      TotalWriteTwice(s.nodes, op.ia, o.ledger.nodes[op.ia], op.address, o.ledger.nodes[op.address]);
    }
  }

  /** The requester's entry is rewritten at a loss, and the validator gets part of it. */
  lemma RequestTotal(nodes: map<Address, Entry>, a: Address, e: Entry, va: Address, amount: nat)
    requires a in nodes && va in nodes && a != va
    ensures Total(Credit(nodes[a := e], va, amount)) + nodes[a].Worth() == Total(nodes) + e.Worth() + amount
  {
    TotalWrite(nodes, a, e);
    CreditTotal(nodes[a := e], va, amount);
  }

  lemma AddWriterConserves(env: Env, s: Ledger, op: Op)
    requires op.RoleAccess? && op.access.WriterAddition? && op.done.Some? && op.address != op.done.value.va
    requires op.address in s.nodes && s.nodes[op.address].role.Whitelisted? ==> s.nodes[op.address].stake == 0
    ensures Conserves(s, op, AddWriter(env, s, op))
  {
    var o := AddWriter(env, s, op);
    if o.status.Success? {
      RequestTotal(s.nodes, op.address, o.ledger.nodes[op.address], op.done.value.va, PercentOfFee(75));
    }
  }

  lemma RemoveWriterConserves(env: Env, s: Ledger, op: Op)
    requires op.RoleAccess? && op.access.WriterRemoval? && op.done.Some? && op.address != op.done.value.va
    ensures Conserves(s, op, RemoveWriter(env, s, op))
  {
    var o := RemoveWriter(env, s, op);
    if o.status.Success? {
      RequestTotal(s.nodes, op.address, o.ledger.nodes[op.address], op.done.value.va, PercentOfFee(75));
    }
  }

  lemma AdminRecoveryConserves(env: Env, s: Ledger, op: Op)
    requires op.RoleAccess? && op.access.Recovery? && op.done.Some? && op.address != op.done.value.va
    ensures Conserves(s, op, AdminRecovery(env, s, op))
  {
    var o := AdminRecovery(env, s, op);
    if o.status.Success? {
      RequestTotal(s.nodes, op.address, o.ledger.nodes[op.address], op.done.value.va, PercentOfFee(75));
    }
  }

  lemma DeployBootstrapConserves(env: Env, s: Ledger, op: Op)
    requires op.BootstrapDeployment? && op.done.Some?
    ensures Conserves(s, op, DeployBootstrap(env, s, op))
  {
    if DeployBootstrap(env, s, op).status.Success? {
      DebitTotal(s.nodes, op.address, FEE);
      CreditTotal(Debit(s.nodes, op.address, FEE), op.done.value.va, PercentOfFee(75));
    }
  }

  lemma TransferFeeConserves(env: Env, s: Ledger, requester: Address, va: Address, creator: Address)
    ensures var f := TransferFee(env, s, requester, va, creator);
            f.status.Success? ==>
              Total(f.nodes) + (if creator == requester then FEE / 2 else FEE / 4) == Total(s.nodes)
  {
    if TransferFee(env, s, requester, va, creator).status.Success? {
      DebitTotal(s.nodes, requester, FEE);
      var debited := Debit(s.nodes, requester, FEE);
      CreditTotal(debited, va, PercentOfFee(50));
      if creator != requester { CreditTotal(Credit(debited, va, PercentOfFee(50)), creator, PercentOfFee(25)); }
    }
  }

  lemma TransferFundsConserve(env: Env, s: Ledger, sender: Address, to: Address, va: Address, am: nat)
    ensures var f := TransferFunds(env, s, sender, to, va, am);
            f.status.Success? ==> Total(f.nodes) + FEE / 4 == Total(s.nodes)
  {
    if TransferFunds(env, s, sender, to, va, am).status.Success? {
      var total := if to == sender then FEE else am + FEE;
      DebitTotal(s.nodes, sender, total);
      var debited := Debit(s.nodes, sender, total);
      if to == sender {
        CreditTotal(debited, va, PercentOfFee(75));
      } else if to in debited {
        CreditTotal(debited, to, am);
        CreditTotal(Credit(debited, to, am), va, PercentOfFee(75));
      } else {
        TotalWrite(debited, to, NewReader(am));
        CreditTotal(debited[to := NewReader(am)], va, PercentOfFee(75));
      }
    }
  }

  lemma ControlConserves(env: Env, s: Ledger, op: Op)
    requires Running(env, s) && op.AdminControl? && s.admin.value.address == op.address
    ensures Conserves(s, op, ControlEffect(env, s, op))
  {
    match op.control
    case Whitelisting => AppendWhitelistConserves(env, s, op);
    case IndexerAddition => AddIndexerConserves(s, op);
    case IndexerRemoval => RemoveIndexerConserves(s, op);
    case Ban => BanConserves(env, s, op);
  }

  lemma ValidatorConserves(env: Env, s: Ledger, from: Key, op: Op)
    requires Running(env, s) && ValidatorGuards(env, s, from, op)
    ensures Conserves(s, op, ValidatorEffect(env, s, op))
  {
    hide AddWriter, RemoveWriter, AdminRecovery, DeployBootstrap, TransferFee, TransferFunds;
    match op.Type()
    case ADD_WRITER =>
      assert op.address in s.nodes ==> EntryOk(env, s, op.address);
      AddWriterConserves(env, s, op);
    case REMOVE_WRITER => RemoveWriterConserves(env, s, op);
    case ADMIN_RECOVERY => AdminRecoveryConserves(env, s, op);
    case BOOTSTRAP_DEPLOYMENT => DeployBootstrapConserves(env, s, op);
    case TX => TransferFeeConserves(env, s, op.address, op.done.value.va, s.deployments[op.bs].creator);
    case TRANSFER => TransferFundsConserve(env, s, op.address, op.to, op.done.value.va, op.am);
  }

  lemma CoreConserves(env: Env, s: Ledger, from: Key, op: Op)
    requires Inv(env, s) && (op.CoreAdmin? || op.BalanceInitialization?)
    ensures Conserves(s, op, ApplyOp(env, s, from, op))
  {
    hide AdminCall, Authentic, UpToDate, AddressValid, Running;
    var o := ApplyOp(env, s, from, op);
    CoreDispatch(env, s, from, op);
    if o.status.Success? {
      if op.BalanceInitialization? {
        assert o == ApplyBalanceInitialization(env, s, from, op);
        TotalWrite(s.nodes, op.ia, o.ledger.nodes[op.ia]);
      } else if op.core.AdminAddition? {
        assert o == ApplyAddAdmin(env, s, from, op);
        NoAdminNoEntries(env, s);
        TotalWrite(s.nodes, op.address, o.ledger.nodes[op.address]);
      } else {
        assert o == ApplyDisableInitialization(env, s, from, op);
      }
    }
  }

  lemma NoAdminNoEntries(env: Env, s: Ledger)
    requires Inv(env, s) && s.admin.None?
    ensures s == Genesis(env) && Total(s.nodes) == 0
  {
  }

  /** At any time an operation changes the supply by exactly what it issues and burns. */
  lemma OperationConserves(env: Env, s: Ledger, from: Key, op: Op)
    requires Inv(env, s)
    ensures Conserves(s, op, ApplyOp(env, s, from, op))
  {
    EffectIsAtomic(env, s, from, op);
    if op.AdminControl? {
      ControlDispatch(env, s, from, op);
      if AdminGuards(s, from, op) { ControlConserves(env, s, op); }
    } else if op.ByValidator() {
      ValidatorDispatch(env, s, from, op);
      if ValidatorGuards(env, s, from, op) { ValidatorConserves(env, s, from, op); }
    } else {
      CoreConserves(env, s, from, op);
    }
  }

  /** Money is issued to the first admin, and by the admin's key until initialization is over. */
  lemma OnlyAdminIssues(env: Env, s: Ledger, from: Key, op: Op)
    ensures Issued(op, ApplyOp(env, s, from, op)) > 0 ==>
              s.admin.None? || (s.admin.value.wk == from && !InitializationDisabled(s))
  {
    if op.CoreAdmin? || op.BalanceInitialization? { CoreDispatch(env, s, from, op); }
    hide ApplyOp;
  }

  // ---------- slashing ----------

  function Min(a: nat, b: nat): nat { if a <= b then a else b }

  /** The penalty loses the supply what the stake does not give back. */
  lemma PenaltyConserves(env: Env, s: Ledger, key: Key, n: nat)
    requires Inv(env, s) && key in s.base
    ensures var s' := Penalize(env, s, key, n);
            Total(s'.nodes) + (if s' == s then 0 else Min(STAKE, n * FEE)) == Total(s.nodes)
  {
    var s' := Penalize(env, s, key, n);
    if s' != s {
      var a := s.writerKeys[key];
      assert MemberOk(s, key) && EntryOk(env, s, a);
      TotalWrite(s.nodes, a, s'.nodes[a]);
    }
  }

  /** The writer behind a key is out of the writer set, whitelisted, without stake, and has back what
      n fees leave of ten. */
  function AfterSlashing(s: Ledger, key: Key, n: nat): Ledger
    requires key in s.writerKeys && s.writerKeys[key] in s.nodes && n <= BATCH_SIZE
  {
    var a := s.writerKeys[key];
    var e := s.nodes[a];
    s.(base := s.base - {key},
       nodes := s.nodes[a := e.(role := Whitelisted, stake := 0, balance := e.balance + (BATCH_SIZE - n) * FEE)])
  }

  /** A writer other than the admin loses its place, its role and its whole stake, and gets back
      what n fees leave of it; everyone else keeps everything. The admin loses nothing. */
  lemma SlashingIsExact(env: Env, s: Ledger, key: Key, n: nat)
    requires EnvOk(env) && Running(env, s) && key in s.base && 1 <= n <= BATCH_SIZE && Total(s.nodes) < env.cap
    ensures key in s.writerKeys && s.writerKeys[key] in s.nodes && s.nodes[s.writerKeys[key]].role.IsActive()
    ensures Penalize(env, s, key, n) == if key == s.admin.value.wk then s else AfterSlashing(s, key, n)
  {
    var a := s.writerKeys[key];
    assert MemberOk(s, key) && EntryOk(env, s, a) && KeyOk(env, s, key);
    WorthBound(s.nodes, a);
  }

  function Invalid(key: Key, n: nat): seq<Node> {
    if n == 0 then [] else Invalid(key, n - 1) + [Node(key, Malformed)]
  }

  lemma {:induction false} InvalidOperationsCount(env: Env, s: Ledger, key: Key, n: nat)
    ensures ApplyNodes(env, s, Invalid(key, n)) == Progress(s, n, false) && |Invalid(key, n)| == n
    ensures n > 0 ==> Invalid(key, n)[0].from == key
  {
    if n > 0 {
      InvalidOperationsCount(env, s, key, n - 1);
      var nodes := Invalid(key, n);
      assert nodes[..|nodes| - 1] == Invalid(key, n - 1);
    }
  }

  /** An oversized batch, whatever is in it, has the effect of ten invalid operations. */
  lemma OversizedIsTenInvalid(env: Env, s: Ledger, nodes: seq<Node>)
    requires |nodes| > BATCH_SIZE
    ensures Invalid(nodes[0].from, BATCH_SIZE) != []
    ensures ApplyBatch(env, s, nodes) == ApplyBatch(env, s, Invalid(nodes[0].from, BATCH_SIZE))
  {
    InvalidOperationsCount(env, s, nodes[0].from, BATCH_SIZE);
  }
}
