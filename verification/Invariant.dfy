/**
 What every reachable ledger satisfies: stakes and membership follow roles, keys and
 licences belong to one address each, and the books of deployments are complete.
 */
module Invariant {
  import opened Bytes
  import opened Records
  import opened Ledger

  /** One entry: its stake and consensus membership follow its role, and its key and its
      licence are registered to its address. */
  ghost predicate EntryOk(env: Env, s: Ledger, a: Address)
    requires a in s.nodes
  {
    var e := s.nodes[a];
    && e.stake == (if e.role.IsActive() then STAKE else 0)
    && e.balance < env.cap
    && (!e.role.Reader? ==> e.license != 0)
    && (e.role.IsActive() ==> e.wk != ZERO_WK)
    && (e.wk != ZERO_WK ==> e.wk in s.writerKeys && s.writerKeys[e.wk] == a)
    && (if e.role.IsActive() then e.wk in s.base && s.base[e.wk] == e.role.Indexer? else e.wk !in s.base)
    && (e.license != 0 ==> e.license in s.licenseIndex && s.licenseIndex[e.license] == a)
  }

  /** One registered key: nonzero, and registered to an address that has an entry. */
  ghost predicate KeyOk(env: Env, s: Ledger, k: Key)
    requires k in s.writerKeys
  {
    k != ZERO_WK && s.writerKeys[k] in s.nodes && AddressValid(env, s.writerKeys[k])
  }

  /** One consensus writer: the current key of an active entry. */
  ghost predicate MemberOk(s: Ledger, k: Key) {
    && k in s.writerKeys && s.writerKeys[k] in s.nodes
    && s.nodes[s.writerKeys[k]].wk == k && s.nodes[s.writerKeys[k]].role.IsActive()
  }

  /** One licence: held by the address the index names. */
  ghost predicate LicenseOk(s: Ledger, i: nat)
    requires i in s.licenseIndex
  {
    s.licenseIndex[i] in s.nodes && s.nodes[s.licenseIndex[i]].license == i
  }

  /** One deployment: its creator has an entry, and the operation that made it is recorded. */
  ghost predicate DeploymentOk(env: Env, s: Ledger, b: Key)
    requires b in s.deployments
  {
    var d := s.deployments[b];
    && d.creator in s.nodes && AddressValid(env, d.creator)
    && d.txHash in s.txs && s.txs[d.txHash].BootstrapDeployment?
    && s.txs[d.txHash].bs == b && s.txs[d.txHash].address == d.creator
  }

  ghost predicate AdminOk(env: Env, s: Ledger) {
    && s.admin.Some? && s.initialization.Some?
    && var admin := s.admin.value;
       && admin.address in s.nodes && s.nodes[admin.address].role.Indexer?
       && s.nodes[admin.address].wk == admin.wk && AddressValid(env, admin.address)
  }

  ghost predicate Running(env: Env, s: Ledger) {
    && AdminOk(env, s)
    && (forall a {:trigger EntryOk(env, s, a)} :: a in s.nodes ==> EntryOk(env, s, a))
    && (forall k {:trigger KeyOk(env, s, k)} :: k in s.writerKeys ==> KeyOk(env, s, k))
    && (forall k {:trigger MemberOk(s, k)} :: k in s.base ==> MemberOk(s, k))
    && (forall i {:trigger LicenseOk(s, i)} :: i in s.licenseIndex ==> LicenseOk(s, i))
    && (forall i {:trigger i in s.licenseIndex} :: i in s.licenseIndex <==> 1 <= i <= s.licenseCount)
    && (forall i: nat {:trigger i in s.writersIndex} :: i in s.writersIndex <==> i < s.writersLength)
    && (forall b {:trigger DeploymentOk(env, s, b)} :: b in s.deployments ==> DeploymentOk(env, s, b))
  }

  /** Nothing but the genesis exists until the admin is added. */
  ghost predicate Inv(env: Env, s: Ledger) {
    s == Genesis(env) || Running(env, s)
  }

  /** The environment: overflow starts at 2 to the power 128 or later. */
  predicate EnvOk(env: Env) {
    env.cap >= AMOUNT_LIMIT
  }

  /** The all-zero placeholder key is neither registered nor a consensus writer. */
  lemma ZeroKeyIsNobody(env: Env, s: Ledger)
    requires Running(env, s)
    ensures ZERO_WK !in s.base && ZERO_WK !in s.writerKeys
  {
    assert ZERO_WK in s.base ==> MemberOk(s, ZERO_WK);
    assert ZERO_WK in s.writerKeys ==> KeyOk(env, s, ZERO_WK);
  }

  // ---------- what the invariant says about the whole ledger ----------

  /** Stakes and consensus membership are decided by roles, and nobody else is in the writer set. */
  lemma RolesDecide(env: Env, s: Ledger)
    requires Running(env, s)
    ensures forall a {:trigger s.nodes[a]} :: a in s.nodes ==>
              var e := s.nodes[a];
              && (e.stake == STAKE <==> e.role.IsActive()) && (e.stake == 0 <==> !e.role.IsActive())
              && (e.wk in s.base <==> e.role.IsActive()) && (e.wk in Indexers(s.base) <==> e.role.Indexer?)
    ensures forall k {:trigger k in s.base} :: k in s.base ==>
              exists a {:trigger s.nodes[a]} :: a in s.nodes && s.nodes[a].role.IsActive() && s.nodes[a].wk == k
  {
    forall a | a in s.nodes ensures EntryOk(env, s, a) {}
    forall k | k in s.base
      ensures exists a {:trigger s.nodes[a]} :: a in s.nodes && s.nodes[a].role.IsActive() && s.nodes[a].wk == k {
      assert MemberOk(s, k);
    }
  }

  /** No two entries share a key other than the placeholder. */
  lemma KeysAreUnique(env: Env, s: Ledger, a: Address, b: Address)
    requires Running(env, s) && a in s.nodes && b in s.nodes
    requires s.nodes[a].wk == s.nodes[b].wk && s.nodes[a].wk != ZERO_WK
    ensures a == b
  {
    assert EntryOk(env, s, a) && EntryOk(env, s, b);
  }

  /** Licences 1 to the count are in one-to-one correspondence with the addresses that hold one. */
  lemma LicensesAreOneToOne(env: Env, s: Ledger)
    requires Running(env, s)
    ensures forall i: nat, j: nat {:trigger s.licenseIndex[i], s.licenseIndex[j]} ::
              1 <= i < j <= s.licenseCount ==> i in s.licenseIndex && j in s.licenseIndex && s.licenseIndex[i] != s.licenseIndex[j]
    ensures forall a {:trigger s.nodes[a]} :: a in s.nodes && s.nodes[a].license != 0 ==>
              1 <= s.nodes[a].license <= s.licenseCount && s.nodes[a].license in s.licenseIndex
              && s.licenseIndex[s.nodes[a].license] == a
    ensures forall i: nat {:trigger s.licenseIndex[i]} :: 1 <= i <= s.licenseCount ==>
              i in s.licenseIndex && s.licenseIndex[i] in s.nodes && s.nodes[s.licenseIndex[i]].license == i
  {
    forall i: nat, j: nat | 1 <= i < j <= s.licenseCount
      ensures i in s.licenseIndex && j in s.licenseIndex && s.licenseIndex[i] != s.licenseIndex[j] {
      LicenseAt(env, s, i);
      LicenseAt(env, s, j);
    }
    forall a | a in s.nodes && s.nodes[a].license != 0
      ensures 1 <= s.nodes[a].license <= s.licenseCount && s.nodes[a].license in s.licenseIndex
              && s.licenseIndex[s.nodes[a].license] == a {
      assert EntryOk(env, s, a);
    }
    forall i: nat | 1 <= i <= s.licenseCount
      ensures i in s.licenseIndex && s.licenseIndex[i] in s.nodes && s.nodes[s.licenseIndex[i]].license == i {
      LicenseAt(env, s, i);
    }
  }

  lemma LicenseAt(env: Env, s: Ledger, i: nat)
    requires Running(env, s)
    ensures i in s.licenseIndex <==> 1 <= i <= s.licenseCount
    ensures i in s.licenseIndex ==> LicenseOk(s, i)
  {
  }

  // ---------- changes that keep a running ledger running ----------

  /** Only balances change, or fresh readers appear. */
  ghost predicate OnlyBalances(env: Env, n: map<Address, Entry>, n': map<Address, Entry>) {
    && (forall a {:trigger a in n'} :: a in n ==> a in n' && n'[a] == n[a].(balance := n'[a].balance))
    && (forall a {:trigger n'[a]} :: a in n' ==>
          n'[a].balance < env.cap && (a in n || n'[a] == NewReader(n'[a].balance)))
  }

  lemma BalancesKeepRunning(env: Env, s: Ledger, n': map<Address, Entry>)
    requires Running(env, s) && OnlyBalances(env, s.nodes, n')
    ensures Running(env, s.(nodes := n'))
  {
    var s' := s.(nodes := n');
    ZeroKeyIsNobody(env, s);
    forall a | a in s'.nodes ensures EntryOk(env, s', a) {
      if a in s.nodes { assert EntryOk(env, s, a); }
    }
    forall k | k in s'.writerKeys ensures KeyOk(env, s', k) { assert KeyOk(env, s, k); }
    forall k | k in s'.base ensures MemberOk(s', k) { assert MemberOk(s, k); }
    forall i | i in s'.licenseIndex ensures LicenseOk(s', i) { assert LicenseOk(s, i); }
    forall b | b in s'.deployments ensures DeploymentOk(env, s', b) { assert DeploymentOk(env, s, b); }
  }

  /** Entries, keys, members, licences and deployments are read from these fields only. */
  lemma SameCore(env: Env, s: Ledger, s': Ledger)
    requires Running(env, s) && AdminOk(env, s')
    requires s'.nodes == s.nodes && s'.base == s.base && s'.writerKeys == s.writerKeys && s'.deployments == s.deployments
    requires s'.licenseIndex == s.licenseIndex && s'.licenseCount == s.licenseCount
    requires forall h {:trigger h in s'.txs} :: h in s.txs ==> h in s'.txs && s'.txs[h] == s.txs[h]
    requires forall i: nat {:trigger i in s'.writersIndex} :: i in s'.writersIndex <==> i < s'.writersLength
    ensures Running(env, s')
  {
    forall a | a in s'.nodes ensures EntryOk(env, s', a) { assert EntryOk(env, s, a); }
    forall k | k in s'.writerKeys ensures KeyOk(env, s', k) { assert KeyOk(env, s, k); }
    forall k | k in s'.base ensures MemberOk(s', k) { assert MemberOk(s, k); }
    forall i | i in s'.licenseIndex ensures LicenseOk(s', i) { assert LicenseOk(s, i); }
    forall b | b in s'.deployments ensures DeploymentOk(env, s', b) { assert DeploymentOk(env, s, b); }
  }

  lemma RecordKeepsRunning(env: Env, s: Ledger, op: Op)
    requires Running(env, s) && op.tx !in s.txs
    ensures Running(env, Record(s, op).ledger)
  {
    SameCore(env, s, Record(s, op).ledger);
  }

  /** One entry changes role and perhaps key; the writer set and the registry follow. */
  ghost predicate RoleChange(env: Env, s: Ledger, s': Ledger, a: Address, e: Entry) {
    && a in s.nodes
    && s' == s.(nodes := s.nodes[a := e], base := s'.base, writerKeys := s'.writerKeys)
    && EntryOk(env, s', a)
    && e.license == s.nodes[a].license
    && (forall k {:trigger k in s'.base} :: k != e.wk && k != s.nodes[a].wk ==>
          (k in s'.base <==> k in s.base) && (k in s.base ==> s'.base[k] == s.base[k]))
    && (s.nodes[a].wk != e.wk ==> s.nodes[a].wk !in s'.base)
    && (s'.writerKeys == s.writerKeys
        || (e.wk !in s.writerKeys && e.wk != ZERO_WK && AddressValid(env, a) && s'.writerKeys == s.writerKeys[e.wk := a]))
  }

  lemma RoleChangeEntries(env: Env, s: Ledger, s': Ledger, a: Address, e: Entry)
    requires Running(env, s) && RoleChange(env, s, s', a, e)
    ensures forall b {:trigger EntryOk(env, s', b)} :: b in s'.nodes ==> EntryOk(env, s', b)
  {
    ZeroKeyIsNobody(env, s);
    assert EntryOk(env, s, a);
    forall b | b in s'.nodes ensures EntryOk(env, s', b) {
      assert EntryOk(env, s, b);
      assert e.wk in s.base ==> MemberOk(s, e.wk);
    }
  }

  lemma RoleChangeKeys(env: Env, s: Ledger, s': Ledger, a: Address, e: Entry)
    requires Running(env, s) && RoleChange(env, s, s', a, e)
    ensures forall k {:trigger KeyOk(env, s', k)} :: k in s'.writerKeys ==> KeyOk(env, s', k)
    ensures forall k {:trigger MemberOk(s', k)} :: k in s'.base ==> MemberOk(s', k)
  {
    ZeroKeyIsNobody(env, s);
    assert EntryOk(env, s, a);
    forall k | k in s'.writerKeys ensures KeyOk(env, s', k) {
      if k in s.writerKeys { assert KeyOk(env, s, k); }
    }
    forall k | k in s'.base ensures MemberOk(s', k) {
      if k in s.base { assert MemberOk(s, k); }
    }
  }

  lemma RoleChangeKeepsRunning(env: Env, s: Ledger, s': Ledger, a: Address, e: Entry)
    requires Running(env, s) && RoleChange(env, s, s', a, e) && AdminOk(env, s')
    ensures Running(env, s')
  {
    ZeroKeyIsNobody(env, s);
    assert EntryOk(env, s, a);
    RoleChangeEntries(env, s, s', a, e);
    RoleChangeKeys(env, s, s', a, e);
    forall i | i in s'.licenseIndex ensures LicenseOk(s', i) { assert LicenseOk(s, i); }
    forall b | b in s'.deployments ensures DeploymentOk(env, s', b) { assert DeploymentOk(env, s, b); }
  }

  /** Recovery replaces the admin's key everywhere at once. */
  lemma RecoveryKeepsRunning(env: Env, s: Ledger, t: Ledger, a: Address, e: Entry)
    requires Running(env, s) && RoleChange(env, s, t, a, e) && a == s.admin.value.address && e.role.Indexer?
    ensures Running(env, t.(admin := Some(AdminEntry(a, e.wk))))
  {
    var s' := t.(admin := Some(AdminEntry(a, e.wk)));
    ZeroKeyIsNobody(env, s);
    assert EntryOk(env, s, a);
    forall b | b in s'.nodes ensures EntryOk(env, s', b) {
      assert EntryOk(env, s, b) && EntryOk(env, t, a);
      assert e.wk in s.base ==> MemberOk(s, e.wk);
    }
    forall k | k in s'.writerKeys ensures KeyOk(env, s', k) {
      assert k in s.writerKeys ==> KeyOk(env, s, k);
    }
    forall k | k in s'.base ensures MemberOk(s', k) {
      assert k in s.base ==> MemberOk(s, k);
    }
    forall i | i in s'.licenseIndex ensures LicenseOk(s', i) { assert LicenseOk(s, i); }
    forall b | b in s'.deployments ensures DeploymentOk(env, s', b) { assert DeploymentOk(env, s, b); }
  }

  /** The next licence goes to an address that has none. */
  ghost predicate LicenseGrant(s: Ledger, s': Ledger, a: Address, e: Entry) {
    && s' == AssignLicense(s, a).(nodes := s.nodes[a := e])
    && (a in s.nodes ==> s.nodes[a].license == 0 && s.nodes[a].role.Reader?)
    && e == (if a in s.nodes then s.nodes[a] else NewReader(0)).(role := Whitelisted, license := s'.licenseCount)
  }

  lemma LicenseGrantEntries(env: Env, s: Ledger, s': Ledger, a: Address, e: Entry)
    requires EnvOk(env) && Running(env, s) && LicenseGrant(s, s', a, e)
    ensures forall b {:trigger EntryOk(env, s', b)} :: b in s'.nodes ==> EntryOk(env, s', b)
  {
    ZeroKeyIsNobody(env, s);
    forall b | b in s'.nodes ensures EntryOk(env, s', b) {
      assert b in s.nodes ==> EntryOk(env, s, b);
    }
  }

  lemma LicenseGrantLicenses(env: Env, s: Ledger, s': Ledger, a: Address, e: Entry)
    requires Running(env, s) && LicenseGrant(s, s', a, e)
    ensures forall i {:trigger LicenseOk(s', i)} :: i in s'.licenseIndex ==> LicenseOk(s', i)
    ensures forall i {:trigger i in s'.licenseIndex} :: i in s'.licenseIndex <==> 1 <= i <= s'.licenseCount
  {
    forall i | i in s'.licenseIndex ensures LicenseOk(s', i) { assert i in s.licenseIndex ==> LicenseOk(s, i); }
  }

  lemma LicenseGrantKeepsRunning(env: Env, s: Ledger, s': Ledger, a: Address, e: Entry)
    requires EnvOk(env) && Running(env, s) && LicenseGrant(s, s', a, e)
    ensures Running(env, s')
  {
    LicenseGrantEntries(env, s, s', a, e);
    LicenseGrantLicenses(env, s, s', a, e);
    forall k | k in s'.writerKeys ensures KeyOk(env, s', k) { assert KeyOk(env, s, k); }
    forall k | k in s'.base ensures MemberOk(s', k) { assert MemberOk(s, k); }
    forall b | b in s'.deployments ensures DeploymentOk(env, s', b) { assert DeploymentOk(env, s, b); }
  }

  lemma DeploymentKeepsRunning(env: Env, s: Ledger, op: Op)
    requires Running(env, s) && op.BootstrapDeployment? && op.address in s.nodes && AddressValid(env, op.address)
    requires op.tx in s.txs && s.txs[op.tx] == op
    ensures Running(env, s.(deployments := s.deployments[op.bs := Deployment(op.tx, op.address)]))
  {
    var s' := s.(deployments := s.deployments[op.bs := Deployment(op.tx, op.address)]);
    forall a | a in s'.nodes ensures EntryOk(env, s', a) { assert EntryOk(env, s, a); }
    forall k | k in s'.writerKeys ensures KeyOk(env, s', k) { assert KeyOk(env, s, k); }
    forall k | k in s'.base ensures MemberOk(s', k) { assert MemberOk(s, k); }
    forall i | i in s'.licenseIndex ensures LicenseOk(s', i) { assert LicenseOk(s, i); }
    hide EntryOk, KeyOk, MemberOk, LicenseOk;
    forall b | b in s'.deployments ensures DeploymentOk(env, s', b) { assert b != op.bs ==> DeploymentOk(env, s, b); }
  }

  /** The writers' history index is not read by anything else. */
  lemma WriterIndexKeepsRunning(env: Env, s: Ledger, a: Address)
    requires Running(env, s)
    ensures Running(env, s.(writersIndex := s.writersIndex[s.writersLength := a], writersLength := s.writersLength + 1))
  {
    SameCore(env, s, s.(writersIndex := s.writersIndex[s.writersLength := a], writersLength := s.writersLength + 1));
  }

  /** A debit, or a credit below the cap, changes only balances. */
  lemma MoneyKeepsRunning(env: Env, s: Ledger, n': map<Address, Entry>)
    requires Running(env, s)
    requires n'.Keys == s.nodes.Keys
    requires forall a {:trigger n'[a]} :: a in n' ==>
               n'[a] == s.nodes[a].(balance := n'[a].balance)
               && (n'[a].balance <= s.nodes[a].balance || n'[a].balance < env.cap)
    ensures Running(env, s.(nodes := n'))
  {
    assert forall a :: a in s.nodes ==> EntryOk(env, s, a);
    BalancesKeepRunning(env, s, n');
  }

  lemma CreditRuns(env: Env, s: Ledger, a: Address, amount: nat)
    requires Running(env, s) && CanCredit(env, s, a, amount)
    ensures Running(env, s.(nodes := Credit(s.nodes, a, amount)))
  {
    MoneyKeepsRunning(env, s, Credit(s.nodes, a, amount));
  }

  lemma DebitRuns(env: Env, s: Ledger, a: Address, amount: nat)
    requires Running(env, s) && a in s.nodes && s.nodes[a].balance >= amount
    ensures Running(env, s.(nodes := Debit(s.nodes, a, amount)))
  {
    MoneyKeepsRunning(env, s, Debit(s.nodes, a, amount));
  }

  lemma NewReaderRuns(env: Env, s: Ledger, a: Address, amount: Amount)
    requires EnvOk(env) && Running(env, s) && a !in s.nodes
    ensures Running(env, s.(nodes := s.nodes[a := NewReader(amount)]))
  {
    assert forall b :: b in s.nodes ==> EntryOk(env, s, b);
    BalancesKeepRunning(env, s, s.nodes[a := NewReader(amount)]);
  }

  // ---------- what each operation does once its guards have passed ----------

  /** What the guards of an admin operation establish. */
  ghost predicate AdminCalled(env: Env, s: Ledger, from: Key, op: Op) {
    && EnvOk(env) && Running(env, s) && from in s.base
    && s.admin == Some(AdminEntry(op.address, from)) && op.tx !in s.txs
  }

  /** What the guards of a validator's operation establish. */
  ghost predicate ValidatorCalled(env: Env, s: Ledger, from: Key, op: Op) {
    && EnvOk(env) && Running(env, s) && from in s.base
    && op.ByValidator() && op.done.Some? && op.address != op.done.value.va && AddressValid(env, op.address)
    && ActiveValidator(s, from, op.done.value.va)
    && (op.RoleAccess? ==> op.iw != ZERO_WK)
  }

  lemma WhitelistKeepsRunning(env: Env, s: Ledger, a: Address)
    requires EnvOk(env) && Running(env, s) && (a in s.nodes ==> s.nodes[a].role.Reader?)
    ensures Running(env, Whitelist(s, a, ReadEntry(s, a)))
  {
    var s' := Whitelist(s, a, ReadEntry(s, a));
    assert a in s.nodes ==> EntryOk(env, s, a);
    if a in s.nodes && s.nodes[a].license != 0 {
      RoleChangeKeepsRunning(env, s, s', a, s'.nodes[a]);
    } else {
      LicenseGrantKeepsRunning(env, s, s', a, s'.nodes[a]);
    }
  }

  /** The invariant at one address and one key. */
  lemma RunningAt(env: Env, s: Ledger, a: Address, k: Key)
    requires Running(env, s)
    ensures AdminOk(env, s) && (a in s.nodes ==> EntryOk(env, s, a)) && (k in s.base ==> MemberOk(s, k))
  {
  }

  lemma WhitelistFrame(s: Ledger, a: Address, read: Option<Entry>)
    ensures Whitelist(s, a, read).txs == s.txs && Whitelist(s, a, read).base == s.base
  {
  }

  lemma AppendWhitelistRuns(env: Env, s: Ledger, from: Key, op: Op)
    requires AdminCalled(env, s, from, op) && op.AdminControl?
    ensures var s' := AppendWhitelist(s, op).ledger; Running(env, s') && from in s'.base
  {
    hide Running, Whitelist;
    RunningAt(env, s, op.ia, from);
    if AppendWhitelist(s, op).status.Success? {
      var paid := PayForWhitelist(s, op.address);
      if InitializationDisabled(s) {
        DebitRuns(env, s, op.address, FEE);
      }
      assert ReadEntry(s, op.ia) == ReadEntry(paid, op.ia);
      WhitelistKeepsRunning(env, paid, op.ia);
      WhitelistFrame(paid, op.ia, ReadEntry(s, op.ia));
      RecordKeepsRunning(env, Whitelist(paid, op.ia, ReadEntry(s, op.ia)), op);
    }
  }

  lemma AddIndexerRuns(env: Env, s: Ledger, from: Key, op: Op)
    requires AdminCalled(env, s, from, op) && op.AdminControl?
    ensures var s' := AddIndexer(s, op).ledger; Running(env, s') && from in s'.base
  {
    var s' := AddIndexer(s, op).ledger;
    if s' != s {
      var e := s.nodes[op.ia].(role := Indexer);
      var t := s.(nodes := s.nodes[op.ia := e], base := s'.base);
      assert EntryOk(env, s, op.ia);
      RoleChangeKeepsRunning(env, s, t, op.ia, e);
      MoneyKeepsRunning(env, t, s'.nodes);
      RecordKeepsRunning(env, s'.(txs := s.txs), op);
    }
  }

  lemma RemoveIndexerRuns(env: Env, s: Ledger, from: Key, op: Op)
    requires AdminCalled(env, s, from, op) && op.AdminControl? && op.ia != op.address
    ensures var s' := RemoveIndexer(s, op).ledger; Running(env, s') && from in s'.base
  {
    hide Running;
    var s' := RemoveIndexer(s, op).ledger;
    if s' != s {
      RunningAt(env, s, op.ia, from);
      var e := s.nodes[op.ia].(role := Writer);
      var t := s.(nodes := s.nodes[op.ia := e], base := s'.base);
      RoleChangeKeepsRunning(env, s, t, op.ia, e);
      MoneyKeepsRunning(env, t, s'.nodes);
      WriterIndexKeepsRunning(env, t.(nodes := s'.nodes), op.ia);
      RecordKeepsRunning(env, s'.(txs := s.txs), op);
    }
  }

  lemma BanValidatorRuns(env: Env, s: Ledger, from: Key, op: Op)
    requires AdminCalled(env, s, from, op) && op.AdminControl?
    ensures var s' := BanValidator(env, s, op).ledger; Running(env, s') && from in s'.base
  {
    var s' := BanValidator(env, s, op).ledger;
    if s' != s {
      var e := s'.nodes[op.ia];
      var t := s.(nodes := s.nodes[op.ia := e], base := s'.base);
      assert EntryOk(env, s, op.ia) && EntryOk(env, s, op.address);
      RoleChangeKeepsRunning(env, s, t, op.ia, e);
      MoneyKeepsRunning(env, t, s'.nodes);
      RecordKeepsRunning(env, s'.(txs := s.txs), op);
    }
  }

  lemma AddWriterRuns(env: Env, s: Ledger, from: Key, op: Op)
    requires ValidatorCalled(env, s, from, op) && op.RoleAccess? && op.tx !in s.txs
    ensures var s' := AddWriter(env, s, op).ledger; Running(env, s') && from in s'.base
  {
    hide Running;
    var s' := AddWriter(env, s, op).ledger;
    if s' != s {
      var e := s'.nodes[op.address];
      var t := s.(nodes := s.nodes[op.address := e], base := s'.base, writerKeys := s'.writerKeys);
      RunningAt(env, s, op.address, op.iw);
      RoleChangeKeepsRunning(env, s, t, op.address, e);
      MoneyKeepsRunning(env, t, s'.nodes);
      WriterIndexKeepsRunning(env, t.(nodes := s'.nodes), op.address);
      RecordKeepsRunning(env, s'.(txs := s.txs), op);
    }
  }

  lemma RemoveWriterRuns(env: Env, s: Ledger, from: Key, op: Op)
    requires ValidatorCalled(env, s, from, op) && op.RoleAccess? && op.tx !in s.txs
    ensures var s' := RemoveWriter(env, s, op).ledger; Running(env, s') && from in s'.base
  {
    hide Running;
    var s' := RemoveWriter(env, s, op).ledger;
    if s' != s {
      var e := s'.nodes[op.address];
      var t := s.(nodes := s.nodes[op.address := e], base := s'.base);
      RunningAt(env, s, op.address, op.iw);
      RunningAt(env, s, op.done.value.va, from);
      RoleChangeKeepsRunning(env, s, t, op.address, e);
      MoneyKeepsRunning(env, t, s'.nodes);
      RecordKeepsRunning(env, s'.(txs := s.txs), op);
    }
  }

  lemma AdminRecoveryRuns(env: Env, s: Ledger, from: Key, op: Op)
    requires ValidatorCalled(env, s, from, op) && op.RoleAccess?
    ensures var s' := AdminRecovery(env, s, op).ledger; Running(env, s') && from in s'.base
  {
    hide Running;
    var s' := AdminRecovery(env, s, op).ledger;
    if s' != s {
      var e := s'.nodes[op.address];
      var t := s.(nodes := s.nodes[op.address := e], base := s'.base, writerKeys := s'.writerKeys);
      RunningAt(env, s, op.address, op.iw);
      RunningAt(env, s, op.done.value.va, from);
      RecoveryKeepsRunning(env, s, t, op.address, e);
      MoneyKeepsRunning(env, t.(admin := s'.admin), s'.nodes);
      RecordKeepsRunning(env, s'.(txs := s.txs), op);
    }
  }

  lemma DeployBootstrapRuns(env: Env, s: Ledger, from: Key, op: Op)
    requires ValidatorCalled(env, s, from, op) && op.BootstrapDeployment?
    ensures var s' := DeployBootstrap(env, s, op).ledger; Running(env, s') && from in s'.base
  {
    var s' := DeployBootstrap(env, s, op).ledger;
    if s' != s {
      MoneyKeepsRunning(env, s, s'.nodes);
      RecordKeepsRunning(env, s.(nodes := s'.nodes), op);
      DeploymentKeepsRunning(env, Record(s.(nodes := s'.nodes), op).ledger, op);
    }
  }

  lemma TransferFeeRuns(env: Env, s: Ledger, requester: Address, va: Address, creator: Address)
    requires Running(env, s)
    ensures Running(env, s.(nodes := TransferFee(env, s, requester, va, creator).nodes))
  {
    hide Running;
    if TransferFee(env, s, requester, va, creator).status.Success? {
      DebitRuns(env, s, requester, FEE);
      var s1 := s.(nodes := Debit(s.nodes, requester, FEE));
      CreditRuns(env, s1, va, PercentOfFee(50));
      var s2 := s.(nodes := Credit(s1.nodes, va, PercentOfFee(50)));
      if creator != requester { CreditRuns(env, s2, creator, PercentOfFee(25)); }
    }
  }

  lemma TransferFundsRuns(env: Env, s: Ledger, sender: Address, to: Address, va: Address, am: Amount)
    requires EnvOk(env) && Running(env, s) && sender != va
    ensures Running(env, s.(nodes := TransferFunds(env, s, sender, to, va, am).nodes))
  {
    hide Running;
    var f := TransferFunds(env, s, sender, to, va, am);
    if f.status.Success? {
      var total := if to == sender then FEE else am + FEE;
      DebitRuns(env, s, sender, total);
      var s1 := s.(nodes := Debit(s.nodes, sender, total));
      var s2 := if to == sender then s1
                else if to in s1.nodes then s1.(nodes := Credit(s1.nodes, to, am))
                else s1.(nodes := s1.nodes[to := NewReader(am)]);
      if to != sender {
        if to in s1.nodes { CreditRuns(env, s1, to, am); } else { NewReaderRuns(env, s1, to, am); }
      }
      CreditRuns(env, s2, va, PercentOfFee(75));
    }
  }

  lemma PenalizeKeepsInv(env: Env, s: Ledger, key: Key, n: nat)
    requires EnvOk(env) && Inv(env, s) && key in s.base
    ensures Inv(env, Penalize(env, s, key, n))
  {
    var s' := Penalize(env, s, key, n);
    if s' != s {
      var a := s.writerKeys[key];
      assert MemberOk(s, key) && EntryOk(env, s, a);
      RoleChangeKeepsRunning(env, s, s', a, s'.nodes[a]);
    }
  }

  // ---------- one node of a batch ----------

  /** The one operation that breaks the invariant: the admin, with the fee at hand, has itself removed
      from the indexers. */
  predicate SelfDemotes(env: Env, s: Ledger, from: Key, op: Op) {
    && op.AdminControl? && op.control.IndexerRemoval? && op.ia == op.address
    && AdminCall(env, s, from, op) && op.address in s.nodes && s.nodes[op.address].balance >= FEE
  }

  /** Setting a balance during initialization. */
  lemma SetBalanceKeepsRunning(env: Env, s: Ledger, op: Op)
    requires EnvOk(env) && Running(env, s) && op.BalanceInitialization? && op.tx !in s.txs
    ensures var e := if op.ia in s.nodes then s.nodes[op.ia].(balance := op.am) else NewReader(op.am);
            Running(env, Record(s.(nodes := s.nodes[op.ia := e]), op).ledger)
  {
    hide Running;
    var e := if op.ia in s.nodes then s.nodes[op.ia].(balance := op.am) else NewReader(op.am);
    var t := s.(nodes := s.nodes[op.ia := e]);
    if op.ia in s.nodes { MoneyKeepsRunning(env, s, t.nodes); } else { NewReaderRuns(env, s, op.ia, op.am); }
    RecordKeepsRunning(env, t, op);
  }

  /** The admin is added to the genesis only. */
  lemma FirstAdminRuns(env: Env, from: Key, op: Op)
    requires EnvOk(env) && op.CoreAdmin? && ApplyAddAdmin(env, Genesis(env), from, op).status.Success?
    ensures Running(env, ApplyAddAdmin(env, Genesis(env), from, op).ledger)
  {
    assert EntryOk(env, ApplyAddAdmin(env, Genesis(env), from, op).ledger, op.address);
  }

  lemma CoreOperationKeepsInv(env: Env, s: Ledger, from: Key, op: Op)
    requires EnvOk(env) && Inv(env, s) && from in s.base && (op.CoreAdmin? || op.BalanceInitialization?)
    ensures var s' := ApplyOp(env, s, from, op).ledger; Inv(env, s') && from in s'.base
  {
    var s' := ApplyOp(env, s, from, op).ledger;
    if s' != s {
      if op.Type().ADD_ADMIN? {
        assert ApplyOp(env, s, from, op) == ApplyAddAdmin(env, s, from, op);
        FirstAdminRuns(env, from, op);
      } else if op.Type().DISABLE_INITIALIZATION? {
        SameCore(env, s, s');
      } else {
        SetBalanceKeepsRunning(env, s, op);
      }
    }
  }

  lemma UnpaidRemovalFails(s: Ledger, op: Op)
    requires op.AdminControl? && (op.address !in s.nodes || s.nodes[op.address].balance < FEE)
    ensures RemoveIndexer(s, op) == Fail(s)
  {
  }

  lemma ControlOperationKeepsInv(env: Env, s: Ledger, from: Key, op: Op)
    requires EnvOk(env) && Inv(env, s) && from in s.base && op.AdminControl? && !SelfDemotes(env, s, from, op)
    ensures var s' := ApplyOp(env, s, from, op).ledger; Inv(env, s') && from in s'.base
  {
    hide AppendWhitelist, AddIndexer, RemoveIndexer, BanValidator, Running;
    if AdminCall(env, s, from, op) {
      match op.control
      case Whitelisting => AppendWhitelistRuns(env, s, from, op);
      case IndexerAddition => AddIndexerRuns(env, s, from, op);
      case IndexerRemoval =>
        if op.ia == op.address { UnpaidRemovalFails(s, op); } else { RemoveIndexerRuns(env, s, from, op); }
      case Ban => BanValidatorRuns(env, s, from, op);
    }
  }

  lemma AccessOperationKeepsInv(env: Env, s: Ledger, from: Key, op: Op)
    requires EnvOk(env) && Inv(env, s) && from in s.base && op.RoleAccess?
    ensures var s' := ApplyOp(env, s, from, op).ledger; Inv(env, s') && from in s'.base
  {
    hide AddWriter, RemoveWriter, AdminRecovery, Running;
    if ValidatorCall(env, s, from, op) && op.tx !in s.txs {
      match op.access
      case WriterAddition => AddWriterRuns(env, s, from, op);
      case WriterRemoval => RemoveWriterRuns(env, s, from, op);
      case Recovery => AdminRecoveryRuns(env, s, from, op);
    } else if ValidatorCall(env, s, from, op) && op.access.Recovery? {
      RecordedRecoveryFails(env, s, op);
    }
  }

  lemma RecordedRecoveryFails(env: Env, s: Ledger, op: Op)
    requires op.RoleAccess? && op.done.Some? && op.tx in s.txs
    ensures AdminRecovery(env, s, op) == Fail(s)
  {
  }

  lemma MoneyOperationKeepsInv(env: Env, s: Ledger, from: Key, op: Op)
    requires EnvOk(env) && Inv(env, s) && from in s.base && op.ByValidator() && !op.RoleAccess?
    ensures var s' := ApplyOp(env, s, from, op).ledger; Inv(env, s') && from in s'.base
  {
    hide TransferFee, TransferFunds, Settle, Running, Credit, Debit, CanCredit;
    if ValidatorCall(env, s, from, op) && op.tx !in s.txs {
      if op.BootstrapDeployment? {
        DeployBootstrapRuns(env, s, from, op);
      } else if op.SubnetTx? {
        if op.bs in s.deployments { SubnetTxKeepsInv(env, s, from, op); }
      } else {
        TransferKeepsInv(env, s, from, op);
      }
    }
  }

  lemma ValidatorOperationKeepsInv(env: Env, s: Ledger, from: Key, op: Op)
    requires EnvOk(env) && Inv(env, s) && from in s.base && op.ByValidator()
    ensures var s' := ApplyOp(env, s, from, op).ledger; Inv(env, s') && from in s'.base
  {
    hide ApplyOp, Inv;
    if op.RoleAccess? { AccessOperationKeepsInv(env, s, from, op); } else { MoneyOperationKeepsInv(env, s, from, op); }
  }

  lemma SettleKeepsRunning(env: Env, s: Ledger, f: Funds, op: Op)
    requires Running(env, s) && op.tx !in s.txs && Running(env, s.(nodes := f.nodes))
    ensures Running(env, Settle(s, f, op).ledger)
  {
    RecordKeepsRunning(env, s.(nodes := f.nodes), op);
  }

  lemma SubnetTxKeepsInv(env: Env, s: Ledger, from: Key, op: Op)
    requires EnvOk(env) && Running(env, s) && op.SubnetTx? && op.done.Some? && op.tx !in s.txs && op.bs in s.deployments
    ensures var f := TransferFee(env, s, op.address, op.done.value.va, s.deployments[op.bs].creator);
            Running(env, Settle(s, f, op).ledger) && Settle(s, f, op).ledger.base == s.base
  {
    TransferFeeRuns(env, s, op.address, op.done.value.va, s.deployments[op.bs].creator);
    SettleKeepsRunning(env, s, TransferFee(env, s, op.address, op.done.value.va, s.deployments[op.bs].creator), op);
  }

  lemma TransferKeepsInv(env: Env, s: Ledger, from: Key, op: Op)
    requires EnvOk(env) && Running(env, s) && op.Transfer? && op.done.Some? && op.tx !in s.txs
    requires op.address != op.done.value.va
    ensures var f := TransferFunds(env, s, op.address, op.to, op.done.value.va, op.am);
            Running(env, Settle(s, f, op).ledger) && Settle(s, f, op).ledger.base == s.base
  {
    TransferFundsRuns(env, s, op.address, op.to, op.done.value.va, op.am);
    SettleKeepsRunning(env, s, TransferFunds(env, s, op.address, op.to, op.done.value.va, op.am), op);
  }

  lemma OperationKeepsInv(env: Env, s: Ledger, from: Key, op: Op)
    requires EnvOk(env) && Inv(env, s) && from in s.base && !SelfDemotes(env, s, from, op)
    ensures var s' := ApplyOp(env, s, from, op).ledger; Inv(env, s') && from in s'.base
  {
    if op.CoreAdmin? || op.BalanceInitialization? {
      CoreOperationKeepsInv(env, s, from, op);
    } else if op.AdminControl? {
      ControlOperationKeepsInv(env, s, from, op);
    } else {
      ValidatorOperationKeepsInv(env, s, from, op);
    }
  }

  /** The premise is exact: that operation leaves an indexer entry whose key has no indexer rights, and
      every other one, refused or not, keeps the invariant. */
  lemma PremiseIsExact(env: Env, s: Ledger, from: Key, op: Op)
    requires EnvOk(env) && Inv(env, s) && from in s.base
    ensures Inv(env, ApplyOp(env, s, from, op).ledger) <==> !SelfDemotes(env, s, from, op)
  {
    if SelfDemotes(env, s, from, op) {
      var s' := ApplyOp(env, s, from, op).ledger;
      assert EntryOk(env, s, op.address);
      assert s' == RemoveIndexer(s, op).ledger;
      assert !EntryOk(env, s', op.address);
    } else {
      OperationKeepsInv(env, s, from, op);
    }
  }
}
