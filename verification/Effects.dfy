/**
 What a success changes, field by field: one table for each field of an entry and of the ledger over all
 thirteen types. The handlers say it operation by operation; here every field that is not named stays.
 */
module Effects {
  import opened Bytes
  import opened Records
  import opened Ledger
  import opened Dispatch
  import opened Invariant

  /** An entry that is not there counts as that of a reader with nothing. */
  function At(s: Ledger, a: Address): Entry {
    if a in s.nodes then s.nodes[a] else Entry(Reader, ZERO_WK, 0, 0, 0)
  }

  // ---------- the fields of an entry ----------

  function RoleAfter(s: Ledger, op: Op, a: Address): Role {
    match op.Type()
    case ADD_ADMIN => if a == op.address then Indexer else At(s, a).role
    case APPEND_WHITELIST => if a == op.ia then Whitelisted else At(s, a).role
    case ADD_WRITER => if a == op.address then Writer else At(s, a).role
    case REMOVE_WRITER => if a == op.address then Whitelisted else At(s, a).role
    case ADD_INDEXER => if a == op.ia then Indexer else At(s, a).role
    case REMOVE_INDEXER => if a == op.ia && a != op.address then Writer else At(s, a).role
    case BAN_VALIDATOR => if a == op.ia then Reader else At(s, a).role
    case _ => At(s, a).role
  }

  /** The three that name a key give it to their requester. */
  predicate GivesKey(op: Op) {
    op.Type() in {ADD_ADMIN, ADD_WRITER, ADMIN_RECOVERY}
  }

  function KeyAfter(s: Ledger, op: Op, a: Address): Key {
    if GivesKey(op) && a == op.address then op.iw else At(s, a).wk
  }

  function StakeAfter(s: Ledger, op: Op, a: Address): nat {
    match op.Type()
    case ADD_ADMIN => if a == op.address then STAKE else At(s, a).stake
    case ADD_WRITER => if a == op.address then STAKE else At(s, a).stake
    case REMOVE_WRITER => if a == op.address then 0 else At(s, a).stake
    case BAN_VALIDATOR => if a == op.ia then 0 else At(s, a).stake
    case _ => At(s, a).stake
  }

  /** Who gets the next licence. */
  function Licensed(s: Ledger, op: Op): Option<Address> {
    match op.Type()
    case ADD_ADMIN => Some(op.address)
    case APPEND_WHITELIST => if At(s, op.ia).license == 0 then Some(op.ia) else None
    case _ => None
  }

  function LicenseAfter(s: Ledger, op: Op, a: Address): nat {
    if Licensed(s, op) == Some(a) then s.licenseCount + 1 else At(s, a).license
  }

  /** What the requester parts with. */
  function Cost(s: Ledger, op: Op): nat {
    match op.Type()
    case ADD_ADMIN => 0
    case DISABLE_INITIALIZATION => 0
    case BALANCE_INITIALIZATION => 0
    case APPEND_WHITELIST => if s.initialization == Some(false) then FEE else 0
    case ADD_WRITER => 11 * FEE
    case TRANSFER => if op.to == op.address then FEE else op.am + FEE
    case _ => FEE
  }

  /** What the validator earns. */
  function Reward(op: Op): nat {
    if op.SubnetTx? then FEE / 2 else 3 * FEE / 4
  }

  /** What someone gets besides. */
  function Gain(s: Ledger, op: Op, a: Address): int {
    match op.Type()
    case ADD_ADMIN => if a == op.address then ADMIN_INITIAL_BALANCE - At(s, a).balance else 0
    case BALANCE_INITIALIZATION => if a == op.ia then op.am - At(s, a).balance else 0
    case REMOVE_WRITER => if a == op.address then At(s, a).stake else 0
    case BAN_VALIDATOR => if a == op.ia then At(s, a).stake else 0
    case TX => if op.bs in s.deployments && a == s.deployments[op.bs].creator && a != op.address then FEE / 4 else 0
    case TRANSFER => if a == op.to && a != op.address then op.am else 0
    case _ => 0
  }

  function BalanceAfter(s: Ledger, op: Op, a: Address): int {
    At(s, a).balance + Gain(s, op, a) - (if a == op.address then Cost(s, op) else 0)
    + (if op.ByValidator() && op.done.Some? && a == op.done.value.va then Reward(op) else 0)
  }

  ghost predicate EntryFollows(s: Ledger, op: Op, s': Ledger, a: Address) {
    var e := At(s', a);
    && e.role == RoleAfter(s, op, a) && e.wk == KeyAfter(s, op, a) && e.stake == StakeAfter(s, op, a)
    && e.license == LicenseAfter(s, op, a) && e.balance == BalanceAfter(s, op, a)
  }

  /** Who has an entry afterwards. */
  function NodesAfter(s: Ledger, op: Op): set<Address> {
    match op.Type()
    case ADD_ADMIN => s.nodes.Keys + {op.address}
    case BALANCE_INITIALIZATION => s.nodes.Keys + {op.ia}
    case APPEND_WHITELIST => s.nodes.Keys + {op.ia}
    case TRANSFER => s.nodes.Keys + {op.to}
    case _ => s.nodes.Keys
  }

  // ---------- the fields of the ledger ----------

  function FlagAfter(s: Ledger, op: Op): Option<bool> {
    match op.Type()
    case ADD_ADMIN => Some(true)
    case DISABLE_INITIALIZATION => Some(false)
    case _ => s.initialization
  }

  function AdminAfter(s: Ledger, op: Op): Option<AdminEntry> {
    if op.Type() in {ADD_ADMIN, ADMIN_RECOVERY} then Some(AdminEntry(op.address, op.iw)) else s.admin
  }

  function RegistryAfter(s: Ledger, op: Op): map<Key, Address> {
    if GivesKey(op) then s.writerKeys[op.iw := op.address] else s.writerKeys
  }

  /** Whose address is appended to the index of writers. */
  function Indexed(op: Op): Option<Address> {
    match op.Type()
    case ADD_ADMIN => Some(op.address)
    case ADD_WRITER => Some(op.address)
    case REMOVE_INDEXER => Some(op.ia)
    case _ => None
  }

  /** The writer set; the flag of a key says whether it is an indexer's. */
  function BaseAfter(s: Ledger, op: Op): map<Key, bool> {
    match op.Type()
    case ADD_WRITER => s.base[op.iw := false]
    case REMOVE_WRITER => s.base - {op.iw}
    case ADMIN_RECOVERY => (if s.admin.Some? then s.base - {s.admin.value.wk} else s.base)[op.iw := true]
    case ADD_INDEXER => s.base[At(s, op.ia).wk := true]
    case REMOVE_INDEXER => s.base[At(s, op.ia).wk := false]
    case BAN_VALIDATOR => if At(s, op.ia).role.Writer? then s.base - {At(s, op.ia).wk} else s.base
    case _ => s.base
  }

  function DeploymentsAfter(s: Ledger, op: Op): map<Key, Deployment> {
    if op.BootstrapDeployment? then s.deployments[op.bs := Deployment(op.tx, op.address)] else s.deployments
  }

  ghost predicate BooksFollow(s: Ledger, op: Op, s': Ledger) {
    && s'.initialization == FlagAfter(s, op) && s'.admin == AdminAfter(s, op)
    && s'.writerKeys == RegistryAfter(s, op) && s'.base == BaseAfter(s, op)
    && s'.deployments == DeploymentsAfter(s, op) && s'.txs == s.txs[op.tx := op]
    && (match Indexed(op)
        case Some(a) => s'.writersLength == s.writersLength + 1 && s'.writersIndex == s.writersIndex[s.writersLength := a]
        case None => s'.writersLength == s.writersLength && s'.writersIndex == s.writersIndex)
    && (match Licensed(s, op)
        case Some(a) => s'.licenseCount == s.licenseCount + 1 && s'.licenseIndex == s.licenseIndex[s.licenseCount + 1 := a]
        case None => s'.licenseCount == s.licenseCount && s'.licenseIndex == s.licenseIndex)
  }

  ghost predicate EntriesFollow(s: Ledger, op: Op, s': Ledger) {
    s'.nodes.Keys == NodesAfter(s, op) && forall a {:trigger EntryFollows(s, op, s', a)} :: EntryFollows(s, op, s', a)
  }

  ghost predicate Follows(s: Ledger, op: Op, s': Ledger) {
    EntriesFollow(s, op, s') && BooksFollow(s, op, s')
  }

  /** The validator's entry with its reward. */
  ghost function Paid(s: Ledger, op: Op): Entry
    requires op.ByValidator() && op.done.Some? && op.done.value.va in s.nodes
  {
    var e := s.nodes[op.done.value.va];
    e.(balance := e.balance + Reward(op))
  }

  /** Two entries are rewritten, and the others stay. */
  ghost predicate TwoWritten(n: map<Address, Entry>, n': map<Address, Entry>, a: Address, e: Entry, b: Address, f: Entry) {
    && n'.Keys == n.Keys && a in n && b in n && n'[a] == e && n'[b] == f
    && forall c {:trigger n'[c]} :: c in n && c != a && c != b ==> n'[c] == n[c]
  }

  /** Entries that differ in their balances alone, by what is said at each address. */
  ghost predicate Moved(n: map<Address, Entry>, n': map<Address, Entry>, a: Address, change: int) {
    var e := if a in n then n[a] else Entry(Reader, ZERO_WK, 0, 0, 0);
    && (a in n ==> a in n')
    && var e' := if a in n' then n'[a] else Entry(Reader, ZERO_WK, 0, 0, 0);
    && e.balance + change >= 0 && e' == e.(balance := e.balance + change)
  }

  // ---------- core and admin operations ----------

  lemma NothingBefore(env: Env, s: Ledger)
    requires Inv(env, s) && s.admin.None?
    ensures s.nodes == map[]
  {
  }

  lemma AddAdminBooks(env: Env, s: Ledger, from: Key, op: Op)
    requires Inv(env, s) && op.Type().ADD_ADMIN? && ApplyAddAdmin(env, s, from, op).status.Success?
    ensures BooksFollow(s, op, ApplyAddAdmin(env, s, from, op).ledger)
  {
    NothingBefore(env, s);
    hide Authentic, UpToDate, Inv;
  }

  lemma AddAdminWrites(env: Env, s: Ledger, from: Key, op: Op)
    requires Inv(env, s) && op.Type().ADD_ADMIN? && ApplyAddAdmin(env, s, from, op).status.Success?
    ensures s.nodes == map[]
    ensures ApplyAddAdmin(env, s, from, op).ledger.nodes
         == map[op.address := Entry(Indexer, op.iw, ADMIN_INITIAL_BALANCE, s.licenseCount + 1, STAKE)]
  {
    NothingBefore(env, s);
    hide Authentic, UpToDate, Inv;
  }

  lemma AddAdminEntries(env: Env, s: Ledger, from: Key, op: Op)
    requires Inv(env, s) && op.Type().ADD_ADMIN? && ApplyAddAdmin(env, s, from, op).status.Success?
    ensures EntriesFollow(s, op, ApplyAddAdmin(env, s, from, op).ledger)
  {
    AddAdminWrites(env, s, from, op);
    hide ApplyAddAdmin, Inv;
  }

  lemma AddAdminFollows(env: Env, s: Ledger, from: Key, op: Op)
    requires Inv(env, s) && op.Type().ADD_ADMIN? && ApplyAddAdmin(env, s, from, op).status.Success?
    ensures Follows(s, op, ApplyAddAdmin(env, s, from, op).ledger)
  {
    hide BooksFollow, EntriesFollow, ApplyAddAdmin;
    AddAdminBooks(env, s, from, op);
    AddAdminEntries(env, s, from, op);
  }

  lemma DisableFollows(env: Env, s: Ledger, from: Key, op: Op)
    requires op.Type().DISABLE_INITIALIZATION? && ApplyDisableInitialization(env, s, from, op).status.Success?
    ensures Follows(s, op, ApplyDisableInitialization(env, s, from, op).ledger)
  {
    hide AdminCall;
  }

  lemma BalanceFollows(env: Env, s: Ledger, from: Key, op: Op)
    requires op.BalanceInitialization? && ApplyBalanceInitialization(env, s, from, op).status.Success?
    ensures Follows(s, op, ApplyBalanceInitialization(env, s, from, op).ledger)
  {
    hide AdminCall;
  }

  lemma CoreFollows(env: Env, s: Ledger, from: Key, op: Op)
    requires Inv(env, s) && (op.CoreAdmin? || op.BalanceInitialization?) && ApplyOp(env, s, from, op).status.Success?
    ensures Follows(s, op, ApplyOp(env, s, from, op).ledger)
  {
    hide Follows, Inv, ApplyAddAdmin, ApplyDisableInitialization, ApplyBalanceInitialization;
    if op.BalanceInitialization? { BalanceFollows(env, s, from, op); }
    else if op.Type().ADD_ADMIN? { AddAdminFollows(env, s, from, op); }
    else { DisableFollows(env, s, from, op); }
  }

  /** The payment, if there is one, and then a licence, if there is none yet. */
  lemma WhitelistFollows(s: Ledger, op: Op)
    requires op.AdminControl? && op.control.Whitelisting? && AppendWhitelist(s, op).status.Success?
    requires op.address in s.nodes && s.nodes[op.address].role.Indexer?
    ensures Follows(s, op, AppendWhitelist(s, op).ledger)
  {
    assert op.ia != op.address;
    WhitelistBooks(s, op);
    WhitelistEntries(s, op);
    hide BooksFollow, EntriesFollow, AppendWhitelist;
  }

  lemma WhitelistBooks(s: Ledger, op: Op)
    requires op.AdminControl? && op.control.Whitelisting? && AppendWhitelist(s, op).status.Success?
    ensures BooksFollow(s, op, AppendWhitelist(s, op).ledger)
  {
    var read, paid := ReadEntry(s, op.ia), PayForWhitelist(s, op.address);
    WhitelistAlone(paid, op.ia, read);
    assert read.Some? && read.value.license != 0 <==> At(s, op.ia).license != 0;
    PaymentTouchesNodes(s, op.address);
    hide Whitelist, PayForWhitelist, ReadEntry, At;
    var t := Whitelist(paid, op.ia, read);
    assert AppendWhitelist(s, op).ledger == t.(txs := t.txs[op.tx := op]);
    hide AppendWhitelist;
  }

  lemma PaymentTouchesNodes(s: Ledger, admin: Address)
    requires s.initialization == Some(false) ==> admin in s.nodes && s.nodes[admin].balance >= FEE
    ensures PayForWhitelist(s, admin) == s.(nodes := PayForWhitelist(s, admin).nodes)
  {
  }

  /** Whitelisting itself, given the entry read before. */
  lemma WhitelistAlone(s: Ledger, a: Address, read: Option<Entry>)
    ensures var t := Whitelist(s, a, read);
            && t.initialization == s.initialization && t.admin == s.admin && t.writerKeys == s.writerKeys && t.base == s.base
            && t.deployments == s.deployments && t.txs == s.txs
            && t.writersLength == s.writersLength && t.writersIndex == s.writersIndex
    ensures var t := Whitelist(s, a, read);
            if read.Some? && read.value.license != 0 then
              t.licenseCount == s.licenseCount && t.licenseIndex == s.licenseIndex
            else t.licenseCount == s.licenseCount + 1 && t.licenseIndex == s.licenseIndex[s.licenseCount + 1 := a]
    ensures var e := if read.Some? then read.value else Entry(Reader, ZERO_WK, 0, 0, 0);
            var license := if read.Some? && read.value.license != 0 then read.value.license else s.licenseCount + 1;
            Whitelist(s, a, read).nodes == s.nodes[a := e.(role := Whitelisted, license := license)]
  {
    if read.Some? && read.value.license != 0 {
      assert read.value.(role := Whitelisted) == read.value.(role := Whitelisted, license := read.value.license);
    }
  }

  lemma PaymentAlone(s: Ledger, admin: Address, a: Address)
    requires s.initialization == Some(false) ==> admin in s.nodes && s.nodes[admin].balance >= FEE
    ensures var paid := PayForWhitelist(s, admin);
            && paid.nodes.Keys == s.nodes.Keys
            && (a in s.nodes ==> paid.nodes[a] == s.nodes[a].(
                  balance := s.nodes[a].balance - if a == admin && s.initialization == Some(false) then FEE else 0))
  {
  }

  /** What is written, without the tables. */
  lemma WhitelistWrites(s: Ledger, op: Op, a: Address)
    requires op.AdminControl? && AppendWhitelist(s, op).status.Success? && op.address in s.nodes && op.ia != op.address
    ensures var s' := AppendWhitelist(s, op).ledger;
            && s'.nodes.Keys == s.nodes.Keys + {op.ia}
            && At(s', a) == if a == op.ia then
                              At(s, a).(role := Whitelisted,
                                        license := if At(s, a).license != 0 then At(s, a).license else s.licenseCount + 1)
                            else if a == op.address && s.initialization == Some(false) then
                              At(s, a).(balance := s.nodes[a].balance - FEE)
                            else At(s, a)
  {
    var read, paid := ReadEntry(s, op.ia), PayForWhitelist(s, op.address);
    WhitelistAlone(paid, op.ia, read);
    PaymentAlone(s, op.address, a);
    hide Whitelist, PayForWhitelist;
    assert AppendWhitelist(s, op).ledger.nodes == Whitelist(paid, op.ia, read).nodes;
  }

  lemma WhitelistEntryAt(s: Ledger, op: Op, a: Address)
    requires op.AdminControl? && op.control.Whitelisting? && AppendWhitelist(s, op).status.Success?
    requires op.address in s.nodes && op.ia != op.address
    ensures EntryFollows(s, op, AppendWhitelist(s, op).ledger, a)
    ensures AppendWhitelist(s, op).ledger.nodes.Keys == NodesAfter(s, op)
  {
    WhitelistWrites(s, op, a);
    hide AppendWhitelist;
  }

  lemma WhitelistEntries(s: Ledger, op: Op)
    requires op.AdminControl? && op.control.Whitelisting? && AppendWhitelist(s, op).status.Success?
    requires op.address in s.nodes && op.ia != op.address
    ensures EntriesFollow(s, op, AppendWhitelist(s, op).ledger)
  {
    hide EntryFollows, AppendWhitelist, NodesAfter;
    WhitelistEntryAt(s, op, op.ia);
    forall a ensures EntryFollows(s, op, AppendWhitelist(s, op).ledger, a) { WhitelistEntryAt(s, op, a); }
  }

  lemma AddIndexerFollows(s: Ledger, op: Op)
    requires op.AdminControl? && op.control.IndexerAddition? && AddIndexer(s, op).status.Success?
    requires op.address in s.nodes && s.nodes[op.address].role.Indexer?
    ensures Follows(s, op, AddIndexer(s, op).ledger)
  {
    hide Indexers;
  }

  lemma RemoveIndexerFollows(s: Ledger, op: Op)
    requires op.AdminControl? && op.control.IndexerRemoval? && RemoveIndexer(s, op).status.Success?
    ensures Follows(s, op, RemoveIndexer(s, op).ledger)
  {
    hide Indexers;
  }

  lemma BanBooks(env: Env, s: Ledger, op: Op)
    requires op.AdminControl? && op.control.Ban? && BanValidator(env, s, op).status.Success?
    requires op.address in s.nodes && s.nodes[op.address].role.Indexer?
    requires op.ia in s.nodes ==> EntryOk(env, s, op.ia)
    ensures BooksFollow(s, op, BanValidator(env, s, op).ledger)
  {
  }

  lemma BanWrites(env: Env, s: Ledger, op: Op)
    requires op.AdminControl? && op.control.Ban? && BanValidator(env, s, op).status.Success?
    requires op.address in s.nodes && s.nodes[op.address].role.Indexer?
    requires op.ia in s.nodes ==> EntryOk(env, s, op.ia)
    ensures op.ia in s.nodes && op.ia != op.address && s.nodes[op.address].balance >= FEE
            && var e, admin := s.nodes[op.ia], s.nodes[op.address];
               TwoWritten(s.nodes, BanValidator(env, s, op).ledger.nodes, op.ia,
                          e.(role := Reader, balance := e.balance + e.stake, stake := 0),
                          op.address, admin.(balance := admin.balance - FEE))
  {
  }

  lemma BanEntries(env: Env, s: Ledger, op: Op)
    requires op.AdminControl? && op.control.Ban? && BanValidator(env, s, op).status.Success?
    requires op.address in s.nodes && s.nodes[op.address].role.Indexer?
    requires op.ia in s.nodes ==> EntryOk(env, s, op.ia)
    ensures EntriesFollow(s, op, BanValidator(env, s, op).ledger)
  {
    BanWrites(env, s, op);
    hide BanValidator;
  }

  lemma BanFollows(env: Env, s: Ledger, op: Op)
    requires op.AdminControl? && op.control.Ban? && BanValidator(env, s, op).status.Success?
    requires op.address in s.nodes && s.nodes[op.address].role.Indexer?
    requires op.ia in s.nodes ==> EntryOk(env, s, op.ia)
    ensures Follows(s, op, BanValidator(env, s, op).ledger)
  {
    hide BooksFollow, EntriesFollow, BanValidator;
    BanBooks(env, s, op);
    BanEntries(env, s, op);
  }

  lemma ControlFollows(env: Env, s: Ledger, from: Key, op: Op)
    requires Inv(env, s) && op.AdminControl? && ApplyOp(env, s, from, op).status.Success?
    ensures Follows(s, op, ApplyOp(env, s, from, op).ledger)
  {
    ControlDispatch(env, s, from, op);
    assert op.ia in s.nodes ==> EntryOk(env, s, op.ia);
    hide ApplyOp, Running, Follows, AppendWhitelist, AddIndexer, RemoveIndexer, BanValidator, EntryOk;
    match op.control
    case Whitelisting => WhitelistFollows(s, op);
    case IndexerAddition => AddIndexerFollows(s, op);
    case IndexerRemoval => RemoveIndexerFollows(s, op);
    case Ban => BanFollows(env, s, op);
  }

  // ---------- operations that a validator completes ----------

  /** The requester's entry is rewritten, and the validator is paid. */
  lemma RequestWrites(n: map<Address, Entry>, a: Address, e: Entry, va: Address, amount: nat)
    requires a in n && va in n && a != va
    ensures var n' := Credit(n[a := e], va, amount);
            && n'.Keys == n.Keys && n'[a] == e && n'[va] == n[va].(balance := n[va].balance + amount)
            && forall b {:trigger n'[b]} :: b in n && b != a && b != va ==> n'[b] == n[b]
  {
  }

  lemma AddWriterBooks(env: Env, s: Ledger, op: Op)
    requires op.RoleAccess? && op.access.WriterAddition? && op.done.Some? && op.address != op.done.value.va
    requires AddWriter(env, s, op).status.Success?
    ensures BooksFollow(s, op, AddWriter(env, s, op).ledger)
  {
    hide Credit;
  }

  lemma AddWriterWrites(env: Env, s: Ledger, op: Op)
    requires op.RoleAccess? && op.access.WriterAddition? && op.done.Some? && op.address != op.done.value.va
    requires AddWriter(env, s, op).status.Success?
    ensures op.address in s.nodes
    ensures var e := s.nodes[op.address];
            && e.balance >= 11 * FEE && op.done.value.va in s.nodes
            && TwoWritten(s.nodes, AddWriter(env, s, op).ledger.nodes, op.address,
                          e.(role := Writer, wk := op.iw, balance := e.balance - 11 * FEE, stake := STAKE),
                          op.done.value.va, Paid(s, op))
  {
    var e := s.nodes[op.address];
    RequestWrites(s.nodes, op.address,
                  e.(role := Writer, wk := op.iw, balance := e.balance - 11 * FEE, stake := STAKE), op.done.value.va, PercentOfFee(75));
    hide Credit;
  }

  lemma AddWriterEntries(env: Env, s: Ledger, op: Op)
    requires op.RoleAccess? && op.access.WriterAddition? && op.done.Some? && op.address != op.done.value.va
    requires AddWriter(env, s, op).status.Success?
    ensures EntriesFollow(s, op, AddWriter(env, s, op).ledger)
  {
    AddWriterWrites(env, s, op);
    hide AddWriter;
  }

  lemma AddWriterFollows(env: Env, s: Ledger, op: Op)
    requires op.RoleAccess? && op.access.WriterAddition? && op.done.Some? && op.address != op.done.value.va
    requires AddWriter(env, s, op).status.Success?
    ensures Follows(s, op, AddWriter(env, s, op).ledger)
  {
    hide BooksFollow, EntriesFollow, AddWriter;
    AddWriterBooks(env, s, op);
    AddWriterEntries(env, s, op);
  }

  lemma RemoveWriterBooks(env: Env, s: Ledger, op: Op)
    requires op.RoleAccess? && op.access.WriterRemoval? && op.done.Some? && op.address != op.done.value.va
    requires RemoveWriter(env, s, op).status.Success?
    ensures BooksFollow(s, op, RemoveWriter(env, s, op).ledger)
  {
    hide Credit;
  }

  lemma RemoveWriterWrites(env: Env, s: Ledger, op: Op)
    requires op.RoleAccess? && op.access.WriterRemoval? && op.done.Some? && op.address != op.done.value.va
    requires RemoveWriter(env, s, op).status.Success?
    ensures op.address in s.nodes
    ensures var e := s.nodes[op.address];
            && e.balance >= FEE && e.wk == op.iw && op.done.value.va in s.nodes
            && TwoWritten(s.nodes, RemoveWriter(env, s, op).ledger.nodes, op.address,
                          e.(role := Whitelisted, balance := e.balance - FEE + e.stake, stake := 0),
                          op.done.value.va, Paid(s, op))
  {
    var e := s.nodes[op.address];
    RequestWrites(s.nodes, op.address,
                  e.(role := Whitelisted, balance := e.balance - FEE + e.stake, stake := 0), op.done.value.va, PercentOfFee(75));
    hide Credit;
  }

  lemma RemoveWriterEntries(env: Env, s: Ledger, op: Op)
    requires op.RoleAccess? && op.access.WriterRemoval? && op.done.Some? && op.address != op.done.value.va
    requires RemoveWriter(env, s, op).status.Success?
    ensures EntriesFollow(s, op, RemoveWriter(env, s, op).ledger)
  {
    RemoveWriterWrites(env, s, op);
    hide RemoveWriter;
  }

  lemma RemoveWriterFollows(env: Env, s: Ledger, op: Op)
    requires op.RoleAccess? && op.access.WriterRemoval? && op.done.Some? && op.address != op.done.value.va
    requires RemoveWriter(env, s, op).status.Success?
    ensures Follows(s, op, RemoveWriter(env, s, op).ledger)
  {
    hide BooksFollow, EntriesFollow, RemoveWriter;
    RemoveWriterBooks(env, s, op);
    RemoveWriterEntries(env, s, op);
  }

  lemma RecoveryBooks(env: Env, s: Ledger, op: Op)
    requires op.RoleAccess? && op.access.Recovery? && op.done.Some? && op.address != op.done.value.va
    requires AdminRecovery(env, s, op).status.Success?
    ensures BooksFollow(s, op, AdminRecovery(env, s, op).ledger)
  {
    hide Indexers, Credit;
  }

  lemma RecoveryWrites(env: Env, s: Ledger, op: Op)
    requires op.RoleAccess? && op.access.Recovery? && op.done.Some? && op.address != op.done.value.va
    requires AdminRecovery(env, s, op).status.Success?
    ensures op.address in s.nodes
    ensures var e := s.nodes[op.address];
            && e.balance >= FEE && op.done.value.va in s.nodes
            && TwoWritten(s.nodes, AdminRecovery(env, s, op).ledger.nodes, op.address,
                          e.(wk := op.iw, balance := e.balance - FEE),
                          op.done.value.va, Paid(s, op))
  {
    var e := s.nodes[op.address];
    RequestWrites(s.nodes, op.address, e.(wk := op.iw, balance := e.balance - FEE), op.done.value.va, PercentOfFee(75));
    hide Credit;
  }

  lemma RecoveryEntries(env: Env, s: Ledger, op: Op)
    requires op.RoleAccess? && op.access.Recovery? && op.done.Some? && op.address != op.done.value.va
    requires AdminRecovery(env, s, op).status.Success?
    ensures EntriesFollow(s, op, AdminRecovery(env, s, op).ledger)
  {
    RecoveryWrites(env, s, op);
    hide AdminRecovery;
  }

  lemma RecoveryFollows(env: Env, s: Ledger, op: Op)
    requires op.RoleAccess? && op.access.Recovery? && op.done.Some? && op.address != op.done.value.va
    requires AdminRecovery(env, s, op).status.Success?
    ensures Follows(s, op, AdminRecovery(env, s, op).ledger)
  {
    hide BooksFollow, EntriesFollow, AdminRecovery;
    RecoveryBooks(env, s, op);
    RecoveryEntries(env, s, op);
  }

  lemma DeployBooks(env: Env, s: Ledger, op: Op)
    requires op.BootstrapDeployment? && op.done.Some? && op.address != op.done.value.va
    requires DeployBootstrap(env, s, op).status.Success?
    ensures BooksFollow(s, op, DeployBootstrap(env, s, op).ledger)
  {
    hide Credit, Debit;
  }

  lemma DeployWrites(env: Env, s: Ledger, op: Op)
    requires op.BootstrapDeployment? && op.done.Some? && op.address != op.done.value.va
    requires DeployBootstrap(env, s, op).status.Success?
    ensures op.address in s.nodes
    ensures var e := s.nodes[op.address];
            && e.balance >= FEE && op.done.value.va in s.nodes
            && TwoWritten(s.nodes, DeployBootstrap(env, s, op).ledger.nodes, op.address,
                          e.(balance := e.balance - FEE),
                          op.done.value.va, Paid(s, op))
  {
    var e := s.nodes[op.address];
    RequestWrites(s.nodes, op.address, e.(balance := e.balance - FEE), op.done.value.va, PercentOfFee(75));
    hide Credit;
  }

  lemma DeployEntries(env: Env, s: Ledger, op: Op)
    requires op.BootstrapDeployment? && op.done.Some? && op.address != op.done.value.va
    requires DeployBootstrap(env, s, op).status.Success?
    ensures EntriesFollow(s, op, DeployBootstrap(env, s, op).ledger)
  {
    DeployWrites(env, s, op);
    hide DeployBootstrap;
  }

  lemma DeployFollows(env: Env, s: Ledger, op: Op)
    requires op.BootstrapDeployment? && op.done.Some? && op.address != op.done.value.va
    requires DeployBootstrap(env, s, op).status.Success?
    ensures Follows(s, op, DeployBootstrap(env, s, op).ledger)
  {
    hide BooksFollow, EntriesFollow, DeployBootstrap;
    DeployBooks(env, s, op);
    DeployEntries(env, s, op);
  }

  lemma FeeMoves(env: Env, s: Ledger, requester: Address, va: Address, creator: Address, a: Address)
    requires requester != va && TransferFee(env, s, requester, va, creator).status.Success?
    ensures Moved(s.nodes, TransferFee(env, s, requester, va, creator).nodes, a,
                  (if a == requester then 0 - FEE else 0) + (if a == va then FEE / 2 else 0)
                  + (if a == creator && a != requester then FEE / 4 else 0))
    ensures TransferFee(env, s, requester, va, creator).nodes.Keys == s.nodes.Keys
  {
  }

  lemma SubnetTxFollows(env: Env, s: Ledger, op: Op)
    requires op.SubnetTx? && op.done.Some? && op.address != op.done.value.va && op.bs in s.deployments
    requires TransferFee(env, s, op.address, op.done.value.va, s.deployments[op.bs].creator).status.Success?
    ensures Follows(s, op, Settle(s, FundsEffect(env, s, op), op).ledger)
  {
    hide TransferFee;
    var s' := Settle(s, FundsEffect(env, s, op), op).ledger;
    FeeMoves(env, s, op.address, op.done.value.va, s.deployments[op.bs].creator, op.address);
    forall a ensures EntryFollows(s, op, s', a) {
      FeeMoves(env, s, op.address, op.done.value.va, s.deployments[op.bs].creator, a);
    }
  }

  lemma FundsMove(env: Env, s: Ledger, sender: Address, to: Address, va: Address, am: nat, a: Address)
    requires sender != va && TransferFunds(env, s, sender, to, va, am).status.Success?
    ensures Moved(s.nodes, TransferFunds(env, s, sender, to, va, am).nodes, a,
                  (if a == sender then 0 - (if to == sender then FEE else am + FEE) else 0) + (if a == va then 3 * FEE / 4 else 0)
                  + (if a == to && a != sender then am else 0))
    ensures TransferFunds(env, s, sender, to, va, am).nodes.Keys == s.nodes.Keys + {to}
  {
  }

  lemma TransferFollows(env: Env, s: Ledger, op: Op)
    requires op.Transfer? && op.done.Some? && op.address != op.done.value.va
    requires TransferFunds(env, s, op.address, op.to, op.done.value.va, op.am).status.Success?
    ensures Follows(s, op, Settle(s, FundsEffect(env, s, op), op).ledger)
  {
    hide TransferFunds;
    var s' := Settle(s, FundsEffect(env, s, op), op).ledger;
    FundsMove(env, s, op.address, op.to, op.done.value.va, op.am, op.address);
    forall a ensures EntryFollows(s, op, s', a) {
      FundsMove(env, s, op.address, op.to, op.done.value.va, op.am, a);
    }
  }

  lemma ValidatorFollows(env: Env, s: Ledger, from: Key, op: Op)
    requires op.ByValidator() && ApplyOp(env, s, from, op).status.Success?
    ensures Follows(s, op, ApplyOp(env, s, from, op).ledger)
  {
    ValidatorDispatch(env, s, from, op);
    hide ApplyOp, Follows, AddWriter, RemoveWriter, AdminRecovery, DeployBootstrap, TransferFee, TransferFunds;
    if op.RoleAccess? {
      match op.access
      case WriterAddition => AddWriterFollows(env, s, op);
      case WriterRemoval => RemoveWriterFollows(env, s, op);
      case Recovery => RecoveryFollows(env, s, op);
    } else if op.BootstrapDeployment? {
      DeployFollows(env, s, op);
    } else if op.SubnetTx? {
      SubnetTxFollows(env, s, op);
    } else {
      TransferFollows(env, s, op);
    }
  }

  /** A success changes what the tables say, and nothing else. */
  lemma SuccessFollows(env: Env, s: Ledger, from: Key, op: Op)
    requires Inv(env, s) && ApplyOp(env, s, from, op).status.Success?
    ensures Follows(s, op, ApplyOp(env, s, from, op).ledger)
  {
    hide ApplyOp, Follows, Inv;
    if op.ByValidator() { ValidatorFollows(env, s, from, op); }
    else if op.AdminControl? { ControlFollows(env, s, from, op); }
    else { CoreFollows(env, s, from, op); }
  }
}
