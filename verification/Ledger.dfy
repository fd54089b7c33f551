/**
 The settlement ledger as values: what one call of the state-machine's apply function does
 to the store and to the consensus writer set. Handlers are functions from a ledger to a
 status and a ledger; StateMachine.dfy ties the imperative, byte-level handlers to them.
 */
module Ledger {
  import opened Bytes
  import opened Records

  type Hash = Key
  type Signature = s: seq<byte> | |s| == 64 witness ZERO_SIGNATURE

  const ZERO_SIGNATURE: seq<byte> := ZERO_WK + ZERO_WK

  // ---------- operations ----------

  datatype OperationType =
    | ADD_ADMIN | DISABLE_INITIALIZATION | BALANCE_INITIALIZATION | APPEND_WHITELIST
    | ADD_WRITER | REMOVE_WRITER | ADMIN_RECOVERY | ADD_INDEXER | REMOVE_INDEXER | BAN_VALIDATOR
    | BOOTSTRAP_DEPLOYMENT | TX | TRANSFER

  datatype CoreAdminKind = AdminAddition | InitializationEnd
  datatype AdminControlKind = Whitelisting | IndexerAddition | IndexerRemoval | Ban
  datatype RoleAccessKind = WriterAddition | WriterRemoval | Recovery

  /** An address whose buffer is all zero. */
  predicate IsBlank(a: Address) {
    forall i :: 0 <= i < |a| ==> a[i] == '\0'
  }

  /** The validator's address, nonce and signature; the schema asks for all three or none. */
  datatype Completion = Completion(va: Address, vn: Key, vs: Signature)

  /** The seven payload shapes (cao, bio, aco, rao, bdo, txo, tro). */
  datatype Op =
    | CoreAdmin(core: CoreAdminKind, address: Address, tx: Hash, txv: Hash, nonce: Key, sig: Signature, iw: Key)
    | BalanceInitialization(address: Address, tx: Hash, txv: Hash, nonce: Key, sig: Signature,
                            ia: Address, am: Amount)
    | AdminControl(control: AdminControlKind, address: Address, tx: Hash, txv: Hash, nonce: Key, sig: Signature,
                   ia: Address)
    | RoleAccess(access: RoleAccessKind, address: Address, tx: Hash, txv: Hash, nonce: Key, sig: Signature,
                 iw: Key, done: Option<Completion>)
    | BootstrapDeployment(address: Address, tx: Hash, txv: Hash, nonce: Key, sig: Signature,
                          bs: Key, ic: Key, done: Option<Completion>)
    | SubnetTx(address: Address, tx: Hash, txv: Hash, nonce: Key, sig: Signature,
               iw: Key, ch: Key, bs: Key, mbs: Key, done: Option<Completion>)
    | Transfer(address: Address, tx: Hash, txv: Hash, nonce: Key, sig: Signature,
               to: Address, am: Amount, done: Option<Completion>)
  {
    function Type(): OperationType {
      if CoreAdmin? then if core.AdminAddition? then ADD_ADMIN else DISABLE_INITIALIZATION
      else if BalanceInitialization? then BALANCE_INITIALIZATION
      else if AdminControl? then
        match control {
          case Whitelisting => APPEND_WHITELIST
          case IndexerAddition => ADD_INDEXER
          case IndexerRemoval => REMOVE_INDEXER
          case Ban => BAN_VALIDATOR
        }
      else if RoleAccess? then
        match access {
          case WriterAddition => ADD_WRITER
          case WriterRemoval => REMOVE_WRITER
          case Recovery => ADMIN_RECOVERY
        }
      else if BootstrapDeployment? then BOOTSTRAP_DEPLOYMENT
      else if SubnetTx? then TX
      else TRANSFER
    }

    /** Operations that a validator completes and countersigns. */
    predicate ByValidator() {
      RoleAccess? || BootstrapDeployment? || SubnetTx? || Transfer?
    }

    /** Buffers are not all zero, addresses and signatures included, and nor is the initial balance. */
    predicate SchemaOk() {
      && tx != ZERO_WK && txv != ZERO_WK && nonce != ZERO_WK && sig != ZERO_SIGNATURE && !IsBlank(address)
      && (BalanceInitialization? || AdminControl? ==> !IsBlank(ia))
      && (Transfer? ==> !IsBlank(to))
      && (CoreAdmin? || RoleAccess? || SubnetTx? ==> iw != ZERO_WK)
      && (BalanceInitialization? ==> am != 0)
      && (BootstrapDeployment? || SubnetTx? ==> bs != ZERO_WK)
      && (BootstrapDeployment? ==> ic != ZERO_WK)
      && (SubnetTx? ==> ch != ZERO_WK && mbs != ZERO_WK)
      && (ByValidator() && done.Some? ==>
          done.value.vn != ZERO_WK && done.value.vs != ZERO_SIGNATURE && !IsBlank(done.value.va))
    }
  }

  /** What createMessage concatenates, part by part. */
  datatype Part = Network(id: nat) | Buffer(bytes: Key) | AddressText(text: Address) | Quantity(amount: Amount)
                | Kind(kind: OperationType)
  type Message = seq<Part>

  /** The configuration, and the cryptography left uninterpreted. An addition whose result
      reaches `cap` overflows; the code's cap is 2 to the power 128. */
  datatype Env = Env(
    networkId: nat,
    bootstrap: Key,
    addressOk: Address -> bool,
    keyOk: Address -> bool,
    hash: Message -> Hash,
    verify: (Signature, Hash, Address) -> bool,
    sequenceState: set<Key> -> Hash,
    cap: nat)

  // ---------- the store and the writer set ----------

  datatype AdminEntry = AdminEntry(address: Address, wk: Key)
  datatype Deployment = Deployment(txHash: Hash, creator: Address)

  datatype Ledger = Ledger(
    nodes: map<Address, Entry>,
    admin: Option<AdminEntry>,
    initialization: Option<bool>,
    writerKeys: map<Key, Address>,
    writersLength: nat,
    writersIndex: map<nat, Address>,
    licenseCount: nat,
    licenseIndex: map<nat, Address>,
    deployments: map<Key, Deployment>,
    txs: map<Hash, Op>,
    base: map<Key, bool>)

  /** An empty store; the bootstrap key is the only writer, and an indexer. */
  function Genesis(env: Env): Ledger {
    Ledger(map[], None, None, map[], 0, map[], 0, map[], map[], map[], map[env.bootstrap := true])
  }

  predicate InitializationDisabled(s: Ledger) {
    s.initialization == Some(false)
  }

  function Indexers(base: map<Key, bool>): set<Key> {
    set k | k in base && base[k]
  }

  datatype Status = Success | Failure | Ignore | Thrown
  datatype Outcome = Outcome(status: Status, ledger: Ledger)

  function Fail(s: Ledger): Outcome { Outcome(Failure, s) }
  function Skip(s: Ledger): Outcome { Outcome(Ignore, s) }

  /** The last write of every successful operation: its hash, with the operation. */
  function Record(s: Ledger, op: Op): Outcome {
    Outcome(Success, s.(txs := s.txs[op.tx := op]))
  }

  // ---------- guards ----------

  function RequesterMessage(env: Env, op: Op): Message {
    var head := [Network(env.networkId), Buffer(op.txv)];
    var tail := [Buffer(op.nonce), Kind(op.Type())];
    if op.CoreAdmin? || op.RoleAccess? then head + [Buffer(op.iw)] + tail
    else if op.BalanceInitialization? then head + [AddressText(op.ia), Quantity(op.am)] + tail
    else if op.AdminControl? then head + [AddressText(op.ia)] + tail
    else if op.BootstrapDeployment? then head + [Buffer(op.bs), Buffer(op.ic)] + tail
    else if op.SubnetTx? then head + [Buffer(op.iw), Buffer(op.ch), Buffer(op.bs), Buffer(env.bootstrap)] + tail
    else head + [AddressText(op.to), Quantity(op.am)] + tail
  }

  function ValidatorMessage(env: Env, op: Op): Message
    requires op.ByValidator() && op.done.Some?
  {
    [Network(env.networkId), Buffer(op.tx), Buffer(op.done.value.vn), Kind(op.Type())]
  }

  predicate AddressValid(env: Env, a: Address) {
    env.addressOk(a) && env.keyOk(a)
  }

  /** Valid requester address, matching hash and signature. */
  predicate Authentic(env: Env, op: Op) {
    && AddressValid(env, op.address)
    && env.hash(RequesterMessage(env, op)) == op.tx
    && env.verify(op.sig, op.tx, op.address)
  }

  /** Complete, with a second nonce, address and signature that all differ from the requester's. */
  predicate Countersigned(env: Env, op: Op) {
    && op.ByValidator() && op.done.Some?
    && op.nonce != op.done.value.vn && op.address != op.done.value.va && op.sig != op.done.value.vs
    && AddressValid(env, op.done.value.va)
    && env.verify(op.done.value.vs, env.hash(ValidatorMessage(env, op)), op.done.value.va)
  }

  /** The transaction names the indexer sequence it was made for. */
  predicate UpToDate(env: Env, s: Ledger, op: Op) {
    op.txv == env.sequenceState(Indexers(s.base))
  }

  predicate ActiveValidator(s: Ledger, from: Key, va: Address) {
    va in s.nodes && s.nodes[va].role.IsActive() && s.nodes[va].wk == from
  }

  /** All the guards that validator-completed operations share. */
  predicate ValidatorCall(env: Env, s: Ledger, from: Key, op: Op) {
    && op.SchemaOk() && Authentic(env, op) && Countersigned(env, op) && UpToDate(env, s, op)
    && ActiveValidator(s, from, op.done.value.va)
  }

  /** All the guards that admin operations share. */
  predicate AdminCall(env: Env, s: Ledger, from: Key, op: Op) {
    && op.SchemaOk() && Authentic(env, op) && UpToDate(env, s, op)
    && s.admin == Some(AdminEntry(op.address, from))
    && op.tx !in s.txs
  }

  // ---------- money ----------

  /** feeAmount.percentage(PERCENT_75) and so on. */
  function PercentOfFee(percent: nat): nat {
    FEE * (100 * percent) / 10_000
  }

  predicate CanCredit(env: Env, s: Ledger, a: Address, amount: nat) {
    a in s.nodes && s.nodes[a].balance + amount < env.cap
  }

  function Credit(nodes: map<Address, Entry>, a: Address, amount: nat): map<Address, Entry>
    requires a in nodes
  {
    nodes[a := nodes[a].(balance := nodes[a].balance + amount)]
  }

  function Debit(nodes: map<Address, Entry>, a: Address, amount: nat): map<Address, Entry>
    requires a in nodes && nodes[a].balance >= amount
  {
    nodes[a := nodes[a].(balance := nodes[a].balance - amount)]
  }

  function NewReader(balance: nat): Entry {
    Entry(Reader, ZERO_WK, balance, 0, 0)
  }

  // ---------- core admin operations ----------

  function ApplyAddAdmin(env: Env, s: Ledger, from: Key, op: Op): Outcome
    requires op.CoreAdmin?
  {
    if !(op.SchemaOk() && from == env.bootstrap && op.iw == env.bootstrap && Authentic(env, op)
         && UpToDate(env, s, op) && op.iw !in s.writerKeys && s.admin.None? && op.tx !in s.txs) then Fail(s)
    else
      var license := s.licenseCount + 1;
      Record(s.(licenseCount := license,
                licenseIndex := s.licenseIndex[license := op.address],
                nodes := s.nodes[op.address := Entry(Indexer, op.iw, ADMIN_INITIAL_BALANCE, license, STAKE)],
                writerKeys := s.writerKeys[op.iw := op.address],
                writersIndex := s.writersIndex[s.writersLength := op.address],
                writersLength := s.writersLength + 1,
                admin := Some(AdminEntry(op.address, op.iw)),
                initialization := Some(true)), op)
  }

  function ApplyDisableInitialization(env: Env, s: Ledger, from: Key, op: Op): Outcome
    requires op.CoreAdmin?
  {
    if !AdminCall(env, s, from, op) || InitializationDisabled(s) then Fail(s)
    else Record(s.(initialization := Some(false)), op)
  }

  function ApplyBalanceInitialization(env: Env, s: Ledger, from: Key, op: Op): Outcome
    requires op.BalanceInitialization?
  {
    if !AdminCall(env, s, from, op) || !AddressValid(env, op.ia) || InitializationDisabled(s) then Fail(s)
    else
      var e := if op.ia in s.nodes then s.nodes[op.ia].(balance := op.am) else NewReader(op.am);
      Record(s.(nodes := s.nodes[op.ia := e]), op)
  }

  // ---------- admin control operations ----------

  /** Gives the next licence to an address. */
  function AssignLicense(s: Ledger, a: Address): Ledger {
    s.(licenseCount := s.licenseCount + 1, licenseIndex := s.licenseIndex[s.licenseCount + 1 := a])
  }

  /** The admin pays a fee once initialization is over. */
  function PayForWhitelist(s: Ledger, admin: Address): Ledger
    requires InitializationDisabled(s) ==> admin in s.nodes && s.nodes[admin].balance >= FEE
  {
    if InitializationDisabled(s) then s.(nodes := Debit(s.nodes, admin, FEE)) else s
  }

  /** Whitelists an address whose entry, read before the payment, is given; a node that already
      holds a licence keeps it. */
  function Whitelist(s: Ledger, a: Address, read: Option<Entry>): Ledger {
    if read.Some? && read.value.license != 0 then
      s.(nodes := s.nodes[a := read.value.(role := Whitelisted)])
    else
      var t := AssignLicense(s, a);
      var e := if read.Some? then read.value else NewReader(0);
      t.(nodes := t.nodes[a := e.(role := Whitelisted, license := t.licenseCount)])
  }

  function ReadEntry(s: Ledger, a: Address): Option<Entry> {
    if a in s.nodes then Some(s.nodes[a]) else None
  }

  function AppendWhitelist(s: Ledger, op: Op): Outcome
    requires op.AdminControl?
  {
    if op.ia in s.nodes && !s.nodes[op.ia].role.Reader? then Fail(s)
    else if InitializationDisabled(s) && (op.address !in s.nodes || s.nodes[op.address].balance < FEE) then Fail(s)
    else Record(Whitelist(PayForWhitelist(s, op.address), op.ia, ReadEntry(s, op.ia)), op)
  }

  function ApplyAppendWhitelist(env: Env, s: Ledger, from: Key, op: Op): Outcome
    requires op.AdminControl?
  {
    if !AdminCall(env, s, from, op) || !AddressValid(env, op.ia) then Fail(s) else AppendWhitelist(s, op)
  }

  function AddIndexer(s: Ledger, op: Op): Outcome
    requires op.AdminControl?
  {
    if op.ia !in s.nodes || !s.nodes[op.ia].role.Writer? then Fail(s)
    else if s.nodes[op.ia].wk in Indexers(s.base) then Fail(s)
    else if op.address !in s.nodes || s.nodes[op.address].balance < FEE then Fail(s)
    else
      var e, admin := s.nodes[op.ia], s.nodes[op.address];
      Record(s.(base := (s.base - {e.wk})[e.wk := true],
                nodes := s.nodes[op.ia := e.(role := Indexer)]
                         [op.address := admin.(balance := admin.balance - FEE)]), op)
  }

  function ApplyAddIndexer(env: Env, s: Ledger, from: Key, op: Op): Outcome
    requires op.AdminControl?
  {
    if !AdminCall(env, s, from, op) || !AddressValid(env, op.ia) then Fail(s) else AddIndexer(s, op)
  }

  function RemoveIndexer(s: Ledger, op: Op): Outcome
    requires op.AdminControl?
  {
    if op.ia !in s.nodes || !s.nodes[op.ia].role.Indexer? then Fail(s)
    else if s.nodes[op.ia].wk !in Indexers(s.base) then Fail(s)
    else if op.address !in s.nodes || s.nodes[op.address].balance < FEE then Fail(s)
    else
      var e, admin := s.nodes[op.ia], s.nodes[op.address];
      Record(s.(base := (s.base - {e.wk})[e.wk := false],
                writersIndex := s.writersIndex[s.writersLength := op.ia],
                writersLength := s.writersLength + 1,
                nodes := s.nodes[op.ia := e.(role := Writer)]
                         [op.address := admin.(balance := admin.balance - FEE)]), op)
  }

  function ApplyRemoveIndexer(env: Env, s: Ledger, from: Key, op: Op): Outcome
    requires op.AdminControl?
  {
    if !AdminCall(env, s, from, op) || !AddressValid(env, op.ia) then Fail(s) else RemoveIndexer(s, op)
  }

  function BanValidator(env: Env, s: Ledger, op: Op): Outcome
    requires op.AdminControl?
  {
    if op.ia !in s.nodes || s.nodes[op.ia].role.Reader? || s.nodes[op.ia].role.Indexer? then Fail(s)
    else if op.address !in s.nodes || s.nodes[op.address].balance < FEE then Fail(s)
    else
      var e, admin := s.nodes[op.ia], s.nodes[op.address];
      if e.role.Writer? && (e.stake == 0 || e.balance + e.stake >= env.cap) then Fail(s)
      else
        var banned := if e.role.Writer? then e.(role := Reader, balance := e.balance + e.stake, stake := 0)
                      else e.(role := Reader);
        Record(s.(base := if e.role.Writer? then s.base - {e.wk} else s.base,
                  nodes := s.nodes[op.ia := banned][op.address := admin.(balance := admin.balance - FEE)]), op)
  }

  function ApplyBanValidator(env: Env, s: Ledger, from: Key, op: Op): Outcome
    requires op.AdminControl?
  {
    if !AdminCall(env, s, from, op) || !env.addressOk(op.ia) then Fail(s) else BanValidator(env, s, op)
  }

  // ---------- role access operations ----------

  function AddWriter(env: Env, s: Ledger, op: Op): Outcome
    requires op.RoleAccess? && op.done.Some?
  {
    if op.address !in s.nodes then Fail(s)
    else
      var e, va := s.nodes[op.address], op.done.value.va;
      if op.iw in s.writerKeys && (e.wk != op.iw || s.writerKeys[op.iw] != op.address) then Fail(s)
      else if !e.role.Whitelisted? then Fail(s)
      else if e.balance < FEE then Skip(s)
      else if !CanCredit(env, s, va, PercentOfFee(75)) then Fail(s)
      else if e.balance - FEE < STAKE then Fail(s)
      else
        var writer := e.(role := Writer, wk := op.iw, balance := e.balance - FEE - STAKE, stake := STAKE);
        Record(s.(base := s.base[op.iw := false],
                  writerKeys := if op.iw in s.writerKeys then s.writerKeys else s.writerKeys[op.iw := op.address],
                  writersIndex := s.writersIndex[s.writersLength := op.address],
                  writersLength := s.writersLength + 1,
                  nodes := Credit(s.nodes[op.address := writer], va, PercentOfFee(75))), op)
  }

  function ApplyAddWriter(env: Env, s: Ledger, from: Key, op: Op): Outcome
    requires op.RoleAccess?
  {
    if !ValidatorCall(env, s, from, op) then Fail(s)
    else if op.tx in s.txs then Skip(s)
    else AddWriter(env, s, op)
  }

  function RemoveWriter(env: Env, s: Ledger, op: Op): Outcome
    requires op.RoleAccess? && op.done.Some?
  {
    if op.address !in s.nodes || !s.nodes[op.address].role.Writer? then Fail(s)
    else
      var e, va := s.nodes[op.address], op.done.value.va;
      if op.iw !in s.writerKeys || op.iw != e.wk || s.writerKeys[op.iw] != op.address then Fail(s)
      else if e.balance < FEE then Skip(s)
      else if !CanCredit(env, s, va, PercentOfFee(75)) then Fail(s)
      else if e.stake == 0 || e.balance - FEE + e.stake >= env.cap then Fail(s)
      else
        var removed := e.(role := Whitelisted, balance := e.balance - FEE + e.stake, stake := 0);
        Record(s.(base := s.base - {e.wk},
                  nodes := Credit(s.nodes[op.address := removed], va, PercentOfFee(75))), op)
  }

  function ApplyRemoveWriter(env: Env, s: Ledger, from: Key, op: Op): Outcome
    requires op.RoleAccess?
  {
    if !ValidatorCall(env, s, from, op) then Fail(s)
    else if op.tx in s.txs then Skip(s)
    else RemoveWriter(env, s, op)
  }

  function AdminRecovery(env: Env, s: Ledger, op: Op): Outcome
    requires op.RoleAccess? && op.done.Some?
  {
    if op.iw in s.writerKeys then Fail(s)
    else if s.admin.None? || s.admin.value.address != op.address || op.tx in s.txs then Fail(s)
    else if s.admin.value.wk !in Indexers(s.base) || op.iw in Indexers(s.base) then Fail(s)
    else if op.address !in s.nodes then Fail(s)
    else
      var e, va := s.nodes[op.address], op.done.value.va;
      if e.balance < FEE then Skip(s)
      else if !CanCredit(env, s, va, PercentOfFee(75)) then Fail(s)
      else
        Record(s.(base := (s.base - {s.admin.value.wk})[op.iw := true],
                  writerKeys := s.writerKeys[op.iw := op.address],
                  admin := Some(AdminEntry(op.address, op.iw)),
                  nodes := Credit(s.nodes[op.address := e.(wk := op.iw, balance := e.balance - FEE)],
                                  va, PercentOfFee(75))), op)
  }

  function ApplyAdminRecovery(env: Env, s: Ledger, from: Key, op: Op): Outcome
    requires op.RoleAccess?
  {
    if !ValidatorCall(env, s, from, op) then Fail(s) else AdminRecovery(env, s, op)
  }

  // ---------- deployments, subnetwork transactions, transfers ----------

  function DeployBootstrap(env: Env, s: Ledger, op: Op): Outcome
    requires op.BootstrapDeployment? && op.done.Some?
  {
    if op.tx in s.txs || op.bs in s.deployments then Skip(s)
    else if op.address !in s.nodes then Fail(s)
    else if s.nodes[op.address].balance < FEE then Skip(s)
    else if !CanCredit(env, s, op.done.value.va, PercentOfFee(75)) then Fail(s)
    else
      Record(s.(deployments := s.deployments[op.bs := Deployment(op.tx, op.address)],
                nodes := Credit(Debit(s.nodes, op.address, FEE), op.done.value.va, PercentOfFee(75))), op)
  }

  function ApplyBootstrapDeployment(env: Env, s: Ledger, from: Key, op: Op): Outcome
    requires op.BootstrapDeployment?
  {
    if !ValidatorCall(env, s, from, op) || op.bs == env.bootstrap then Fail(s) else DeployBootstrap(env, s, op)
  }

  /** What the two money movements give: a status, and the entries after a success. */
  datatype Funds = Funds(status: Status, nodes: map<Address, Entry>)

  /** The fee of a subnetwork transaction: half to the validator, a quarter to the creator of the
      subnetwork unless the creator is the requester, the rest burned. */
  function TransferFee(env: Env, s: Ledger, requester: Address, va: Address, creator: Address): Funds {
    if requester !in s.nodes then Funds(Failure, s.nodes)
    else if s.nodes[requester].balance < FEE then Funds(Ignore, s.nodes)
    else if !CanCredit(env, s, va, PercentOfFee(50)) then Funds(Failure, s.nodes)
    else
      var paid := Credit(Debit(s.nodes, requester, FEE), va, PercentOfFee(50));
      if creator == requester then Funds(Success, paid)
      else if !(creator in s.nodes && paid[creator].balance + PercentOfFee(25) < env.cap) then Funds(Failure, s.nodes)
      else Funds(Success, Credit(paid, creator, PercentOfFee(25)))
  }

  function ApplySubnetTx(env: Env, s: Ledger, from: Key, op: Op): Outcome
    requires op.SubnetTx?
  {
    if !ValidatorCall(env, s, from, op) || op.bs == op.mbs || op.mbs != env.bootstrap then Fail(s)
    else if op.tx in s.txs then Skip(s)
    else if op.bs !in s.deployments || !env.addressOk(s.deployments[op.bs].creator) then Fail(s)
    else Settle(s, TransferFee(env, s, op.address, op.done.value.va, s.deployments[op.bs].creator), op)
  }

  /** A transfer and its fee; sending to oneself moves nothing but the fee. */
  function TransferFunds(env: Env, s: Ledger, sender: Address, to: Address, va: Address, am: nat): Funds {
    var total := if to == sender then FEE else am + FEE;
    if total >= AMOUNT_LIMIT || sender !in s.nodes then Funds(Failure, s.nodes)
    else if s.nodes[sender].balance < total then Funds(Ignore, s.nodes)
    else if to != sender && to != va && to in s.nodes && !CanCredit(env, s, to, am) then Funds(Failure, s.nodes)
    else if to == va && !CanCredit(env, s, va, am) then Funds(Thrown, s.nodes)
    else if !CanCredit(env, s, va, (if to == va then am else 0) + PercentOfFee(75)) then Funds(Failure, s.nodes)
    else
      var debited := Debit(s.nodes, sender, total);
      var moved := if to == sender then debited
                   else if to in debited then Credit(debited, to, am)
                   else debited[to := NewReader(am)];
      Funds(Success, Credit(moved, va, PercentOfFee(75)))
  }

  function ApplyTransfer(env: Env, s: Ledger, from: Key, op: Op): Outcome
    requires op.Transfer?
  {
    if !ValidatorCall(env, s, from, op) then Fail(s)
    else if op.tx in s.txs then Skip(s)
    else if !AddressValid(env, op.to) then Fail(s)
    else Settle(s, TransferFunds(env, s, op.address, op.to, op.done.value.va, op.am), op)
  }

  /** Writes the entries of a successful movement; nothing otherwise. */
  function Settle(s: Ledger, f: Funds, op: Op): Outcome {
    if f.status.Success? then Record(s.(nodes := f.nodes), op) else Outcome(f.status, s)
  }

  // ---------- one batch ----------

  function ApplyOp(env: Env, s: Ledger, from: Key, op: Op): Outcome {
    match op.Type()
    case ADD_ADMIN => ApplyAddAdmin(env, s, from, op)
    case DISABLE_INITIALIZATION => ApplyDisableInitialization(env, s, from, op)
    case BALANCE_INITIALIZATION => ApplyBalanceInitialization(env, s, from, op)
    case APPEND_WHITELIST => ApplyAppendWhitelist(env, s, from, op)
    case ADD_WRITER => ApplyAddWriter(env, s, from, op)
    case REMOVE_WRITER => ApplyRemoveWriter(env, s, from, op)
    case ADMIN_RECOVERY => ApplyAdminRecovery(env, s, from, op)
    case ADD_INDEXER => ApplyAddIndexer(env, s, from, op)
    case REMOVE_INDEXER => ApplyRemoveIndexer(env, s, from, op)
    case BAN_VALIDATOR => ApplyBanValidator(env, s, from, op)
    case BOOTSTRAP_DEPLOYMENT => ApplyBootstrapDeployment(env, s, from, op)
    case TX => ApplySubnetTx(env, s, from, op)
    case TRANSFER => ApplyTransfer(env, s, from, op)
  }

  /** A block of the batch: its writer, and either an operation or bytes that are too long,
      do not decode or name no operation type. */
  datatype Node = Node(from: Key, payload: Payload)
  datatype Payload = Malformed | Operation(op: Op)

  function ApplyNode(env: Env, s: Ledger, node: Node): Outcome {
    if node.payload.Malformed? then Fail(s) else ApplyOp(env, s, node.from, node.payload.op)
  }

  /** Takes n fees from the stake of the writer behind a key, refunds the rest and demotes it. */
  function Penalize(env: Env, s: Ledger, key: Key, n: nat): Ledger {
    if s.admin.None? || s.admin.value.wk == key || key !in s.writerKeys then s
    else
      var a := s.writerKeys[key];
      if !AddressValid(env, a) || a !in s.nodes || FEE * n >= AMOUNT_LIMIT then s
      else
        var e := s.nodes[a];
        var left := if FEE * n >= e.stake then 0 else e.stake - FEE * n;
        if left > 0 && e.balance + left >= env.cap then s
        else
          s.(base := s.base - {key},
             nodes := s.nodes[a := e.(role := Whitelisted, balance := e.balance + left, stake := 0)])
  }

  /** The loop over the nodes: the ledger, the number of invalid operations, and whether a
      handler threw, which ends the call. */
  datatype Progress = Progress(ledger: Ledger, invalid: nat, thrown: bool)

  function ApplyNodes(env: Env, s: Ledger, nodes: seq<Node>): Progress {
    if nodes == [] then Progress(s, 0, false)
    else
      var p := ApplyNodes(env, s, nodes[..|nodes| - 1]);
      if p.thrown then p
      else
        var o := ApplyNode(env, p.ledger, nodes[|nodes| - 1]);
        match o.status
        case Success => Progress(o.ledger, p.invalid, false)
        case Failure => Progress(o.ledger, p.invalid + 1, false)
        case Ignore => Progress(o.ledger, p.invalid, false)
        case Thrown => Progress(o.ledger, p.invalid, true)
  }

  /** One call of apply; None when a handler threw, so that nothing is flushed. */
  function ApplyBatch(env: Env, s: Ledger, nodes: seq<Node>): Option<Ledger>
    requires nodes != []
  {
    if |nodes| > BATCH_SIZE then Some(Penalize(env, s, nodes[0].from, BATCH_SIZE))
    else
      var p := ApplyNodes(env, s, nodes);
      if p.thrown then None
      else Some(if p.invalid > 0 then Penalize(env, p.ledger, nodes[0].from, p.invalid) else p.ledger)
  }
}
