/**
 Who may do what: an operation that succeeds was signed by its requester over every field it acts on,
 and countersigned by the validator or signed with the admin's key. The rules are written out here
 field by field; the handlers check them in their own order.
 */
module Authorization {
  import opened Bytes
  import opened Records
  import opened Ledger
  import opened Dispatch

  /** Some character of an address is not zero. */
  predicate HasText(a: Address) {
    exists i :: 0 <= i < |a| && a[i] != '\0'
  }

  /** No field that the type has is left blank. */
  predicate FieldsPresent(op: Op) {
    && op.tx != ZERO_WK && op.txv != ZERO_WK && op.nonce != ZERO_WK && op.sig != ZERO_SIGNATURE && HasText(op.address)
    && match op {
         case CoreAdmin(_, _, _, _, _, _, iw) => iw != ZERO_WK
         case BalanceInitialization(_, _, _, _, _, ia, am) => HasText(ia) && am != 0
         case AdminControl(_, _, _, _, _, _, ia) => HasText(ia)
         case RoleAccess(_, _, _, _, _, _, iw, done) => iw != ZERO_WK && SealPresent(done)
         case BootstrapDeployment(_, _, _, _, _, bs, ic, done) => bs != ZERO_WK && ic != ZERO_WK && SealPresent(done)
         case SubnetTx(_, _, _, _, _, iw, ch, bs, mbs, done) =>
           iw != ZERO_WK && ch != ZERO_WK && bs != ZERO_WK && mbs != ZERO_WK && SealPresent(done)
         case Transfer(_, _, _, _, _, to, _, done) => HasText(to) && SealPresent(done)
       }
  }

  predicate SealPresent(done: Option<Completion>) {
    done.Some? ==> done.value.vn != ZERO_WK && done.value.vs != ZERO_SIGNATURE && HasText(done.value.va)
  }

  /** Signed by the requester, over a message that hashes to its name, for the indexers there are. */
  predicate Requested(env: Env, s: Ledger, op: Op) {
    && FieldsPresent(op)
    && env.addressOk(op.address) && env.keyOk(op.address)
    && env.hash(RequesterMessage(env, op)) == op.tx && env.verify(op.sig, op.tx, op.address)
    && op.txv == env.sequenceState(set k | k in s.base && s.base[k])
  }

  /** Countersigned by another node, a writer or an indexer, whose key signed the block. */
  predicate Sealed(env: Env, s: Ledger, from: Key, op: Op)
    requires op.ByValidator()
  {
    && op.done.Some?
    && var seal := op.done.value;
    && seal.va != op.address && seal.vn != op.nonce && seal.vs != op.sig
    && env.addressOk(seal.va) && env.keyOk(seal.va)
    && env.verify(seal.vs, env.hash([Network(env.networkId), Buffer(op.tx), Buffer(seal.vn), Kind(op.Type())]), seal.va)
    && seal.va in s.nodes && s.nodes[seal.va].role in {Writer, Indexer} && s.nodes[seal.va].wk == from
  }

  /** By a validator, by the bootstrap key for the first admin, by the admin otherwise. */
  predicate Called(env: Env, s: Ledger, from: Key, op: Op) {
    && Requested(env, s, op)
    && if op.ByValidator() then Sealed(env, s, from, op)
       else if op.Type().ADD_ADMIN? then from == env.bootstrap && op.iw == env.bootstrap
       else s.admin == Some(AdminEntry(op.address, from))
  }

  lemma SchemaIsPresence(op: Op)
    ensures op.SchemaOk() <==> FieldsPresent(op)
  {
  }

  lemma RequestedIsChecked(env: Env, s: Ledger, op: Op)
    ensures Requested(env, s, op) <==> op.SchemaOk() && Authentic(env, op) && UpToDate(env, s, op)
  {
    SchemaIsPresence(op);
    hide FieldsPresent, RequesterMessage;
    assert Indexers(s.base) == set k | k in s.base && s.base[k];
  }

  lemma ValidatorCallIsCalled(env: Env, s: Ledger, from: Key, op: Op)
    requires op.ByValidator()
    ensures Called(env, s, from, op) <==> ValidatorCall(env, s, from, op)
  {
    RequestedIsChecked(env, s, op);
    hide Requested, Authentic, UpToDate;
  }

  lemma AdminCallIsCalled(env: Env, s: Ledger, from: Key, op: Op)
    requires !op.ByValidator() && !op.Type().ADD_ADMIN?
    ensures Called(env, s, from, op) && op.tx !in s.txs <==> AdminCall(env, s, from, op)
  {
    RequestedIsChecked(env, s, op);
    hide Requested, Authentic, UpToDate;
  }

  /** Whatever succeeds was called by those who may. */
  lemma SuccessIsAuthorized(env: Env, s: Ledger, from: Key, op: Op)
    requires ApplyOp(env, s, from, op).status.Success?
    ensures Called(env, s, from, op) && op.tx !in s.txs
  {
    hide Called, ValidatorCall, AdminCall;
    EffectIsNew(env, s, from, op);
    if op.ByValidator() {
      ValidatorCallIsCalled(env, s, from, op);
      ValidatorIsCalled(env, s, from, op);
    } else if op.Type().ADD_ADMIN? {
      AddAdminIsCalled(env, s, from, op);
    } else {
      AdminCallIsCalled(env, s, from, op);
      AdminIsCalled(env, s, from, op);
    }
  }

  lemma EffectIsNew(env: Env, s: Ledger, from: Key, op: Op)
    requires ApplyOp(env, s, from, op).status.Success?
    ensures op.tx !in s.txs
  {
    if op.AdminControl? { ControlDispatch(env, s, from, op); }
    else if op.ByValidator() { ValidatorDispatch(env, s, from, op); }
    else { CoreDispatch(env, s, from, op); }
    hide ApplyOp;
  }

  lemma ValidatorIsCalled(env: Env, s: Ledger, from: Key, op: Op)
    requires op.ByValidator() && ApplyOp(env, s, from, op).status.Success?
    ensures ValidatorCall(env, s, from, op)
  {
    hide ValidatorCall, AddWriter, RemoveWriter, AdminRecovery, DeployBootstrap, TransferFee, TransferFunds, Settle;
  }

  lemma AdminIsCalled(env: Env, s: Ledger, from: Key, op: Op)
    requires !op.ByValidator() && !op.Type().ADD_ADMIN? && ApplyOp(env, s, from, op).status.Success?
    ensures AdminCall(env, s, from, op)
  {
    hide AdminCall, AppendWhitelist, AddIndexer, RemoveIndexer, BanValidator;
  }

  lemma AddAdminIsCalled(env: Env, s: Ledger, from: Key, op: Op)
    requires op.Type().ADD_ADMIN? && ApplyOp(env, s, from, op).status.Success?
    ensures Called(env, s, from, op)
  {
    RequestedIsChecked(env, s, op);
    hide Requested, Authentic, UpToDate;
  }

  // ---------- what a signature is for ----------

  /** Two messages are not a collision of the hash, on one network or on two. */
  predicate NoCollision(env: Env, m: Message, other: Env, n: Message) {
    env.hash(m) == other.hash(n) ==> m == n
  }

  /** Neither are the messages that two requesters signed. */
  predicate RequestsDoNotCollide(env: Env, op: Op, other: Env, op': Op) {
    NoCollision(env, RequesterMessage(env, op), other, RequesterMessage(other, op'))
  }

  /** Nor those that two validators signed. */
  predicate SealsDoNotCollide(env: Env, op: Op, other: Env, op': Op)
    requires op.ByValidator() && op'.ByValidator() && op.done.Some? && op'.done.Some?
  {
    NoCollision(env, ValidatorMessage(env, op), other, ValidatorMessage(other, op'))
  }

  /** A node's signature is good for one hash. */
  ghost predicate SignatureBinds(env: Env, other: Env) {
    forall sig: Signature, h: Hash, g: Hash, a: Address {:trigger env.verify(sig, h, a), other.verify(sig, g, a)} ::
      env.verify(sig, h, a) && other.verify(sig, g, a) ==> h == g
  }

  /** Everything that a requester decides, but for the address, which the signature is checked against. */
  ghost predicate SameRequest(op: Op, op': Op) {
    && op'.Type() == op.Type() && op'.txv == op.txv && op'.nonce == op.nonce
    && match op {
         case CoreAdmin(_, _, _, _, _, _, iw) => op'.CoreAdmin? && op'.iw == iw
         case BalanceInitialization(_, _, _, _, _, ia, am) => op'.BalanceInitialization? && op'.ia == ia && op'.am == am
         case AdminControl(_, _, _, _, _, _, ia) => op'.AdminControl? && op'.ia == ia
         case RoleAccess(_, _, _, _, _, _, iw, _) => op'.RoleAccess? && op'.iw == iw
         case BootstrapDeployment(_, _, _, _, _, bs, ic, _) => op'.BootstrapDeployment? && op'.bs == bs && op'.ic == ic
         case SubnetTx(_, _, _, _, _, iw, ch, bs, mbs, _) =>
           op'.SubnetTx? && op'.iw == iw && op'.ch == ch && op'.bs == bs && op'.mbs == mbs
         case Transfer(_, _, _, _, _, to, am, _) => op'.Transfer? && op'.to == to && op'.am == am
       }
  }

  lemma MessageEnds(env: Env, op: Op)
    ensures var m := RequesterMessage(env, op);
            && 5 <= |m| <= 8 && m[0] == Network(env.networkId) && m[1] == Buffer(op.txv)
            && m[|m| - 2] == Buffer(op.nonce) && m[|m| - 1] == Kind(op.Type())
  {
  }

  lemma MessageMiddle(env: Env, op: Op)
    ensures var m := RequesterMessage(env, op);
            match op {
              case CoreAdmin(_, _, _, _, _, _, iw) => m[2] == Buffer(iw)
              case BalanceInitialization(_, _, _, _, _, ia, am) => m[2] == AddressText(ia) && m[3] == Quantity(am)
              case AdminControl(_, _, _, _, _, _, ia) => m[2] == AddressText(ia)
              case RoleAccess(_, _, _, _, _, _, iw, _) => m[2] == Buffer(iw)
              case BootstrapDeployment(_, _, _, _, _, bs, ic, _) => m[2] == Buffer(bs) && m[3] == Buffer(ic)
              case SubnetTx(_, _, _, _, _, iw, ch, bs, _, _) =>
                m[2] == Buffer(iw) && m[3] == Buffer(ch) && m[4] == Buffer(bs) && m[5] == Buffer(env.bootstrap)
              case Transfer(_, _, _, _, _, to, am, _) => m[2] == AddressText(to) && m[3] == Quantity(am)
            }
  {
  }

  lemma MessageBinds(env: Env, other: Env, op: Op, op': Op)
    requires RequesterMessage(env, op) == RequesterMessage(other, op')
    requires op.SubnetTx? ==> op.mbs == env.bootstrap
    requires op'.SubnetTx? ==> op'.mbs == other.bootstrap
    ensures SameRequest(op, op') && env.networkId == other.networkId && (op.SubnetTx? ==> env.bootstrap == other.bootstrap)
  {
    MessageEnds(env, op);
    MessageEnds(other, op');
    MessageMiddle(env, op);
    MessageMiddle(other, op');
    hide RequesterMessage;
  }

  lemma SubnetNamesBootstrap(env: Env, s: Ledger, from: Key, op: Op)
    requires op.SubnetTx? && ApplyOp(env, s, from, op).status.Success?
    ensures op.mbs == env.bootstrap
  {
    hide ValidatorCall, TransferFee, Settle;
  }

  /** One hash, one request: two operations under one hash that both succeed, on whatever ledgers, under
      whatever keys and on whatever networks, agree in everything that was asked for. */
  lemma HashNamesRequest(env: Env, s: Ledger, from: Key, op: Op, other: Env, s': Ledger, from': Key, op': Op)
    requires RequestsDoNotCollide(env, op, other, op') && op.tx == op'.tx
    requires ApplyOp(env, s, from, op).status.Success? && ApplyOp(other, s', from', op').status.Success?
    ensures SameRequest(op, op') && env.networkId == other.networkId && (op.SubnetTx? ==> env.bootstrap == other.bootstrap)
  {
    hide ApplyOp, RequesterMessage, SameRequest;
    SuccessIsAuthorized(env, s, from, op);
    SuccessIsAuthorized(other, s', from', op');
    assert env.hash(RequesterMessage(env, op)) == other.hash(RequesterMessage(other, op'));
    if op.SubnetTx? { SubnetNamesBootstrap(env, s, from, op); }
    if op'.SubnetTx? { SubnetNamesBootstrap(other, s', from', op'); }
    MessageBinds(env, other, op, op');
  }

  /** A validator's signature is for one request with one nonce: it completes nothing else. */
  lemma SealNamesRequest(env: Env, s: Ledger, from: Key, op: Op, other: Env, s': Ledger, from': Key, op': Op)
    requires SignatureBinds(env, other) && op.ByValidator() && op'.ByValidator() && op.done.Some? && op'.done.Some?
    requires RequestsDoNotCollide(env, op, other, op') && SealsDoNotCollide(env, op, other, op')
    requires ApplyOp(env, s, from, op).status.Success? && ApplyOp(other, s', from', op').status.Success?
    requires op.done.value.vs == op'.done.value.vs && op.done.value.va == op'.done.value.va
    ensures op'.tx == op.tx && op'.done == op.done && SameRequest(op, op') && env.networkId == other.networkId
  {
    hide ApplyOp, SameRequest, RequesterMessage;
    SuccessIsAuthorized(env, s, from, op);
    SuccessIsAuthorized(other, s', from', op');
    var seal, seal' := op.done.value, op'.done.value;
    var m, m' := [Network(env.networkId), Buffer(op.tx), Buffer(seal.vn), Kind(op.Type())],
                 [Network(other.networkId), Buffer(op'.tx), Buffer(seal'.vn), Kind(op'.Type())];
    assert env.verify(seal.vs, env.hash(m), seal.va) && other.verify(seal'.vs, other.hash(m'), seal'.va);
    assert m == m';
    assert m[1] == m'[1] && m[2] == m'[2];
    HashNamesRequest(env, s, from, op, other, s', from', op');
  }

  /** A requester's signature, too, is for one request. */
  lemma SignatureNamesRequest(env: Env, s: Ledger, from: Key, op: Op, other: Env, s': Ledger, from': Key, op': Op)
    requires RequestsDoNotCollide(env, op, other, op') && SignatureBinds(env, other)
    requires ApplyOp(env, s, from, op).status.Success? && ApplyOp(other, s', from', op').status.Success?
    requires op.sig == op'.sig && op.address == op'.address
    ensures op'.tx == op.tx && SameRequest(op, op')
  {
    hide ApplyOp, SameRequest, RequesterMessage;
    SuccessIsAuthorized(env, s, from, op);
    SuccessIsAuthorized(other, s', from', op');
    assert env.verify(op.sig, op.tx, op.address) && other.verify(op'.sig, op'.tx, op'.address);
    HashNamesRequest(env, s, from, op, other, s', from', op');
  }
}
