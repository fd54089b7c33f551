/**
 The state machine as the source runs it: node entries are stored buffers, every read
 hands out a copy, and handlers decode views, edit copies in place and put them back.
 Each handler is proved to do exactly what Ledger.dfy says, and none can write to a buffer
 that is already stored, since only this object is in its frame.
 */
module StateMachine {
  import opened Bytes
  import opened Records
  import opened AmountBuffers
  import opened NodeEntry
  import opened Balances
  import opened LengthEntry
  import opened Outcomes
  import L = Ledger

  type Stored = map<Address, array<byte>>

  ghost predicate AllWellFormed(nodes: Stored)
    reads nodes.Values
  {
    forall a {:trigger nodes[a]} :: a in nodes ==> WellFormed(nodes[a][..])
  }

  ghost function Entries(nodes: Stored): map<Address, Entry>
    requires AllWellFormed(nodes)
    reads nodes.Values
  {
    map a | a in nodes :: Decoded(nodes[a][..])
  }

  lemma EntriesUpdate(nodes: Stored, a: Address, entry: array<byte>)
    requires AllWellFormed(nodes) && WellFormed(entry[..])
    ensures AllWellFormed(nodes[a := entry])
    ensures Entries(nodes[a := entry]) == Entries(nodes)[a := Decoded(entry[..])]
  {
    hide WellFormed, Decoded;
  }

  // ---------- pipelines over one entry ----------

  /** A percentage of the fee constant. */
  method FeePart(percent: nat) returns (b: Balance)
    requires percent <= 100
    ensures b.Valid() && fresh(b.value.buf) && b.Amount() == L.PercentOfFee(percent)
  {
    AmountConstants();
    var fee := Constant(FEE_BYTES);
    var term := Percent(percent);
    var r := fee.Percentage(term);
    assert fee.Amount() * BE(term) == FEE * (100 * percent);
    b := r.value;
  }

  /** Takes an amount from the balance of an entry, in place; null when the balance is too small. */
  method Charge(entry: array<byte>, amount: Balance) returns (r: array?<byte>)
    requires WellFormed(entry[..]) && amount.Valid() && amount.value.buf != entry
    modifies entry
    ensures r == null <==> old(Decoded(entry[..]).balance) < old(amount.Amount())
    ensures r == null ==> entry[..] == old(entry[..])
    ensures r != null ==> r == entry && WellFormed(entry[..])
                          && Decoded(entry[..]) == old(Decoded(entry[..])).(
                               balance := old(Decoded(entry[..]).balance - amount.Amount()))
  {
    var node := Decode(entry);
    var balance := ToBalance(node.value.balance);
    var enough := balance.value.GreaterThanOrEquals(amount);
    if !enough { return null; }
    var rest := balance.value.Sub(amount);
    r := rest.value.Update(entry);
  }

  /** Adds an amount to the balance of an entry, in place; null when the sum overflows. */
  method Reward(entry: array<byte>, amount: Balance) returns (r: array?<byte>)
    requires WellFormed(entry[..]) && amount.Valid() && amount.value.buf != entry
    modifies entry
    ensures r == null <==> old(Decoded(entry[..]).balance + amount.Amount()) >= AMOUNT_LIMIT
    ensures r == null ==> entry[..] == old(entry[..])
    ensures r != null ==> r == entry && WellFormed(entry[..])
                          && Decoded(entry[..]) == old(Decoded(entry[..])).(
                               balance := old(Decoded(entry[..]).balance + amount.Amount()))
  {
    var node := Decode(entry);
    var balance := ToBalance(node.value.balance);
    var sum := balance.value.Add(amount);
    if sum.None? { return null; }
    r := sum.value.Update(entry);
  }

  class State {
    const env: L.Env
    var nodes: Stored
    var admin: Option<L.AdminEntry>
    var initialization: Option<seq<byte>>
    var writerKeys: map<Key, Address>
    var writersLength: Option<seq<byte>>
    var writersIndex: map<nat, Address>
    var licenseCount: Option<seq<byte>>
    var licenseIndex: map<nat, Address>
    var deployments: map<Key, L.Deployment>
    var txs: map<L.Hash, L.Op>
    var base: map<Key, bool>

    /** The ledger that the fields stand for. */
    ghost var ledger: L.Ledger

    ghost predicate Valid()
      reads this, nodes.Values
    {
      && env.cap == AMOUNT_LIMIT
      && AllWellFormed(nodes) && ledger.nodes == Entries(nodes)
      && ledger.admin == admin && ledger.initialization == Flag(initialization)
      && ledger.writerKeys == writerKeys && ledger.writersIndex == writersIndex && IsCounter(writersLength, ledger.writersLength)
      && ledger.licenseIndex == licenseIndex && IsCounter(licenseCount, ledger.licenseCount)
      && ledger.deployments == deployments && ledger.txs == txs && ledger.base == base
    }

    /** An empty store; the bootstrap key is the only writer. */
    constructor (env: L.Env)
      requires env.cap == AMOUNT_LIMIT
      ensures Valid() && this.env == env && ledger == L.Genesis(env)
    {
      this.env := env;
      nodes := map[];
      admin, initialization := None, None;
      writerKeys, writersLength, writersIndex := map[], None, map[];
      licenseCount, licenseIndex := None, map[];
      deployments, txs := map[], map[];
      base := map[env.bootstrap := true];
      ledger := L.Genesis(env);
      new;
      assert Entries(nodes) == map[];
    }

    static ghost function Flag(b: Option<seq<byte>>): Option<bool> {
      if b.None? then None else Some(b.value != [0, 0, 0, 0])
    }

    /** A missing counter counts as zero. */
    static ghost predicate IsCounter(b: Option<seq<byte>>, n: nat) {
      if b.None? then n == 0 else |b.value| == 4 && BE(b.value) == n
    }

    /** A deep copy of the stored entry. */
    method GetEntry(a: Address) returns (r: array?<byte>)
      requires Valid()
      ensures r == null <==> a !in nodes
      ensures r != null ==> fresh(r) && r !in nodes.Values && WellFormed(r[..]) && Decoded(r[..]) == ledger.nodes[a]
    {
      if a !in nodes { return null; }
      var copy := new byte[nodes[a].Length](_ => 0);
      Copy(nodes[a][..], copy, 0);
      assert copy[..] == nodes[a][..];
      r := copy;
    }

    method Put(a: Address, entry: array<byte>)
      requires Valid() && WellFormed(entry[..])
      modifies this`nodes, this`ledger
      ensures Valid() && nodes == old(nodes)[a := entry]
      ensures ledger == old(ledger).(nodes := old(ledger.nodes)[a := Decoded(entry[..])])
    {
      hide WellFormed, Decoded, BE;
      EntriesUpdate(nodes, a, entry);
      nodes := nodes[a := entry];
      ledger := ledger.(nodes := ledger.nodes[a := Decoded(entry[..])]);
    }

    /** The operation is stored under its hash. */
    method Record(op: L.Op)
      requires Valid()
      modifies this`txs, this`ledger
      ensures Valid() && ledger == L.Record(old(ledger), op).ledger
    {
      hide WellFormed, Decoded, BE;
      txs := txs[op.tx := op];
      ledger := ledger.(txs := txs);
    }

    method RemoveMember(key: Key)
      requires Valid()
      modifies this`base, this`ledger
      ensures Valid() && ledger == old(ledger).(base := old(ledger).base - {key})
    {
      hide WellFormed, Decoded, BE;
      base := base - {key};
      ledger := ledger.(base := base);
    }

    method AddMember(key: Key, indexer: bool)
      requires Valid()
      modifies this`base, this`ledger
      ensures Valid() && ledger == old(ledger).(base := old(ledger).base[key := indexer])
    {
      hide WellFormed, Decoded, BE;
      base := base[key := indexer];
      ledger := ledger.(base := base);
    }

    method RegisterWriterKey(key: Key, a: Address)
      requires Valid()
      modifies this`writerKeys, this`ledger
      ensures Valid() && ledger == old(ledger).(writerKeys := old(ledger).writerKeys[key := a])
    {
      hide WellFormed, Decoded, BE;
      writerKeys := writerKeys[key := a];
      ledger := ledger.(writerKeys := writerKeys);
    }

    method PutAdmin(entry: L.AdminEntry)
      requires Valid()
      modifies this`admin, this`ledger
      ensures Valid() && ledger == old(ledger).(admin := Some(entry))
    {
      hide WellFormed, Decoded, BE;
      admin := Some(entry);
      ledger := ledger.(admin := admin);
    }

    method PutInitialization(enabled: bool)
      requires Valid()
      modifies this`initialization, this`ledger
      ensures Valid() && ledger == old(ledger).(initialization := Some(enabled))
    {
      hide WellFormed, Decoded, BE;
      initialization := Some([0, 0, 0, if enabled then 1 else 0]);
      assert initialization.value[3] == if enabled then 1 else 0;
      ledger := ledger.(initialization := Some(enabled));
    }

    /** The flag is the four-byte zero; a missing flag does not disable. */
    predicate IsInitializationDisabled()
      requires Valid()
      reads this, nodes.Values
      ensures IsInitializationDisabled() == L.InitializationDisabled(ledger)
    {
      initialization == Some([0, 0, 0, 0])
    }

    method PutDeployment(bs: Key, d: L.Deployment)
      requires Valid()
      modifies this`deployments, this`ledger
      ensures Valid() && ledger == old(ledger).(deployments := old(ledger).deployments[bs := d])
    {
      hide WellFormed, Decoded, BE;
      deployments := deployments[bs := d];
      ledger := ledger.(deployments := deployments);
    }

    /** The next value of a counter; a counter that is missing starts at zero. */
    static method Next(counter: Option<seq<byte>>, ghost n: nat) returns (length: nat, incremented: seq<byte>)
      requires IsCounter(counter, n) && n + 1 < LICENSE_LIMIT
      ensures length == n && IsCounter(Some(incremented), n + 1)
    {
      length := 0;
      if counter.Some? {
        DecodeIsBE(counter.value);
        length := DecodeBE(counter.value);
      }
      CountersRoundTrip(length + 1);
      incremented := IncrementBE(length).value;
    }

    /** Adds an address to the history of writers. */
    method AppendWriter(a: Address)
      requires Valid() && ledger.writersLength + 1 < LICENSE_LIMIT
      modifies this`writersIndex, this`writersLength, this`ledger
      ensures Valid()
      ensures ledger == old(ledger).(writersIndex := old(ledger).writersIndex[old(ledger).writersLength := a],
                                     writersLength := old(ledger).writersLength + 1)
    {
      hide WellFormed, Decoded, BE;
      var length, incremented := Next(writersLength, ledger.writersLength);
      writersIndex := writersIndex[length := a];
      writersLength := Some(incremented);
      ledger := ledger.(writersIndex := writersIndex, writersLength := length + 1);
    }

    /** Gives the next licence to an address. */
    method AssignNewLicense(a: Address) returns (license: seq<byte>)
      requires Valid() && ledger.licenseCount + 1 < LICENSE_LIMIT
      modifies this`licenseIndex, this`licenseCount, this`ledger
      ensures Valid() && ledger == L.AssignLicense(old(ledger), a)
      ensures |license| == 4 && BE(license) == ledger.licenseCount
    {
      hide WellFormed, Decoded, BE;
      var length, incremented := Next(licenseCount, ledger.licenseCount);
      license := incremented;
      licenseCount := Some(license);
      DecodeIsBE(license);
      licenseIndex := licenseIndex[DecodeBE(license) := a];
      ledger := ledger.(licenseIndex := licenseIndex, licenseCount := length + 1);
    }

    // ---------- guards ----------

    /** The validator is an active writer, and its key signed the block. */
    method IsValidatorValid(entry: array?<byte>, from: Key) returns (ok: bool)
      requires entry != null ==> WellFormed(entry[..])
      ensures ok <==> entry != null && Decoded(entry[..]).role.IsActive() && Decoded(entry[..]).wk == from
    {
      if entry == null { return false; }
      var node := Decode(entry);
      if !node.value.isWriter { return false; }
      ok := node.value.wk.Bytes() == from;
    }

    /** The checks that every operation with a validator starts with; on success the validator's entry. */
    method CheckValidatorCall(op: L.Op, from: Key) returns (ok: bool, validatorEntry: array?<byte>)
      requires Valid() && op.ByValidator()
      ensures ok <==> L.ValidatorCall(env, ledger, from, op)
      ensures ok ==> validatorEntry != null && fresh(validatorEntry) && validatorEntry !in nodes.Values
                     && WellFormed(validatorEntry[..]) && Decoded(validatorEntry[..]) == ledger.nodes[op.done.value.va]
    {
      validatorEntry := null;
      if !op.SchemaOk() || !L.Countersigned(env, op) || !L.Authentic(env, op) { return false, null; }
      if op.txv != env.sequenceState(L.Indexers(base)) { return false, null; }
      validatorEntry := GetEntry(op.done.value.va);
      ok := IsValidatorValid(validatorEntry, from);
    }

    method CheckAdminCall(op: L.Op, from: Key) returns (ok: bool)
      requires Valid()
      ensures ok <==> L.AdminCall(env, ledger, from, op)
    {
      if !op.SchemaOk() || admin.None? || admin.value.wk != from || admin.value.address != op.address { return false; }
      if !L.Authentic(env, op) { return false; }
      if op.txv != env.sequenceState(L.Indexers(base)) { return false; }
      ok := op.tx !in txs;
    }

    /** A copy of the payer's entry with an amount taken off: FAILURE without an entry, IGNORE
        without the money. */
    method ChargeAccount(a: Address, amount: Balance) returns (status: L.Status, entry: array?<byte>)
      requires Valid() && amount.Valid()
      ensures status == if a !in ledger.nodes then L.Failure
                        else if ledger.nodes[a].balance < amount.Amount() then L.Ignore else L.Success
      ensures status.Success? ==>
                && entry != null && fresh(entry) && entry !in nodes.Values && WellFormed(entry[..])
                && Decoded(entry[..]) == ledger.nodes[a].(balance := ledger.nodes[a].balance - amount.Amount())
    {
      entry := GetEntry(a);
      if entry == null { return L.Failure, null; }
      var charged := Charge(entry, amount);
      status := if charged == null then L.Ignore else L.Success;
    }

    /** The fee from the payer, on a copy of its entry. */
    method ChargeFee(a: Address) returns (status: L.Status, entry: array?<byte>)
      requires Valid()
      ensures status == if a !in ledger.nodes then L.Failure
                        else if ledger.nodes[a].balance < FEE then L.Ignore else L.Success
      ensures status.Success? ==>
                && entry != null && fresh(entry) && entry !in nodes.Values && WellFormed(entry[..])
                && Decoded(entry[..]) == ledger.nodes[a].(balance := ledger.nodes[a].balance - FEE)
    {
      AmountConstants();
      var fee := Constant(FEE_BYTES);
      status, entry := ChargeAccount(a, fee);
    }

    /** The validator's share of the fee, written into the copy of its entry. */
    method RewardFee(entry: array<byte>, percent: nat) returns (ok: bool)
      requires Valid() && entry !in nodes.Values && WellFormed(entry[..]) && percent <= 100
      modifies entry
      ensures Valid()
      ensures ok <==> old(Decoded(entry[..]).balance) + L.PercentOfFee(percent) < AMOUNT_LIMIT
      ensures ok ==> WellFormed(entry[..])
                     && Decoded(entry[..]) == old(Decoded(entry[..])).(
                          balance := old(Decoded(entry[..]).balance) + L.PercentOfFee(percent))
    {
      hide WellFormed, Decoded, BE;
      var share := FeePart(percent);
      var r := Reward(entry, share);
      ok := r != null;
    }

    // ---------- writers ----------

    /** BALANCE_FEE.mul(toTerm(10n)). */
    static method BalanceToStake() returns (b: Balance)
      ensures b.Valid() && fresh(b.value.buf) && b.Amount() == STAKE
    {
      AmountConstants();
      var fee := Constant(FEE_BYTES);
      var ten := ToTerm(10);
      SmallMod(10, AMOUNT_LIMIT);
      var r := fee.Mul(ten);
      b := r.value;
    }

    /** Checks the stake against the balance and moves it, on a copy; null when the balance is too small. */
    static method StakeBalance(entry: array<byte>) returns (r: array?<byte>)
      requires WellFormed(entry[..])
      modifies entry
      ensures r == null <==> old(Decoded(entry[..]).balance) < STAKE
      ensures r != null ==> fresh(r) && WellFormed(r[..])
                            && Decoded(r[..]) == old(Decoded(entry[..])).(
                                 balance := old(Decoded(entry[..]).balance) - STAKE, stake := STAKE)
    {
      hide WellFormed, Decoded, BE;
      AmountConstants();
      var stake := BalanceToStake();
      var charged := Charge(entry, stake);
      if charged == null { return null; }
      r := SetStakedBalance(entry, stake.value.Bytes());
    }

    /** Gives the stake back to the balance, on a copy; null without a stake or on overflow. */
    static method WithdrawStakedBalance(entry: array<byte>) returns (r: array?<byte>)
      requires WellFormed(entry[..])
      modifies entry
      ensures var e := old(Decoded(entry[..]));
              && (r == null <==> e.stake == 0 || e.balance + e.stake >= AMOUNT_LIMIT)
              && (r != null ==> fresh(r) && WellFormed(r[..])
                                && Decoded(r[..]) == e.(balance := e.balance + e.stake, stake := 0))
    {
      var node := Decode(entry);
      var zero := Constant(ZERO_BALANCE);
      BEZeros(ZERO_BALANCE);
      var stakedBalance := ToBalance(node.value.stakedBalance);
      var positive := stakedBalance.value.GreaterThan(zero);
      if !positive { return null; }
      var balance := ToBalance(node.value.balance);
      var sum := balance.value.Add(stakedBalance.value);
      if sum.None? { return null; }
      var updated := sum.value.Update(entry);
      r := SetStakedBalance(updated, ZERO_BALANCE);
    }

    /** Turns a copy of a whitelisted entry into a writer's, charged the fee, in place. The balance is
        read through a view of the buffer before the key is written into it. */
    static method MakeWriter(entry: array<byte>, iw: Key) returns (status: L.Status)
      requires WellFormed(entry[..])
      modifies entry
      ensures var e := old(Decoded(entry[..]));
              && status == (if !e.role.Whitelisted? then L.Failure else if e.balance < FEE then L.Ignore else L.Success)
              && (status.Success? ==> WellFormed(entry[..])
                                      && Decoded(entry[..]) == e.(role := Writer, wk := iw, balance := e.balance - FEE))
    {
      hide Decoded, BE;
      var node := Decode(entry);
      if node.value.isIndexer || node.value.isWriter || !node.value.isWhitelisted { return L.Failure; }
      var balance := ToBalance(node.value.balance);
      AmountConstants();
      var fee := Constant(FEE_BYTES);
      var enough := balance.value.GreaterThanOrEquals(fee);
      if !enough { return L.Ignore; }
      var rest := balance.value.Sub(fee);
      var keyBuffer := new byte[32](i requires 0 <= i < 32 => iw[i]);
      assert keyBuffer[0..32] == iw;
      var withRole := SetRoleAndWriterKey(entry, 3, View(keyBuffer, 0, 32));
      var charged := rest.value.Update(entry);
      return L.Success;
    }

    ghost predicate CanAddWriter(op: L.Op, validatorEntry: array<byte>)
      reads this, nodes.Values, validatorEntry
    {
      Valid() && ValidatorEntry(op, validatorEntry) && op.RoleAccess? && ledger.writersLength + 1 < LICENSE_LIMIT
    }

    /** A copy of the entry of the operation's validator, who is not the requester. */
    ghost predicate ValidatorEntry(op: L.Op, entry: array<byte>)
      requires Valid()
      reads this, nodes.Values, entry
    {
      && op.ByValidator() && op.done.Some? && op.address != op.done.value.va && op.done.value.va in ledger.nodes
      && entry !in nodes.Values && WellFormed(entry[..]) && Decoded(entry[..]) == ledger.nodes[op.done.value.va]
    }

    /** A key that is registered may only be taken up again by its owner, as its current key. */
    method RegistryAllows(op: L.Op, entry: array<byte>) returns (allowed: bool, registered: bool)
      requires Valid() && op.RoleAccess? && WellFormed(entry[..])
      ensures registered == (op.iw in ledger.writerKeys)
      ensures allowed == (registered ==> Decoded(entry[..]).wk == op.iw && ledger.writerKeys[op.iw] == op.address)
    {
      registered := op.iw in writerKeys;
      allowed := true;
      if registered {
        var node := Decode(entry);
        allowed := node.value.wk.Bytes() == op.iw && writerKeys[op.iw] == op.address;
      }
    }

    method AddWriter(op: L.Op, validatorEntry: array<byte>) returns (status: L.Status)
      requires CanAddWriter(op, validatorEntry)
      modifies this, validatorEntry
      ensures Valid() && L.Outcome(status, ledger) == L.AddWriter(env, old(ledger), op)
    {
      hide WellFormed, Decoded, BE;
      var va := op.done.value.va;
      ghost var s := ledger;
      var entry := GetEntry(op.address);
      if entry == null { return L.Failure; }
      var allowed, registered := RegistryAllows(op, entry);
      if !allowed { return L.Failure; }
      status := MakeWriter(entry, op.iw);
      if !status.Success? { return; }
      var rewarded := RewardFee(validatorEntry, 75);
      if !rewarded { return L.Failure; }
      var staked := StakeBalance(entry);
      if staked == null { return L.Failure; }
      AddedWriter(env, s, op, Decoded(staked[..]), Decoded(validatorEntry[..]));
      PutWriter(op, staked, registered, validatorEntry);
    }

    /** The writes of an added writer, in the order of the source. */
    method PutWriter(op: L.Op, entry: array<byte>, registered: bool, validatorEntry: array<byte>)
      requires Valid() && op.RoleAccess? && op.done.Some? && ledger.writersLength + 1 < LICENSE_LIMIT
      requires WellFormed(entry[..]) && WellFormed(validatorEntry[..]) && registered == (op.iw in ledger.writerKeys)
      modifies this
      ensures Valid()
      ensures ledger == WriterAdded(old(ledger), op, Decoded(entry[..]), Decoded(validatorEntry[..]))
    {
      hide WellFormed, Decoded, BE, Valid;
      AddMember(op.iw, false);
      Put(op.address, entry);
      if !registered { RegisterWriterKey(op.iw, op.address); }
      AppendWriter(op.address);
      Put(op.done.value.va, validatorEntry);
      Record(op);
    }

    method ApplyAddWriter(op: L.Op, from: Key) returns (status: L.Status)
      requires Valid() && op.RoleAccess? && ledger.writersLength + 1 < LICENSE_LIMIT
      modifies this
      ensures Valid() && L.Outcome(status, ledger) == L.ApplyAddWriter(env, old(ledger), from, op)
    {
      hide WellFormed, Decoded, BE, L.AddWriter;
      var ok, validatorEntry := CheckValidatorCall(op, from);
      if !ok { return L.Failure; }
      if op.tx in txs { return L.Ignore; }
      status := AddWriter(op, validatorEntry);
    }

    /** A whitelisted copy of a writer's entry, charged the fee; the entry itself stays. */
    static method DemoteAndCharge(entry: array<byte>) returns (status: L.Status, r: array?<byte>)
      requires WellFormed(entry[..])
      ensures var e := Decoded(entry[..]);
              && status == (if e.balance < FEE then L.Ignore else L.Success)
              && (status.Success? ==> r != null && fresh(r) && WellFormed(r[..])
                                      && Decoded(r[..]) == e.(role := Whitelisted, balance := e.balance - FEE))
    {
      hide Decoded, BE;
      var node := Decode(entry);
      var balance := ToBalance(node.value.balance);
      AmountConstants();
      var fee := Constant(FEE_BYTES);
      var enough := balance.value.GreaterThanOrEquals(fee);
      if !enough { return L.Ignore, null; }
      var rest := balance.value.Sub(fee);
      r := SetRole(entry, 1);
      var charged := rest.value.Update(r);
      status := L.Success;
    }

    /** The requester's entry; null unless it is a writer's that holds the key named in the operation. */
    method LeavingEntry(op: L.Op) returns (entry: array?<byte>)
      requires Valid() && op.RoleAccess?
      ensures entry != null <==>
              && op.address in ledger.nodes && ledger.nodes[op.address].role.Writer?
              && op.iw in writerKeys && op.iw == ledger.nodes[op.address].wk && writerKeys[op.iw] == op.address
      ensures entry != null ==> fresh(entry) && WellFormed(entry[..]) && Decoded(entry[..]) == ledger.nodes[op.address]
    {
      hide Decoded, BE;
      entry := GetEntry(op.address);
      if entry == null { return; }
      var node := Decode(entry);
      if node.value.isIndexer || !node.value.isWriter { return null; }
      if op.iw !in writerKeys || op.iw != node.value.wk.Bytes() || writerKeys[op.iw] != op.address { return null; }
    }

    method RemoveWriter(op: L.Op, validatorEntry: array<byte>) returns (status: L.Status)
      requires Valid() && ValidatorEntry(op, validatorEntry) && op.RoleAccess?
      modifies this, validatorEntry
      ensures Valid() && L.Outcome(status, ledger) == L.RemoveWriter(env, old(ledger), op)
    {
      hide WellFormed, Decoded, BE;
      ghost var s := ledger;
      var entry := LeavingEntry(op);
      if entry == null { return L.Failure; }
      var charged;
      status, charged := DemoteAndCharge(entry);
      if !status.Success? { return; }
      var rewarded := RewardFee(validatorEntry, 75);
      if !rewarded { return L.Failure; }
      var withdrawn := WithdrawStakedBalance(charged);
      if withdrawn == null { return L.Failure; }
      RemovedWriter(env, s, op, Decoded(withdrawn[..]), Decoded(validatorEntry[..]));
      RemoveMember(op.iw);
      PutBoth(op, withdrawn, validatorEntry);
    }

    /** The requester's entry, the validator's, and the operation. */
    method PutBoth(op: L.Op, entry: array<byte>, validatorEntry: array<byte>)
      requires Valid() && op.ByValidator() && op.done.Some? && WellFormed(entry[..]) && WellFormed(validatorEntry[..])
      modifies this`nodes, this`txs, this`ledger
      ensures Valid()
      ensures ledger == old(ledger).(
                nodes := old(ledger).nodes[op.address := Decoded(entry[..])][op.done.value.va := Decoded(validatorEntry[..])],
                txs := old(ledger).txs[op.tx := op])
    {
      hide WellFormed, Decoded, BE, Valid;
      Put(op.address, entry);
      Put(op.done.value.va, validatorEntry);
      Record(op);
    }

    method ApplyRemoveWriter(op: L.Op, from: Key) returns (status: L.Status)
      requires Valid() && op.RoleAccess?
      modifies this
      ensures Valid() && L.Outcome(status, ledger) == L.ApplyRemoveWriter(env, old(ledger), from, op)
    {
      hide WellFormed, Decoded, BE, L.RemoveWriter;
      var ok, validatorEntry := CheckValidatorCall(op, from);
      if !ok { return L.Failure; }
      if op.tx in txs { return L.Ignore; }
      status := RemoveWriter(op, validatorEntry);
    }

    // ---------- admin recovery ----------

    /** Writes the new key into a copy of the admin's entry, then charges the fee there. */
    static method RekeyAndCharge(entry: array<byte>, iw: Key) returns (status: L.Status)
      requires WellFormed(entry[..])
      modifies entry
      ensures var e := old(Decoded(entry[..]));
              && status == (if e.balance < FEE then L.Ignore else L.Success)
              && (status.Success? ==> WellFormed(entry[..])
                                      && Decoded(entry[..]) == e.(wk := iw, balance := e.balance - FEE))
    {
      hide Decoded, BE;
      var rekeyed := SetWritingKey(entry, iw);
      AmountConstants();
      var fee := Constant(FEE_BYTES);
      var charged := Charge(entry, fee);
      status := if charged == null then L.Ignore else L.Success;
    }

    method AdminRecovery(op: L.Op, validatorEntry: array<byte>) returns (status: L.Status)
      requires Valid() && ValidatorEntry(op, validatorEntry) && op.RoleAccess?
      modifies this, validatorEntry
      ensures Valid() && L.Outcome(status, ledger) == L.AdminRecovery(env, old(ledger), op)
    {
      hide WellFormed, Decoded, BE;
      ghost var s := ledger;
      if op.iw in writerKeys { return L.Failure; }
      if admin.None? || admin.value.address != op.address { return L.Failure; }
      if op.tx in txs { return L.Failure; }
      var oldKey := admin.value.wk;
      if oldKey !in L.Indexers(base) { return L.Failure; }
      var entry := GetEntry(op.address);
      if op.iw in L.Indexers(base) || entry == null { return L.Failure; }
      status := RekeyAndCharge(entry, op.iw);
      if !status.Success? { return; }
      var rewarded := RewardFee(validatorEntry, 75);
      if !rewarded { return L.Failure; }
      RecoveredAdmin(env, s, op, Decoded(entry[..]), Decoded(validatorEntry[..]));
      RemoveMember(oldKey);
      AddMember(op.iw, true);
      RegisterWriterKey(op.iw, op.address);
      PutAdmin(L.AdminEntry(op.address, op.iw));
      PutBoth(op, entry, validatorEntry);
    }

    method ApplyAdminRecovery(op: L.Op, from: Key) returns (status: L.Status)
      requires Valid() && op.RoleAccess?
      modifies this
      ensures Valid() && L.Outcome(status, ledger) == L.ApplyAdminRecovery(env, old(ledger), from, op)
    {
      hide WellFormed, Decoded, BE, L.AdminRecovery;
      var ok, validatorEntry := CheckValidatorCall(op, from);
      if !ok { return L.Failure; }
      status := AdminRecovery(op, validatorEntry);
    }

    // ---------- bootstrap deployment ----------

    method DeployBootstrap(op: L.Op, validatorEntry: array<byte>) returns (status: L.Status)
      requires Valid() && ValidatorEntry(op, validatorEntry) && op.BootstrapDeployment?
      modifies this, validatorEntry
      ensures Valid() && L.Outcome(status, ledger) == L.DeployBootstrap(env, old(ledger), op)
    {
      hide WellFormed, Decoded, BE;
      ghost var s := ledger;
      if op.tx in txs || op.bs in deployments { return L.Ignore; }
      var entry;
      status, entry := ChargeFee(op.address);
      if !status.Success? { return; }
      var rewarded := RewardFee(validatorEntry, 75);
      if !rewarded { return L.Failure; }
      DeployedBootstrap(env, s, op, Decoded(entry[..]), Decoded(validatorEntry[..]));
      PutDeployment(op.bs, L.Deployment(op.tx, op.address));
      PutBoth(op, entry, validatorEntry);
    }

    method ApplyBootstrapDeployment(op: L.Op, from: Key) returns (status: L.Status)
      requires Valid() && op.BootstrapDeployment?
      modifies this
      ensures Valid() && L.Outcome(status, ledger) == L.ApplyBootstrapDeployment(env, old(ledger), from, op)
    {
      hide WellFormed, Decoded, BE, L.DeployBootstrap;
      var ok, validatorEntry := CheckValidatorCall(op, from);
      if !ok || op.bs == env.bootstrap { return L.Failure; }
      status := DeployBootstrap(op, validatorEntry);
    }

    // ---------- subnetwork transactions ----------

    /** A copy of an entry with a share of the fee added; null without an entry or on overflow. */
    method ShareFee(a: Address, percent: nat) returns (entry: array?<byte>)
      requires Valid() && percent <= 100
      ensures entry == null <==> !L.CanCredit(env, ledger, a, L.PercentOfFee(percent))
      ensures entry != null ==> fresh(entry) && WellFormed(entry[..])
                                && Credited(ledger, a, L.PercentOfFee(percent), Decoded(entry[..]))
    {
      hide WellFormed, Decoded, BE;
      entry := GetEntry(a);
      if entry == null { return null; }
      var ok := RewardFee(entry, percent);
      if !ok { entry := null; }
    }

    /** What the validator earns: half the fee, and a quarter more when it created the subnetwork. */
    method RewardForTx(validatorEntry: array<byte>, isCreator: bool) returns (ok: bool)
      requires Valid() && validatorEntry !in nodes.Values && WellFormed(validatorEntry[..])
      modifies validatorEntry
      ensures Valid()
      ensures var e, share := old(Decoded(validatorEntry[..])), L.PercentOfFee(50) + if isCreator then L.PercentOfFee(25) else 0;
              && (ok <==> e.balance + share < AMOUNT_LIMIT)
              && (ok ==> WellFormed(validatorEntry[..]) && Decoded(validatorEntry[..]) == e.(balance := e.balance + share))
    {
      hide WellFormed, Decoded, BE;
      ok := RewardFee(validatorEntry, 50);
      if ok && isCreator {
        ok := RewardFee(validatorEntry, 25);
      }
    }

    method TransferFee(op: L.Op, creator: Address, validatorEntry: array<byte>) returns (status: L.Status)
      requires Valid() && ValidatorEntry(op, validatorEntry) && op.SubnetTx?
      modifies this, validatorEntry
      ensures Valid()
      ensures L.Outcome(status, ledger)
           == L.Settle(old(ledger), L.TransferFee(env, old(ledger), op.address, op.done.value.va, creator), op)
    {
      hide WellFormed, Decoded, BE;
      ghost var s := ledger;
      var va := op.done.value.va;
      var entry;
      status, entry := ChargeFee(op.address);
      if !status.Success? { return; }
      ghost var w := Decoded(entry[..]);
      var ok := RewardForTx(validatorEntry, creator == va);
      if !ok { return L.Failure; }
      var creatorEntry := null;
      var isThird := creator != op.address && creator != va;
      if isThird {
        creatorEntry := ShareFee(creator, 25);
        if creatorEntry == null { return L.Failure; }
      }
      ghost var c := if isThird then Decoded(creatorEntry[..]) else w;
      SplitFee(env, s, op.address, va, creator, w, Decoded(validatorEntry[..]), c);
      Put(op.address, entry);
      Put(va, validatorEntry);
      if isThird { Put(creator, creatorEntry); }
      Record(op);
    }

    method ApplySubnetTx(op: L.Op, from: Key) returns (status: L.Status)
      requires Valid() && op.SubnetTx?
      modifies this
      ensures Valid() && L.Outcome(status, ledger) == L.ApplySubnetTx(env, old(ledger), from, op)
    {
      hide WellFormed, Decoded, BE, L.TransferFee;
      var ok, validatorEntry := CheckValidatorCall(op, from);
      if !ok || op.bs == op.mbs || op.mbs != env.bootstrap { return L.Failure; }
      if op.tx in txs { return L.Ignore; }
      if op.bs !in deployments { return L.Failure; }
      var creator := deployments[op.bs].creator;
      if !env.addressOk(creator) { return L.Failure; }
      status := TransferFee(op, creator, validatorEntry);
    }

    // ---------- admin control ----------

    /** An indexer's copy of a writer's entry, and its key; null for any other role. */
    static method Promoted(entry: array<byte>) returns (r: array?<byte>, wk: Key)
      requires WellFormed(entry[..])
      ensures r != null <==> Decoded(entry[..]).role.Writer?
      ensures wk == Decoded(entry[..]).wk
      ensures r != null ==> fresh(r) && WellFormed(r[..]) && Decoded(r[..]) == Decoded(entry[..]).(role := Indexer)
    {
      hide Decoded, BE;
      var node := Decode(entry);
      wk := node.value.wk.Bytes();
      var isNodeWriter := IsWriter(entry);
      var isNodeIndexer := IsIndexer(entry);
      if !isNodeWriter || isNodeIndexer { return null, wk; }
      r := SetRole(entry, 7);
    }

    method AddIndexer(op: L.Op) returns (status: L.Status)
      requires Valid() && op.AdminControl?
      modifies this
      ensures Valid() && L.Outcome(status, ledger) == L.AddIndexer(old(ledger), op)
    {
      hide WellFormed, Decoded, BE;
      ghost var s := ledger;
      var entry := GetEntry(op.ia);
      if entry == null { return L.Failure; }
      var updated, wk := Promoted(entry);
      if updated == null { return L.Failure; }
      if wk in L.Indexers(base) { return L.Failure; }
      var adminEntry;
      status, adminEntry := ChargeFee(op.address);
      if !status.Success? { return L.Failure; }
      AddedIndexer(s, op, Decoded(updated[..]), Decoded(adminEntry[..]));
      RemoveMember(wk);
      AddMember(wk, true);
      PutControl(op, updated, adminEntry);
    }

    /** The node's entry, then the admin's, then the operation. */
    method PutControl(op: L.Op, entry: array<byte>, adminEntry: array<byte>)
      requires Valid() && op.AdminControl? && WellFormed(entry[..]) && WellFormed(adminEntry[..])
      modifies this`nodes, this`txs, this`ledger
      ensures Valid()
      ensures ledger == old(ledger).(
                nodes := old(ledger).nodes[op.ia := Decoded(entry[..])][op.address := Decoded(adminEntry[..])],
                txs := old(ledger).txs[op.tx := op])
    {
      hide WellFormed, Decoded, BE, Valid;
      Put(op.ia, entry);
      Put(op.address, adminEntry);
      Record(op);
    }

    /** An indexer's entry becomes a writer's, in place; the writing key is handed over as a view of
        the very buffer it is written into. */
    static method Downgrade(entry: array<byte>) returns (ok: bool, wk: Key)
      requires WellFormed(entry[..])
      modifies entry
      ensures ok <==> old(Decoded(entry[..]).role.Indexer?)
      ensures ok ==> wk == old(Decoded(entry[..]).wk) && WellFormed(entry[..])
                     && Decoded(entry[..]) == old(Decoded(entry[..])).(role := Writer)
    {
      hide Decoded, BE;
      var node := Decode(entry);
      wk := node.value.wk.Bytes();
      ok := IsIndexer(entry);
      if !ok { return; }
      var updated := SetRoleAndWriterKey(entry, 3, node.value.wk);
    }

    method RemoveIndexer(op: L.Op) returns (status: L.Status)
      requires Valid() && op.AdminControl? && ledger.writersLength + 1 < LICENSE_LIMIT
      modifies this
      ensures Valid() && L.Outcome(status, ledger) == L.RemoveIndexer(old(ledger), op)
    {
      hide WellFormed, Decoded, BE;
      ghost var s := ledger;
      var entry := GetEntry(op.ia);
      if entry == null { return L.Failure; }
      var isNodeIndexer, wk := Downgrade(entry);
      if !isNodeIndexer || wk !in L.Indexers(base) { return L.Failure; }
      var adminEntry;
      status, adminEntry := ChargeFee(op.address);
      if !status.Success? { return L.Failure; }
      RemovedIndexer(s, op, Decoded(entry[..]), Decoded(adminEntry[..]));
      RemoveMember(wk);
      AddMember(wk, false);
      AppendWriter(op.ia);
      PutControl(op, entry, adminEntry);
    }

    /** A reader's copy of the entry of a whitelisted node or a writer; the entry itself stays. */
    static method RevokeRole(entry: array<byte>) returns (isWriter: bool, wk: Key, r: array?<byte>)
      requires WellFormed(entry[..])
      ensures var e := Decoded(entry[..]);
              && (r == null <==> e.role.Reader? || e.role.Indexer?)
              && (r != null ==> isWriter == e.role.Writer? && wk == e.wk && fresh(r) && WellFormed(r[..])
                                && Decoded(r[..]) == e.(role := Reader))
    {
      hide Decoded, BE;
      var isWhitelisted := IsWhitelisted(entry);
      isWriter := IsWriter(entry);
      var isIndexer := IsIndexer(entry);
      wk := ZERO_WK;
      if (!isWhitelisted && !isWriter) || isIndexer { return isWriter, wk, null; }
      r := SetRole(entry, 0);
      var node := Decode(r);
      wk := node.value.wk.Bytes();
    }

    method BanValidator(op: L.Op) returns (status: L.Status)
      requires Valid() && op.AdminControl?
      modifies this
      ensures Valid() && L.Outcome(status, ledger) == L.BanValidator(env, old(ledger), op)
    {
      hide WellFormed, Decoded, BE;
      ghost var s := ledger;
      var entry := GetEntry(op.ia);
      if entry == null { return L.Failure; }
      var isWriter, wk, demoted := RevokeRole(entry);
      if demoted == null { return L.Failure; }
      var adminEntry;
      status, adminEntry := ChargeFee(op.address);
      if !status.Success? { return L.Failure; }
      var final := demoted;
      if isWriter {
        final := WithdrawStakedBalance(demoted);
        if final == null { return L.Failure; }
      }
      Banned(env, s, op, Decoded(final[..]), Decoded(adminEntry[..]));
      if isWriter { RemoveMember(wk); }
      PutControl(op, final, adminEntry);
    }

    /** The whitelisted copy of an entry, and whether it holds no licence yet. */
    static method WhitelistCopy(entry: array<byte>) returns (r: array<byte>, unlicensed: bool)
      requires WellFormed(entry[..])
      ensures fresh(r) && WellFormed(r[..]) && Decoded(r[..]) == Decoded(entry[..]).(role := Whitelisted)
      ensures unlicensed <==> Decoded(entry[..]).license == 0
    {
      hide Decoded, BE;
      var node := Decode(entry);
      var edited := SetRole(entry, 1);
      r := edited;
      unlicensed := node.value.license.Bytes() == [0, 0, 0, 0];
      BEZeros([0, 0, 0, 0]);
      if BE(node.value.license.Bytes()) == 0 { BEInjective(node.value.license.Bytes(), [0, 0, 0, 0]); }
    }

    method WhitelistEntry(a: Address, entry: array?<byte>, ghost read: Option<Entry>)
      requires Valid() && ledger.licenseCount + 1 < LICENSE_LIMIT && (entry == null <==> read.None?)
      requires entry != null ==> WellFormed(entry[..]) && Decoded(entry[..]) == read.value
      modifies this
      ensures Valid() && ledger == L.Whitelist(old(ledger), a, read)
    {
      hide Decoded, BE, Valid;
      var whitelisted;
      if entry == null {
        var license := AssignNewLicense(a);
        BEZeros(ZERO_BALANCE);
        whitelisted := Init(ZERO_WK, 1, ZERO_BALANCE, license, ZERO_BALANCE);
      } else {
        var unlicensed;
        whitelisted, unlicensed := WhitelistCopy(entry);
        if unlicensed {
          var license := AssignNewLicense(a);
          var licensed := SetLicense(whitelisted, license);
        }
      }
      Put(a, whitelisted);
    }

    /** Once initialization is over the admin pays before the node is whitelisted. */
    method PayForWhitelist(a: Address) returns (ok: bool)
      requires Valid()
      modifies this`nodes, this`ledger
      ensures Valid()
      ensures ok <==> (L.InitializationDisabled(old(ledger)) ==> a in old(ledger).nodes && old(ledger).nodes[a].balance >= FEE)
      ensures ledger == if ok then L.PayForWhitelist(old(ledger), a) else old(ledger)
    {
      hide WellFormed, Decoded, BE;
      if !IsInitializationDisabled() { return true; }
      var status, entry := ChargeFee(a);
      ok := status.Success?;
      if ok { Put(a, entry); }
    }

    static method IsEntryWhitelisted(entry: array?<byte>) returns (r: bool)
      requires entry != null ==> WellFormed(entry[..])
      ensures r <==> entry != null && !Decoded(entry[..]).role.Reader?
    {
      r := IsWhitelisted(entry);
    }

    method AppendWhitelist(op: L.Op) returns (status: L.Status)
      requires Valid() && op.AdminControl? && ledger.licenseCount + 1 < LICENSE_LIMIT
      modifies this
      ensures Valid() && L.Outcome(status, ledger) == L.AppendWhitelist(old(ledger), op)
    {
      hide WellFormed, Decoded, BE, L.Whitelist, L.PayForWhitelist;
      ghost var read := L.ReadEntry(ledger, op.ia);
      var entry := GetEntry(op.ia);
      var already := IsEntryWhitelisted(entry);
      if already { return L.Failure; }
      var paid := PayForWhitelist(op.address);
      if !paid { return L.Failure; }
      WhitelistAndRecord(op, entry, read);
      status := L.Success;
    }

    method WhitelistAndRecord(op: L.Op, entry: array?<byte>, ghost read: Option<Entry>)
      requires Valid() && op.AdminControl? && ledger.licenseCount + 1 < LICENSE_LIMIT && (entry == null <==> read.None?)
      requires entry != null ==> WellFormed(entry[..]) && Decoded(entry[..]) == read.value
      modifies this
      ensures Valid() && ledger == L.Record(L.Whitelist(old(ledger), op.ia, read), op).ledger
    {
      hide WellFormed, Decoded, BE, L.Whitelist, Valid;
      WhitelistEntry(op.ia, entry, read);
      Record(op);
    }

    method ApplyAdminControl(op: L.Op, from: Key) returns (status: L.Status)
      requires Valid() && op.AdminControl? && CountersHaveRoom(1)
      modifies this
      ensures Valid() && L.Outcome(status, ledger) == L.ApplyOp(env, old(ledger), from, op)
    {
      hide WellFormed, Decoded, BE, L.AppendWhitelist, L.AddIndexer, L.RemoveIndexer, L.BanValidator, L.AdminCall;
      var ok := CheckAdminCall(op, from);
      if !ok || (if op.control.Ban? then !env.addressOk(op.ia) else !L.AddressValid(env, op.ia)) { return L.Failure; }
      match op.control
      case Whitelisting => status := AppendWhitelist(op);
      case IndexerAddition => status := AddIndexer(op);
      case IndexerRemoval => status := RemoveIndexer(op);
      case Ban => status := BanValidator(op);
    }

    /** The two counters can be incremented n times. */
    ghost predicate CountersHaveRoom(n: nat)
      reads this
    {
      ledger.licenseCount + n < LICENSE_LIMIT && ledger.writersLength + n < LICENSE_LIMIT
    }

    // ---------- core admin operations ----------

    method ApplyAddAdmin(op: L.Op, from: Key) returns (status: L.Status)
      requires Valid() && op.CoreAdmin? && CountersHaveRoom(1)
      modifies this
      ensures Valid() && L.Outcome(status, ledger) == L.ApplyAddAdmin(env, old(ledger), from, op)
    {
      hide WellFormed, Decoded, BE, L.Authentic;
      if !op.SchemaOk() || from != env.bootstrap || op.iw != env.bootstrap || !L.Authentic(env, op) { return L.Failure; }
      if op.txv != env.sequenceState(L.Indexers(base)) { return L.Failure; }
      if op.iw in writerKeys || admin.Some? || op.tx in txs { return L.Failure; }
      PutNewAdmin(op);
      status := L.Success;
    }

    /** The writes of a new admin: licence, entry, key, history, admin record, flag and operation. */
    method PutNewAdmin(op: L.Op)
      requires Valid() && op.CoreAdmin? && CountersHaveRoom(1)
      modifies this
      ensures Valid() && ledger == AdminAdded(old(ledger), op)
    {
      hide Decoded, BE, WellFormed, Valid;
      AmountConstants();
      var license := AssignNewLicense(op.address);
      var entry := Init(op.iw, 7, ADMIN_INITIAL_BALANCE_BYTES, license, ADMIN_INITIAL_STAKED_BALANCE_BYTES);
      Put(op.address, entry);
      RegisterWriterKey(op.iw, op.address);
      AppendWriter(op.address);
      PutAdmin(L.AdminEntry(op.address, op.iw));
      PutInitialization(true);
      Record(op);
    }

    method ApplyDisableInitialization(op: L.Op, from: Key) returns (status: L.Status)
      requires Valid() && op.CoreAdmin?
      modifies this
      ensures Valid() && L.Outcome(status, ledger) == L.ApplyDisableInitialization(env, old(ledger), from, op)
    {
      hide WellFormed, Decoded, BE, L.AdminCall;
      if IsInitializationDisabled() { return L.Failure; }
      var ok := CheckAdminCall(op, from);
      if !ok { return L.Failure; }
      PutInitialization(false);
      Record(op);
      status := L.Success;
    }

    /** The given amount on a copy of the recipient's entry, or on a new reader. */
    method EntryWithBalance(a: Address, am: Amount) returns (entry: array<byte>)
      requires Valid()
      ensures fresh(entry) && WellFormed(entry[..])
      ensures Decoded(entry[..]) == if a in ledger.nodes then ledger.nodes[a].(balance := am) else L.NewReader(am)
    {
      hide Decoded, BE;
      var buf := BigIntTo16ByteBuffer(am);
      SmallMod(am, AMOUNT_LIMIT);
      var amount := Hold(buf);
      var copy := GetEntry(a);
      if copy == null {
        BEZeros([0, 0, 0, 0]);
        BEZeros(ZERO_BALANCE);
        entry := Init(ZERO_WK, 0, buf[..], [0, 0, 0, 0], ZERO_BALANCE);
      } else {
        var updated := amount.value.Update(copy);
        entry := copy;
      }
    }

    method ApplyBalanceInitialization(op: L.Op, from: Key) returns (status: L.Status)
      requires Valid() && op.BalanceInitialization?
      modifies this
      ensures Valid() && L.Outcome(status, ledger) == L.ApplyBalanceInitialization(env, old(ledger), from, op)
    {
      hide WellFormed, Decoded, BE, L.AdminCall;
      var ok := CheckAdminCall(op, from);
      if !ok || !L.AddressValid(env, op.ia) || IsInitializationDisabled() { return L.Failure; }
      var entry := EntryWithBalance(op.ia, op.am);
      Put(op.ia, entry);
      Record(op);
      status := L.Success;
    }

    // ---------- transfer ----------

    /** A copy of the recipient's entry with the amount added, or a new reader; null on overflow. */
    method CreditRecipient(to: Address, amount: Balance) returns (entry: array?<byte>)
      requires Valid() && amount.Valid()
      ensures entry == null <==> to in ledger.nodes && !L.CanCredit(env, ledger, to, amount.Amount())
      ensures entry != null ==>
                && fresh(entry) && entry !in nodes.Values && WellFormed(entry[..])
                && Decoded(entry[..]) == if to in ledger.nodes
                                         then ledger.nodes[to].(balance := ledger.nodes[to].balance + amount.Amount())
                                         else L.NewReader(amount.Amount())
    {
      entry := GetEntry(to);
      if entry == null {
        BEZeros([0, 0, 0, 0]);
        BEZeros(ZERO_BALANCE);
        entry := Init(ZERO_WK, 0, amount.value.Bytes(), [0, 0, 0, 0], ZERO_BALANCE);
      } else {
        entry := Reward(entry, amount);
      }
    }

    /** What the sender pays: the fee alone when it sends to itself; none when the sum overflows. */
    method TotalDeducted(am: Amount, isSelfTransfer: bool) returns (transferAmount: Balance, total: Option<Balance>)
      ensures transferAmount.Valid() && fresh(transferAmount.value.buf) && transferAmount.Amount() == am
      ensures total.None? <==> !isSelfTransfer && am + FEE >= AMOUNT_LIMIT
      ensures total.Some? ==> total.value.Valid() && fresh(total.value.value.buf)
                              && total.value.Amount() == if isSelfTransfer then FEE else am + FEE
    {
      AmountConstants();
      var amBytes := BigIntTo16ByteBuffer(am);
      var held := Hold(amBytes);
      transferAmount := held.value;
      SmallMod(am, AMOUNT_LIMIT);
      var feeAmount := Constant(FEE_BYTES);
      if isSelfTransfer { return transferAmount, Some(feeAmount); }
      total := transferAmount.Add(feeAmount);
    }

    /** The first half of a transfer: the sender pays and a third party receives. */
    method PayRecipient(sender: Address, to: Address, va: Address, am: Amount)
      returns (status: L.Status, senderEntry: array?<byte>, recipientEntry: array?<byte>, transferAmount: Balance)
      requires Valid()
      ensures status == PaymentStatus(env, ledger, sender, to, va, am)
      ensures transferAmount.Valid() && fresh(transferAmount.value.buf) && transferAmount.Amount() == am
      ensures status.Success? ==>
                && senderEntry != null && fresh(senderEntry) && WellFormed(senderEntry[..])
                && PaidBy(ledger, sender, to, am, Decoded(senderEntry[..]))
      ensures status.Success? && to != sender && to != va ==>
                && recipientEntry != null && fresh(recipientEntry) && WellFormed(recipientEntry[..])
                && PaidTo(ledger, to, am, Decoded(recipientEntry[..]))
    {
      hide WellFormed, Decoded, BE, Valid;
      recipientEntry := null;
      var total;
      transferAmount, total := TotalDeducted(am, to == sender);
      if total.None? { return L.Failure, null, null, transferAmount; }
      status, senderEntry := ChargeAccount(sender, total.value);
      if !status.Success? { return; }
      if to != sender && to != va {
        recipientEntry := CreditRecipient(to, transferAmount);
        if recipientEntry == null { status := L.Failure; }
      }
    }

    /** Adds the transfer, when it goes to the validator, and three quarters of the fee. */
    static method AddReward(validatorEntry: array<byte>, transferAmount: Balance, isRecipientValidator: bool) returns (status: L.Status)
      requires WellFormed(validatorEntry[..]) && transferAmount.Valid() && transferAmount.value.buf != validatorEntry
      modifies validatorEntry
      ensures var balance, am := old(Decoded(validatorEntry[..]).balance), old(transferAmount.Amount());
              var more := if isRecipientValidator then am else 0;
              && status == RewardStatus(balance, if isRecipientValidator then Some(am) else None, AMOUNT_LIMIT)
              && (status.Success? ==>
                  WellFormed(validatorEntry[..])
                  && Decoded(validatorEntry[..]) == old(Decoded(validatorEntry[..])).(balance := balance + more + L.PercentOfFee(75)))
    {
      hide Decoded, BE;
      var node := Decode(validatorEntry);
      var balance := ToBalance(node.value.balance);
      var reward := FeePart(75);
      var newBalance;
      if isRecipientValidator {
        var sum := balance.value.Add(transferAmount);
        if sum.None? { return L.Thrown; }
        newBalance := sum.value.Add(reward);
      } else {
        newBalance := balance.value.Add(reward);
      }
      if newBalance.None? { return L.Failure; }
      var updated := newBalance.value.Update(validatorEntry);
      return L.Success;
    }

    method ApplyTransfer(op: L.Op, from: Key) returns (status: L.Status)
      requires Valid() && op.Transfer?
      modifies this
      ensures Valid() && L.Outcome(status, ledger) == L.ApplyTransfer(env, old(ledger), from, op)
    {
      var ok, validatorEntry := CheckValidatorCall(op, from);
      if !ok { return L.Failure; }
      if op.tx in txs { return L.Ignore; }
      if !L.AddressValid(env, op.to) { return L.Failure; }
      status := Transfer(op, validatorEntry);
    }

    method Transfer(op: L.Op, validatorEntry: array<byte>) returns (status: L.Status)
      requires Valid() && op.Transfer? && op.done.Some? && op.address != op.done.value.va
      requires op.done.value.va in ledger.nodes && validatorEntry !in nodes.Values
      requires WellFormed(validatorEntry[..]) && Decoded(validatorEntry[..]) == ledger.nodes[op.done.value.va]
      modifies this, validatorEntry
      ensures Valid()
      ensures L.Outcome(status, ledger)
           == L.Settle(old(ledger), L.TransferFunds(env, old(ledger), op.address, op.to, op.done.value.va, op.am), op)
    {
      hide WellFormed, Decoded, BE, L.TransferFunds;
      TransferStatus(env, ledger, op.address, op.to, op.done.value.va, op.am);
      var senderEntry, recipientEntry, transferAmount;
      status, senderEntry, recipientEntry, transferAmount := PayRecipient(op.address, op.to, op.done.value.va, op.am);
      if !status.Success? { return; }
      status := RewardAndPut(op, senderEntry, recipientEntry, validatorEntry, transferAmount);
    }

    lemma CapIsLimit()
      requires Valid()
      ensures env.cap == AMOUNT_LIMIT
    {
    }

    /** The second half of a transfer: the validator's share, and the writes. */
    method RewardAndPut(op: L.Op, senderEntry: array<byte>, recipientEntry: array?<byte>, validatorEntry: array<byte>,
                        transferAmount: Balance)
      returns (status: L.Status)
      requires Valid() && op.Transfer? && op.done.Some? && op.address != op.done.value.va
      requires op.done.value.va in ledger.nodes && validatorEntry !in nodes.Values
      requires WellFormed(validatorEntry[..]) && Decoded(validatorEntry[..]) == ledger.nodes[op.done.value.va]
      requires transferAmount.Valid() && transferAmount.value.buf != validatorEntry && transferAmount.Amount() == op.am
      requires PaymentStatus(env, ledger, op.address, op.to, op.done.value.va, op.am).Success?
      requires senderEntry != validatorEntry && WellFormed(senderEntry[..])
      requires PaidBy(ledger, op.address, op.to, op.am, Decoded(senderEntry[..]))
      requires op.to != op.address && op.to != op.done.value.va ==>
                 recipientEntry != null && recipientEntry != validatorEntry && WellFormed(recipientEntry[..])
                 && PaidTo(ledger, op.to, op.am, Decoded(recipientEntry[..]))
      modifies this, validatorEntry
      ensures Valid()
      ensures L.Outcome(status, ledger)
           == L.Settle(old(ledger), L.TransferFunds(env, old(ledger), op.address, op.to, op.done.value.va, op.am), op)
    {
      hide WellFormed, Decoded, BE, Valid, L.TransferFunds, L.PercentOfFee, L.Settle, PaymentStatus, RewardStatus, PaidTo, PaidBy;
      CapIsLimit();
      ghost var s := ledger;
      var va := op.done.value.va;
      ghost var e := Decoded(senderEntry[..]);
      ghost var r := if op.to != op.address && op.to != va then Decoded(recipientEntry[..]) else e;
      status := AddReward(validatorEntry, transferAmount, op.to == va);
      TransferSettles(env, s, op, e, r, if status.Success? then Decoded(validatorEntry[..]) else e, status);
      if !status.Success? { return; }
      PutTransfer(op, va, senderEntry, recipientEntry, validatorEntry);
    }

    /** The writes of a transfer, in the order of the source. */
    method PutTransfer(op: L.Op, va: Address, senderEntry: array<byte>, recipientEntry: array?<byte>, validatorEntry: array<byte>)
      requires Valid() && op.Transfer? && op.address != va
      requires WellFormed(senderEntry[..]) && WellFormed(validatorEntry[..])
      requires op.to != op.address && op.to != va ==> recipientEntry != null && WellFormed(recipientEntry[..])
      modifies this
      ensures Valid()
      ensures var n := old(ledger.nodes)[op.address := Decoded(senderEntry[..])][va := Decoded(validatorEntry[..])];
              ledger == old(ledger).(
                nodes := if op.to != op.address && op.to != va then n[op.to := Decoded(recipientEntry[..])] else n,
                txs := old(ledger.txs)[op.tx := op])
    {
      hide WellFormed, Decoded, BE, Valid;
      ghost var m, e, v := ledger.nodes, Decoded(senderEntry[..]), Decoded(validatorEntry[..]);
      if op.to == op.address {
        Put(op.address, senderEntry);
        Put(va, validatorEntry);
      } else {
        ghost var x := if op.to == va then v else Decoded(recipientEntry[..]);
        Put(op.to, if op.to == va then validatorEntry else recipientEntry);
        Put(op.address, senderEntry);
        Put(va, validatorEntry);
        if op.to != va { Put(op.to, recipientEntry); }
        Overwritten(m, op.to, x, op.address, e, va, v);
      }
      Record(op);
    }

    // ---------- the penalty ----------

    /** What is left of the stake goes to the balance and the role to whitelisted, on copies; null
        when the refund overflows. */
    static method Slash(entry: array<byte>, n: nat) returns (r: array?<byte>)
      requires WellFormed(entry[..]) && n <= BATCH_SIZE
      modifies entry
      ensures var e := old(Decoded(entry[..]));
              var left := if FEE * n >= e.stake then 0 else e.stake - FEE * n;
              && (r == null <==> left > 0 && e.balance + left >= AMOUNT_LIMIT)
              && (r != null ==> WellFormed(r[..])
                                && Decoded(r[..]) == e.(role := Whitelisted, balance := e.balance + left, stake := 0))
    {
      hide Decoded, BE;
      var node := Decode(entry);
      var stakedBalance := ToBalance(node.value.stakedBalance);
      var deducted := Deduct(stakedBalance.value, n);
      var zero := Constant(ZERO_BALANCE);
      BEZeros(ZERO_BALANCE);
      var positive := deducted.GreaterThan(zero);
      if positive {
        var rewarded := Reward(entry, deducted);
        if rewarded == null { return null; }
      }
      var unstaked := SetStakedBalance(entry, ZERO_BALANCE);
      r := SetRole(unstaked, 1);
    }

    /** The stake less n fees, but not below zero. */
    static method Deduct(stakedBalance: Balance, n: nat) returns (b: Balance)
      requires stakedBalance.Valid() && n <= BATCH_SIZE
      ensures b.Valid() && fresh(b.value.buf)
      ensures b.Amount() == if FEE * n >= stakedBalance.Amount() then 0 else stakedBalance.Amount() - FEE * n
    {
      hide BE;
      AmountConstants();
      var fee := Constant(FEE_BYTES);
      var term := ToTerm(n);
      SmallMod(n, AMOUNT_LIMIT);
      assert fee.Amount() * BE(term) == FEE * n;
      var penalty := fee.Mul(term);
      var covers := penalty.value.GreaterThanOrEquals(stakedBalance);
      if covers {
        BEZeros(ZERO_BALANCE);
        b := Constant(ZERO_BALANCE);
      } else {
        var rest := stakedBalance.Sub(penalty.value);
        b := rest.value;
      }
    }

    method Penalize(key: Key, n: nat)
      requires Valid() && n <= BATCH_SIZE
      modifies this
      ensures Valid() && ledger == L.Penalize(env, old(ledger), key, n)
    {
      hide WellFormed, Decoded, BE, L.AddressValid;
      if admin.None? || admin.value.wk == key || key !in writerKeys { return; }
      var a := writerKeys[key];
      if !L.AddressValid(env, a) { return; }
      var entry := GetEntry(a);
      if entry == null { return; }
      ghost var s := ledger;
      var slashed := Slash(entry, n);
      Slashed(env, s, key, n);
      hide L.Penalize;
      if slashed == null { return; }
      Evict(key, a, slashed);
    }

    /** The key leaves the writer set and the slashed entry is stored. */
    method Evict(key: Key, a: Address, entry: array<byte>)
      requires Valid() && WellFormed(entry[..])
      modifies this`base, this`nodes, this`ledger
      ensures Valid()
      ensures ledger == old(ledger).(base := old(ledger).base - {key}, nodes := old(ledger).nodes[a := Decoded(entry[..])])
    {
      hide WellFormed, Decoded, BE, Valid;
      RemoveMember(key);
      Put(a, entry);
    }

    // ---------- one call of apply ----------

    method ApplyOperation(op: L.Op, from: Key) returns (status: L.Status)
      requires Valid() && CountersHaveRoom(1)
      modifies this
      ensures Valid() && L.Outcome(status, ledger) == L.ApplyOp(env, old(ledger), from, op)
    {
      hide WellFormed, Decoded, BE, L.ApplyAddAdmin, L.ApplyDisableInitialization, L.ApplyBalanceInitialization, L.ApplyAddWriter,
        L.ApplyRemoveWriter, L.ApplyAdminRecovery, L.ApplyBootstrapDeployment, L.ApplySubnetTx, L.ApplyTransfer;
      match op.Type()
      case ADD_ADMIN => status := ApplyAddAdmin(op, from);
      case DISABLE_INITIALIZATION => status := ApplyDisableInitialization(op, from);
      case BALANCE_INITIALIZATION => status := ApplyBalanceInitialization(op, from);
      case ADD_WRITER => status := ApplyAddWriter(op, from);
      case REMOVE_WRITER => status := ApplyRemoveWriter(op, from);
      case ADMIN_RECOVERY => status := ApplyAdminRecovery(op, from);
      case BOOTSTRAP_DEPLOYMENT => status := ApplyBootstrapDeployment(op, from);
      case TX => status := ApplySubnetTx(op, from);
      case TRANSFER => status := ApplyTransfer(op, from);
      case _ => status := ApplyAdminControl(op, from);
    }

    /** Applies a batch; true when a handler threw and nothing is flushed. */
    method Apply(batch: seq<L.Node>) returns (thrown: bool)
      requires Valid() && batch != [] && CountersHaveRoom(BATCH_SIZE)
      modifies this
      ensures Valid()
      ensures thrown <==> L.ApplyBatch(env, old(ledger), batch).None?
      ensures !thrown ==> ledger == L.ApplyBatch(env, old(ledger), batch).value
    {
      hide WellFormed, Decoded, BE, L.ApplyOp, L.Penalize;
      var batchInvoker := batch[0].from;
      if |batch| > BATCH_SIZE {
        Penalize(batchInvoker, BATCH_SIZE);
        return false;
      }
      var invalidOperations := 0;
      ghost var s := ledger;
      for i := 0 to |batch|
        invariant Valid() && CountersHaveRoom(|batch| - i)
        invariant L.ApplyNodes(env, s, batch[..i]) == L.Progress(ledger, invalidOperations, false)
        invariant invalidOperations <= i
      {
        assert batch[..i + 1][..i] == batch[..i];
        if batch[i].payload.Malformed? {
          invalidOperations := invalidOperations + 1;
          continue;
        }
        CountersStep(env, ledger, batch[i].from, batch[i].payload.op);
        var result := ApplyOperation(batch[i].payload.op, batch[i].from);
        match result {
          case Failure => invalidOperations := invalidOperations + 1;
          case Ignore =>
          case Success =>
          case Thrown =>
            ThrowEndsBatch(env, s, batch, i + 1);
            return true;
        }
      }
      assert batch[..|batch|] == batch;
      if invalidOperations > 0 { Penalize(batchInvoker, invalidOperations); }
      thrown := false;
    }
  }
}
