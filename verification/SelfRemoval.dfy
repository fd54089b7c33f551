/**
 A run that breaks the invariant: a network with two indexers, whose admin removes itself from
 them while the other one stays.
 */
module SelfRemoval {
  import opened Bytes
  import opened Records
  import opened Ledger
  import opened Invariant

  function Filled(b: byte): Key { seq(32, _ => b) }

  function Signed(b: byte): Signature { seq(64, _ => b) }

  function TypeByte(t: OperationType): byte {
    match t
    case ADD_ADMIN => 11
    case APPEND_WHITELIST => 12
    case BALANCE_INITIALIZATION => 13
    case ADD_WRITER => 14
    case ADD_INDEXER => 15
    case REMOVE_INDEXER => 16
    case _ => 17
  }

  /** Every address and signature is good, and a hash tells the type of an operation. */
  function SmallNetwork(): Env {
    Env(1, Filled(1), a => true, a => true,
        (m: Message) => if m != [] && m[|m| - 1].Kind? then Filled(TypeByte(m[|m| - 1].kind)) else Filled(18),
        (sig, h, a) => true, members => Filled(4), AMOUNT_LIMIT)
  }

  function HashOf(t: OperationType): Key { Filled(TypeByte(t)) }

  const FOUNDING: Op := CoreAdmin(AdminAddition, "a", HashOf(ADD_ADMIN), Filled(4), Filled(5), Signed(1), Filled(1))
  const WELCOME: Op := AdminControl(Whitelisting, "a", HashOf(APPEND_WHITELIST), Filled(4), Filled(5), Signed(1), "b")
  const FUNDING: Op :=
    BalanceInitialization("a", HashOf(BALANCE_INITIALIZATION), Filled(4), Filled(5), Signed(1), "b", 12 * FEE)
  const STAKING: Op :=
    RoleAccess(WriterAddition, "b", HashOf(ADD_WRITER), Filled(4), Filled(5), Signed(1), Filled(2),
               Some(Completion("a", Filled(6), Signed(2))))
  const PROMOTION: Op := AdminControl(IndexerAddition, "a", HashOf(ADD_INDEXER), Filled(4), Filled(5), Signed(1), "b")
  const RESIGNATION: Op := AdminControl(IndexerRemoval, "a", HashOf(REMOVE_INDEXER), Filled(4), Filled(5), Signed(1), "a")

  /** The ledger after an operation signed by the admin's key. */
  function After(s: Ledger, op: Op): Ledger {
    ApplyOp(SmallNetwork(), s, Filled(1), op).ledger
  }

  function Founded(): Ledger { After(Genesis(SmallNetwork()), FOUNDING) }
  function Welcomed(): Ledger { After(Founded(), WELCOME) }
  function Funded(): Ledger { After(Welcomed(), FUNDING) }
  function Staked(): Ledger { After(Funded(), STAKING) }
  function Promoted(): Ledger { After(Staked(), PROMOTION) }

  lemma FilledIsInjective(b: byte, c: byte)
    ensures Filled(b) == Filled(c) <==> b == c
    ensures b != 0 ==> Filled(b) != ZERO_WK && Signed(b) != ZERO_SIGNATURE
    ensures Signed(b) == Signed(c) <==> b == c
  {
    assert Filled(b)[0] == b && Filled(c)[0] == c && Signed(b)[0] == b && Signed(c)[0] == c;
    assert ZERO_WK[0] == 0 && ZERO_SIGNATURE[0] == 0;
  }

  /** What an operation of this run needs to pass the schema and the signature checks. */
  lemma WellSigned(op: Op)
    requires op.tx == HashOf(op.Type()) && op.txv == Filled(4) && op.nonce == Filled(5) && op.sig == Signed(1) && op.address != ""
    requires op.address[0] != '\0'
    ensures op.tx != ZERO_WK && op.txv != ZERO_WK && op.nonce != ZERO_WK && op.sig != ZERO_SIGNATURE && !IsBlank(op.address)
    ensures Authentic(SmallNetwork(), op)
  {
    hide Filled, Signed, ZERO_WK, ZERO_SIGNATURE, RequesterMessage, SmallNetwork, Authentic;
    FilledIsInjective(TypeByte(op.Type()), 4);
    FilledIsInjective(4, 5);
    FilledIsInjective(5, 1);
    FilledIsInjective(1, 2);
    IsAuthentic(op);
  }

  lemma EndsWithType(env: Env, op: Op)
    ensures var m := RequesterMessage(env, op); m != [] && m[|m| - 1] == Kind(op.Type())
  {
  }

  lemma IsAuthentic(op: Op)
    requires op.tx == HashOf(op.Type())
    ensures Authentic(SmallNetwork(), op)
  {
    EndsWithType(SmallNetwork(), op);
    hide RequesterMessage, TypeByte, Filled;
  }

  lemma FoundingSucceeds()
    ensures ApplyOp(SmallNetwork(), Genesis(SmallNetwork()), Filled(1), FOUNDING).status.Success?
    ensures Founded() == Genesis(SmallNetwork()).(
              licenseCount := 1, licenseIndex := map[1 := "a"],
              nodes := map["a" := Entry(Indexer, Filled(1), ADMIN_INITIAL_BALANCE, 1, STAKE)],
              writerKeys := map[Filled(1) := "a"], writersIndex := map[0 := "a"], writersLength := 1,
              admin := Some(AdminEntry("a", Filled(1))), initialization := Some(true),
              txs := map[HashOf(ADD_ADMIN) := FOUNDING])
  {
    hide ZERO_WK, ZERO_SIGNATURE, Filled, Signed;
    var s := Genesis(SmallNetwork());
    WellSigned(FOUNDING);
    FilledIsInjective(1, 2);
    assert FOUNDING.SchemaOk();
    assert ApplyOp(SmallNetwork(), s, Filled(1), FOUNDING) == ApplyAddAdmin(SmallNetwork(), s, Filled(1), FOUNDING);
  }

  /** The admin's operations of this run pass the guards while their hashes are new. */
  lemma AdminMay(s: Ledger, op: Op)
    requires s.admin == Some(AdminEntry("a", Filled(1))) && op.address == "a" && op.tx !in s.txs
    requires op.AdminControl? || op.BalanceInitialization?
    requires op.ia == "a" || op.ia == "b"
    requires op.BalanceInitialization? ==> op.am != 0
    requires op.tx == HashOf(op.Type()) && op.txv == Filled(4) && op.nonce == Filled(5) && op.sig == Signed(1)
    ensures AdminCall(SmallNetwork(), s, Filled(1), op) && AddressValid(SmallNetwork(), op.ia)
  {
    hide ZERO_WK, ZERO_SIGNATURE, Filled, Signed;
    WellSigned(op);
    assert !IsBlank(op.ia) by { assert op.ia[0] != '\0'; }
    assert UpToDate(SmallNetwork(), s, op);
  }

  lemma HashesDiffer()
    ensures HashOf(APPEND_WHITELIST) != HashOf(ADD_ADMIN)
    ensures HashOf(BALANCE_INITIALIZATION) !in {HashOf(ADD_ADMIN), HashOf(APPEND_WHITELIST)}
    ensures HashOf(ADD_WRITER) !in {HashOf(ADD_ADMIN), HashOf(APPEND_WHITELIST), HashOf(BALANCE_INITIALIZATION)}
    ensures HashOf(ADD_INDEXER) !in {HashOf(ADD_ADMIN), HashOf(APPEND_WHITELIST), HashOf(BALANCE_INITIALIZATION), HashOf(ADD_WRITER)}
    ensures HashOf(REMOVE_INDEXER) !in
              {HashOf(ADD_ADMIN), HashOf(APPEND_WHITELIST), HashOf(BALANCE_INITIALIZATION), HashOf(ADD_WRITER), HashOf(ADD_INDEXER)}
  {
    forall b: byte, c: byte ensures Filled(b) == Filled(c) <==> b == c { FilledIsInjective(b, c); }
  }

  lemma WelcomeSucceeds()
    ensures Welcomed() == Founded().(
              licenseCount := 2, licenseIndex := Founded().licenseIndex[2 := "b"],
              nodes := Founded().nodes["b" := Entry(Whitelisted, ZERO_WK, 0, 2, 0)],
              txs := Founded().txs[HashOf(APPEND_WHITELIST) := WELCOME])
  {
    hide ZERO_WK, ZERO_SIGNATURE, Filled, Signed, Founded, HashOf, AdminCall, ApplyAddAdmin, AddressValid;
    FoundingSucceeds();
    HashesDiffer();
    AdminMay(Founded(), WELCOME);
    assert ApplyOp(SmallNetwork(), Founded(), Filled(1), WELCOME) == AppendWhitelist(Founded(), WELCOME);
  }

  lemma FundingSucceeds()
    ensures Funded() == Welcomed().(
              nodes := Welcomed().nodes["b" := Entry(Whitelisted, ZERO_WK, 12 * FEE, 2, 0)],
              txs := Welcomed().txs[HashOf(BALANCE_INITIALIZATION) := FUNDING])
  {
    hide ZERO_WK, ZERO_SIGNATURE, Filled, Signed, Founded, Welcomed, HashOf, ApplyAddAdmin, ApplyAppendWhitelist, AddressValid, Authentic;
    FoundingSucceeds();
    WelcomeSucceeds();
    HashesDiffer();
    AdminMay(Welcomed(), FUNDING);
    assert ApplyOp(SmallNetwork(), Welcomed(), Filled(1), FUNDING)
        == ApplyBalanceInitialization(SmallNetwork(), Welcomed(), Filled(1), FUNDING);
  }

  lemma StakingIsCountersigned(s: Ledger)
    requires "a" in s.nodes && s.nodes["a"].role.Indexer? && s.nodes["a"].wk == Filled(1)
    ensures ValidatorCall(SmallNetwork(), s, Filled(1), STAKING)
  {
    hide ZERO_WK, ZERO_SIGNATURE, Filled, Signed;
    WellSigned(STAKING);
    FilledIsInjective(1, 2);
    FilledIsInjective(2, 6);
    FilledIsInjective(6, 5);
    assert !IsBlank("a") by { assert "a"[0] != '\0'; }
    assert STAKING.SchemaOk();
    assert "b" != "a" by { assert "b"[0] != "a"[0]; }
    assert Countersigned(SmallNetwork(), STAKING);
    assert UpToDate(SmallNetwork(), s, STAKING);
  }

  /** What the ledger holds before the other node stakes. */
  ghost predicate ReadyToStake(s: Ledger) {
    && s.admin == Some(AdminEntry("a", Filled(1))) && s.base == map[Filled(1) := true]
    && s.writerKeys.Keys == {Filled(1)}
    && s.nodes.Keys == {"a", "b"} && s.nodes["b"] == Entry(Whitelisted, ZERO_WK, 12 * FEE, 2, 0)
    && s.nodes["a"] == Entry(Indexer, Filled(1), ADMIN_INITIAL_BALANCE, 1, STAKE)
    && s.txs.Keys == {HashOf(ADD_ADMIN), HashOf(APPEND_WHITELIST), HashOf(BALANCE_INITIALIZATION)}
  }

  lemma FundedIsReady()
    ensures ReadyToStake(Funded()) && "a" != "b"
  {
    hide ZERO_WK, Filled, Signed, ApplyOp;
    assert "b"[0] != "a"[0];
    FoundingSucceeds();
    WelcomeSucceeds();
    FundingSucceeds();
    HashesDiffer();
  }

  /** What it holds before the other node is promoted. */
  ghost predicate ReadyToPromote(s: Ledger) {
    && s.admin == Some(AdminEntry("a", Filled(1))) && s.base == map[Filled(1) := true, Filled(2) := false]
    && s.nodes.Keys == {"a", "b"} && s.nodes["b"].role.Writer? && s.nodes["b"].wk == Filled(2)
    && s.nodes["b"].balance == FEE && s.nodes["a"].role.Indexer?
    && s.nodes["a"].balance >= ADMIN_INITIAL_BALANCE && s.nodes["a"].wk == Filled(1)
    && s.txs.Keys == {HashOf(ADD_ADMIN), HashOf(APPEND_WHITELIST), HashOf(BALANCE_INITIALIZATION), HashOf(ADD_WRITER)}
  }

  lemma StakingReadies(s: Ledger)
    requires ReadyToStake(s) && "a" != "b"
    ensures AddWriter(SmallNetwork(), s, STAKING).status.Success? && ReadyToPromote(AddWriter(SmallNetwork(), s, STAKING).ledger)
  {
    FilledIsInjective(1, 2);
    hide ZERO_WK, Filled, Signed;
  }

  lemma StakingSucceeds()
    ensures ReadyToPromote(Staked()) && "a" != "b"
  {
    FundedIsReady();
    HashesDiffer();
    hide ZERO_WK, ZERO_SIGNATURE, Filled, Signed, Funded, HashOf, AddWriter, ValidatorCall;
    var s := Funded();
    StakingIsCountersigned(s);
    assert STAKING.tx !in s.txs by { assert STAKING.tx !in s.txs.Keys; }
    assert ApplyOp(SmallNetwork(), s, Filled(1), STAKING) == ApplyAddWriter(SmallNetwork(), s, Filled(1), STAKING);
    assert ApplyOp(SmallNetwork(), s, Filled(1), STAKING) == AddWriter(SmallNetwork(), s, STAKING);
    StakingReadies(s);
  }

  lemma PromotionReadies(s: Ledger)
    requires ReadyToPromote(s) && "a" != "b"
    ensures var t := AddIndexer(s, PROMOTION).ledger;
            && t.admin == Some(AdminEntry("a", Filled(1))) && Indexers(t.base) == {Filled(1), Filled(2)}
            && "a" in t.nodes && t.nodes["a"].balance >= FEE && t.txs == s.txs[PROMOTION.tx := PROMOTION]
  {
    FilledIsInjective(1, 2);
    hide ZERO_WK, Filled, Signed, HashOf;
  }

  lemma PromotionSucceeds()
    ensures var s := Promoted();
            && s.admin == Some(AdminEntry("a", Filled(1))) && RESIGNATION.tx !in s.txs
            && Indexers(s.base) == {Filled(1), Filled(2)}
            && "a" in s.nodes && s.nodes["a"].balance >= FEE
  {
    StakingSucceeds();
    HashesDiffer();
    hide ZERO_WK, ZERO_SIGNATURE, Filled, Signed, Staked, HashOf, AddIndexer, AdminCall, AddressValid, Indexers;
    var s := Staked();
    assert PROMOTION.tx !in s.txs by { assert PROMOTION.tx !in s.txs.Keys; }
    assert RESIGNATION.tx !in s.txs by { assert RESIGNATION.tx !in s.txs.Keys; }
    AdminMay(s, PROMOTION);
    PromotionReadies(s);
    assert ApplyOp(SmallNetwork(), s, Filled(1), PROMOTION) == AddIndexer(s, PROMOTION);
  }

  lemma StakedSatisfiesInv()
    ensures EnvOk(SmallNetwork()) && Inv(SmallNetwork(), Founded()) && Inv(SmallNetwork(), Welcomed()) && Inv(SmallNetwork(), Funded())
    ensures Inv(SmallNetwork(), Staked()) && Filled(1) in Staked().base
  {
    hide ApplyOp, Inv;
    GenesisIsFine();
    OperationKeepsInv(SmallNetwork(), Genesis(SmallNetwork()), Filled(1), FOUNDING);
    OperationKeepsInv(SmallNetwork(), Founded(), Filled(1), WELCOME);
    OperationKeepsInv(SmallNetwork(), Welcomed(), Filled(1), FUNDING);
    OperationKeepsInv(SmallNetwork(), Funded(), Filled(1), STAKING);
  }

  lemma PromotedSatisfiesInv()
    ensures EnvOk(SmallNetwork()) && Inv(SmallNetwork(), Promoted()) && Filled(1) in Promoted().base
  {
    hide ApplyOp, Inv;
    StakedSatisfiesInv();
    OperationKeepsInv(SmallNetwork(), Staked(), Filled(1), PROMOTION);
  }

  lemma GenesisIsFine()
    ensures Inv(SmallNetwork(), Genesis(SmallNetwork())) && Filled(1) in Genesis(SmallNetwork()).base
  {
  }

  /** After five operations there are two indexers; the admin removes itself, the operation succeeds and the
      other indexer stays, and the ledger it leaves is not one that the invariant allows. */
  lemma SelfRemovalBreaksInvariant()
    ensures var env, s := SmallNetwork(), Promoted();
            && EnvOk(env) && Inv(env, s) && Filled(1) in s.base && Indexers(s.base) == {Filled(1), Filled(2)}
            && ApplyOp(env, s, Filled(1), RESIGNATION).status.Success?
            && Indexers(ApplyOp(env, s, Filled(1), RESIGNATION).ledger.base) == {Filled(2)}
            && !Inv(env, ApplyOp(env, s, Filled(1), RESIGNATION).ledger)
  {
    hide ZERO_WK, ZERO_SIGNATURE, Filled, Signed;
    var env, s := SmallNetwork(), Promoted();
    PromotedSatisfiesInv();
    PromotionSucceeds();
    FilledIsInjective(1, 2);
    AdminMay(s, RESIGNATION);
    PremiseIsExact(env, s, Filled(1), RESIGNATION);
    RemovalSucceeds(env, s);
  }

  lemma RemovalSucceeds(env: Env, s: Ledger)
    requires Running(env, s) && SelfDemotes(env, s, Filled(1), RESIGNATION)
    requires AddressValid(env, "a") && Indexers(s.base) == {Filled(1), Filled(2)} && Filled(1) != Filled(2)
    ensures ApplyOp(env, s, Filled(1), RESIGNATION).status.Success?
    ensures Indexers(ApplyOp(env, s, Filled(1), RESIGNATION).ledger.base) == {Filled(2)}
  {
    hide ZERO_WK, ZERO_SIGNATURE, Filled, Signed;
    assert s.admin == Some(AdminEntry("a", Filled(1))) && s.nodes["a"].wk == Filled(1);
    assert EntryOk(env, s, "a");
    assert ApplyOp(env, s, Filled(1), RESIGNATION) == RemoveIndexer(s, RESIGNATION);
    assert Filled(1) in Indexers(s.base);
    var base := RemoveIndexer(s, RESIGNATION).ledger.base;
    assert base == (s.base - {Filled(1)})[Filled(1) := false];
    forall k ensures k in Indexers(base) <==> k == Filled(2) {
      assert k in Indexers(s.base) <==> k == Filled(1) || k == Filled(2);
    }
  }
}
