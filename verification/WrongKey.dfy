/**
 A REMOVE_WRITER that a validator accepts and the handler refuses, since it names a key that is not
 the writer's: the checks of the validator do not look at the key. The network is that of SelfRemoval.
 */
module WrongKey {
  import opened Bytes
  import opened Records
  import opened Ledger
  import opened Invariant
  import opened Conservation
  import opened PreCheck
  import opened AcceptedBatches
  import opened SelfRemoval

  /** The writer asks to leave under a key that nobody holds. */
  const LEAVE: Op :=
    RoleAccess(WriterRemoval, "b", HashOf(REMOVE_WRITER), Filled(4), Filled(5), Signed(1), Filled(9), None)
  const SEAL: Completion := Completion("a", Filled(6), Signed(2))

  lemma StakedFitsSupply()
    ensures SameState(SmallNetwork(), Staked()) && Filled(1) in Staked().base
  {
    hide ApplyOp, Inv, Total, ReadyToPromote;
    StakedSatisfiesInv();
    GenesisIsFine();
    StepBound(Genesis(SmallNetwork()), FOUNDING);
    StepBound(Founded(), WELCOME);
    StepBound(Welcomed(), FUNDING);
    StepBound(Funded(), STAKING);
    EmptyTotal();
    StakedRuns();
  }

  lemma EmptyTotal()
    ensures Total(Genesis(SmallNetwork()).nodes) == 0
  {
  }

  lemma StakedRuns()
    requires Inv(SmallNetwork(), Staked())
    ensures Running(SmallNetwork(), Staked())
  {
    StakingSucceeds();
    hide Running, Staked;
  }

  lemma StepBound(s: Ledger, op: Op)
    requires Inv(SmallNetwork(), s)
    ensures Total(SelfRemoval.After(s, op).nodes) <= Total(s.nodes) + Issue(op)
  {
    OperationConserves(SmallNetwork(), s, Filled(1), op);
    hide ApplyOp, Inv, Total, Burned, Issue;
  }

  lemma LeaveIsAccepted(s: Ledger)
    requires ReadyToPromote(s)
    ensures AcceptedOn(SmallNetwork(), s, Filled(1), LEAVE, SEAL) && !KeyAccepted(s, LEAVE)
  {
    LeaveIsComplete(s);
    LeavePassesCommonChecks(s);
    FilledIsInjective(2, 9);
    hide CanComplete, CommonChecks, Filled, Signed, HashOf, SmallNetwork, ZERO_WK;
  }

  lemma LeaveIsComplete(s: Ledger)
    requires ReadyToPromote(s)
    ensures CanComplete(SmallNetwork(), s, Filled(1), LEAVE, SEAL)
  {
    SealDiffers();
    hide Filled, Signed, ZERO_WK, ZERO_SIGNATURE, HashOf, ValidatorMessage, IsBlank;
  }

  lemma SealDiffers()
    ensures Filled(6) != ZERO_WK && Filled(6) != Filled(5) && Signed(2) != ZERO_SIGNATURE && Signed(2) != Signed(1)
    ensures !IsBlank("a") && "b" != "a"
  {
    FilledIsInjective(6, 5);
    FilledIsInjective(1, 2);
    FilledIsInjective(2, 6);
    hide Filled, Signed, ZERO_WK, ZERO_SIGNATURE;
    assert !IsBlank("a") by { assert "a"[0] != '\0'; }
    assert "b" != "a" by { assert "b"[0] != "a"[0]; }
  }

  /** The guards of the handler, as the checks have them. */
  lemma ChecksPass(env: Env, s: Ledger, self: Address, op: Op)
    requires op.RoleAccess? && op.done.None? && op.SchemaOk() && op.address != self && Authentic(env, op)
    requires op.tx !in s.txs && UpToDate(env, s, op)
    ensures CommonChecks(env, s, self, op).Accepted?
  {
    hide RequesterMessage, Indexers;
  }

  lemma LeaveSchema()
    ensures LEAVE.SchemaOk() && Authentic(SmallNetwork(), LEAVE)
  {
    WellSigned(LEAVE);
    FilledIsInjective(9, 5);
    hide Filled, Signed, ZERO_WK, ZERO_SIGNATURE, HashOf, Authentic, SmallNetwork, IsBlank;
  }

  lemma LeaveIsNew()
    ensures LEAVE.tx !in {HashOf(ADD_ADMIN), HashOf(APPEND_WHITELIST), HashOf(BALANCE_INITIALIZATION), HashOf(ADD_WRITER)}
  {
    FilledIsInjective(17, 11);
    FilledIsInjective(17, 12);
    FilledIsInjective(17, 13);
    FilledIsInjective(17, 14);
    hide Filled;
  }

  lemma LeavePassesCommonChecks(s: Ledger)
    requires ReadyToPromote(s)
    ensures CommonChecks(SmallNetwork(), s, "a", LEAVE).Accepted?
  {
    LeaveSchema();
    LeaveIsNew();
    SealDiffers();
    assert UpToDate(SmallNetwork(), s, LEAVE);
    hide Filled, Signed, ZERO_WK, ZERO_SIGNATURE, HashOf, Authentic, SmallNetwork, UpToDate, CommonChecks;
    assert LEAVE.tx !in s.txs by { assert LEAVE.tx !in s.txs.Keys; }
    ChecksPass(SmallNetwork(), s, "a", LEAVE);
  }

  /** It is accepted on a ledger that a run reaches, and fails on that very ledger. */
  lemma WrongKeyIsAcceptedAndFails()
    ensures SameState(SmallNetwork(), Staked()) && AcceptedOn(SmallNetwork(), Staked(), Filled(1), LEAVE, SEAL)
    ensures !KeyAccepted(Staked(), LEAVE)
    ensures ApplyOp(SmallNetwork(), Staked(), Filled(1), Completed(LEAVE, SEAL)) == Fail(Staked())
  {
    hide SameState, ApplyOp, Staked, AcceptedOn, KeyAccepted, ReadyToPromote;
    StakedFitsSupply();
    StakingSucceeds();
    LeaveIsAccepted(Staked());
    WrongKeyFails(SmallNetwork(), Staked(), Filled(1), LEAVE, SEAL);
  }
}
