/**
 The end of initialization: the operation that ends it takes effect, nothing undoes it, and from then on no
 balance is set by the admin.
 */
module Initialization {
  import opened Bytes
  import opened Records
  import opened Ledger
  import opened Dispatch
  import opened Runs
  import opened History
  import opened Effects

  // ---------- the flag ----------

  lemma ControlKeepsFlag(env: Env, s: Ledger, op: Op)
    requires op.AdminControl?
    ensures ControlEffect(env, s, op).ledger.initialization == s.initialization
  {
    if op.control.Whitelisting? && AppendWhitelist(s, op).status.Success? {
      WhitelistAlone(PayForWhitelist(s, op.address), op.ia, ReadEntry(s, op.ia));
    }
    hide Whitelist, ReadEntry, Indexers;
  }

  lemma ValidatorKeepsFlag(env: Env, s: Ledger, op: Op)
    requires op.ByValidator() && op.done.Some? && (op.SubnetTx? ==> op.bs in s.deployments)
    ensures ValidatorEffect(env, s, op).ledger.initialization == s.initialization
  {
    hide Credit, Debit, Indexers, TransferFee, TransferFunds;
  }

  lemma CoreSetsFlag(env: Env, s: Ledger, from: Key, op: Op)
    requires op.CoreAdmin? || op.BalanceInitialization?
    ensures var o := ApplyOp(env, s, from, op);
            o.ledger.initialization == if o.status.Success? then FlagAfter(s, op) else s.initialization
  {
    hide AdminCall, Authentic, UpToDate, AddressValid;
    if op.BalanceInitialization? {
      assert ApplyOp(env, s, from, op) == ApplyBalanceInitialization(env, s, from, op);
    } else if op.core.AdminAddition? {
      assert ApplyOp(env, s, from, op) == ApplyAddAdmin(env, s, from, op);
    } else {
      assert ApplyOp(env, s, from, op) == ApplyDisableInitialization(env, s, from, op);
    }
  }

  /** On any ledger, adding the admin opens initialization, DISABLE_INITIALIZATION ends it, and nothing else
      touches the flag. */
  lemma FlagExactly(env: Env, s: Ledger, from: Key, op: Op)
    ensures var o := ApplyOp(env, s, from, op);
            o.ledger.initialization == if !o.status.Success? then s.initialization
                                       else if op.Type().ADD_ADMIN? then Some(true)
                                       else if op.Type().DISABLE_INITIALIZATION? then Some(false)
                                       else s.initialization
  {
    EffectIsAtomic(env, s, from, op);
    if op.AdminControl? {
      ControlDispatch(env, s, from, op);
      ControlKeepsFlag(env, s, op);
    } else if op.ByValidator() {
      ValidatorDispatch(env, s, from, op);
      if ValidatorGuards(env, s, from, op) { ValidatorKeepsFlag(env, s, op); }
    } else {
      CoreSetsFlag(env, s, from, op);
    }
    hide ApplyOp, ControlEffect, ValidatorEffect;
  }

  // ---------- balances set by the admin ----------

  predicate SetsBalance(env: Env, s: Ledger, node: Node) {
    node.payload.Operation? && node.payload.op.BalanceInitialization? && ApplyNode(env, s, node).status.Success?
  }

  /** How many operations of a list set a balance. */
  function Settings(env: Env, s: Ledger, nodes: seq<Node>): nat {
    if nodes == [] then 0
    else
      var before, last := nodes[..|nodes| - 1], nodes[|nodes| - 1];
      var p := ApplyNodes(env, s, before);
      Settings(env, s, before) + if !p.thrown && SetsBalance(env, p.ledger, last) then 1 else 0
  }

  /** The same over a run. */
  function RunSettings(env: Env, s: Ledger, batches: seq<seq<Node>>): nat
    requires NonEmpty(batches)
  {
    if batches == [] then 0
    else
      var before, last := batches[..|batches| - 1], batches[|batches| - 1];
      var r := Run(env, s, before);
      RunSettings(env, s, before) + if r.None? || |last| > BATCH_SIZE then 0 else Settings(env, r.value, last)
  }

  lemma DisabledSetsNothing(env: Env, s: Ledger, node: Node)
    requires InitializationDisabled(s)
    ensures !SetsBalance(env, s, node)
  {
    if node.payload.Operation? && node.payload.op.BalanceInitialization? {
      CoreDispatch(env, s, node.from, node.payload.op);
    }
  }

  lemma {:induction false} NoSettingsIn(env: Env, s: Ledger, nodes: seq<Node>)
    requires Rooted(s) && InitializationDisabled(s)
    ensures Settings(env, s, nodes) == 0
  {
    hide Rooted, SetsBalance, ApplyOp;
    if nodes != [] {
      var before := nodes[..|nodes| - 1];
      NoSettingsIn(env, s, before);
      NodesExtend(env, s, before);
      DisabledSetsNothing(env, ApplyNodes(env, s, before).ledger, nodes[|nodes| - 1]);
    }
  }

  lemma {:induction false} NoSettingsOver(env: Env, s: Ledger, batches: seq<seq<Node>>)
    requires Rooted(s) && InitializationDisabled(s) && NonEmpty(batches)
    ensures RunSettings(env, s, batches) == 0
  {
    hide Rooted, ApplyBatch, Settings;
    if batches != [] {
      var before := batches[..|batches| - 1];
      NoSettingsOver(env, s, before);
      RunExtends(env, s, before);
      if Run(env, s, before).Some? { NoSettingsIn(env, Run(env, s, before).value, batches[|batches| - 1]); }
    }
  }

  lemma {:induction false} SettingsSplit(env: Env, s: Ledger, a: seq<Node>, b: seq<Node>)
    requires !ApplyNodes(env, s, a).thrown
    ensures Settings(env, s, a + b) == Settings(env, s, a) + Settings(env, ApplyNodes(env, s, a).ledger, b)
  {
    hide SetsBalance, ApplyOp;
    if b == [] {
      assert a + b == a;
    } else {
      var c := b[..|b| - 1];
      SettingsSplit(env, s, a, c);
      ApplyNodesSplits(env, s, a, c);
      assert (a + b)[..|a + b| - 1] == a + c;
      hide ApplyNodes;
    }
  }

  /** The ledger after the operation that ended initialization. */
  lemma EndedAfter(env: Env, s: Ledger, a: seq<Node>, from: Key, op: Op)
    requires Rooted(s) && op.Type().DISABLE_INITIALIZATION? && !ApplyNodes(env, s, a).thrown
    requires ApplyOp(env, ApplyNodes(env, s, a).ledger, from, op).status.Success?
    ensures var p := ApplyNodes(env, s, a + [Node(from, Operation(op))]);
            !p.thrown && Rooted(p.ledger) && InitializationDisabled(p.ledger)
    ensures Settings(env, s, a + [Node(from, Operation(op))]) == Settings(env, s, a)
  {
    var nodes := a + [Node(from, Operation(op))];
    assert nodes[..|nodes| - 1] == a;
    FlagExactly(env, ApplyNodes(env, s, a).ledger, from, op);
    NodesExtend(env, s, nodes);
    hide ApplyOp, Rooted, Extends;
  }

  /** Once DISABLE_INITIALIZATION has succeeded, whoever signs and whatever is signed afterwards, no balance
      is set any more: not in the rest of its batch, and not in any batch of any run that follows. */
  lemma EndIsForGood(env: Env, s: Ledger, a: seq<Node>, from: Key, op: Op, b: seq<Node>, batches: seq<seq<Node>>)
    requires Rooted(s) && op.Type().DISABLE_INITIALIZATION? && !ApplyNodes(env, s, a).thrown && NonEmpty(batches)
    requires ApplyOp(env, ApplyNodes(env, s, a).ledger, from, op).status.Success?
    ensures var nodes := a + [Node(from, Operation(op))] + b;
            && Settings(env, s, nodes) == Settings(env, s, a)
            && (|nodes| <= BATCH_SIZE && ApplyBatch(env, s, nodes).Some? ==>
                  var t := ApplyBatch(env, s, nodes).value;
                  InitializationDisabled(t) && RunSettings(env, t, batches) == 0)
  {
    hide ApplyOp, Rooted, Settings, RunSettings;
    var start := a + [Node(from, Operation(op))];
    var nodes := start + b;
    EndedAfter(env, s, a, from, op);
    var t := ApplyNodes(env, s, start).ledger;
    SettingsSplit(env, s, start, b);
    NoSettingsIn(env, t, b);
    if |nodes| <= BATCH_SIZE && ApplyBatch(env, s, nodes).Some? {
      ApplyNodesSplits(env, s, start, b);
      NodesExtend(env, t, b);
      var p := ApplyNodes(env, s, nodes);
      hide ApplyNodes;
      PenaltyExtends(env, p.ledger, nodes[0].from, p.invalid);
      hide Penalize;
      NoSettingsOver(env, ApplyBatch(env, s, nodes).value, batches);
    }
  }
}
