/**
 Runs of the state machine: batches signed by current consensus writers, applied one
 after the other.
 */
module Runs {
  import opened Bytes
  import opened Records
  import opened Ledger
  import opened Invariant

  /** A batch comes from one key, a member of the writer set; the operations of one that is not
      oversized keep the premise as they are met. */
  ghost predicate LegalBatch(env: Env, s: Ledger, nodes: seq<Node>) {
    nodes != [] && nodes[0].from in s.base && (|nodes| <= BATCH_SIZE ==> LegalNodes(env, s, nodes, nodes[0].from))
  }

  /** All from one key, and none is the admin's removal of itself in the state it meets. */
  ghost predicate LegalNodes(env: Env, s: Ledger, nodes: seq<Node>, from: Key) {
    nodes != [] ==>
      var before, last := nodes[..|nodes| - 1], nodes[|nodes| - 1];
      var p := ApplyNodes(env, s, before);
      && LegalNodes(env, s, before, from) && last.from == from
      && (!p.thrown && last.payload.Operation? ==> !SelfDemotes(env, p.ledger, from, last.payload.op))
  }

  /** No batch is empty: apply reads its first node. */
  predicate NonEmpty(batches: seq<seq<Node>>) {
    forall i {:trigger batches[i]} :: 0 <= i < |batches| ==> batches[i] != []
  }

  /** Applying batches in order; None once a handler has thrown. */
  function Run(env: Env, s: Ledger, batches: seq<seq<Node>>): Option<Ledger>
    requires NonEmpty(batches)
  {
    if batches == [] then Some(s)
    else
      var r := Run(env, s, batches[..|batches| - 1]);
      if r.None? then None else ApplyBatch(env, r.value, batches[|batches| - 1])
  }

  ghost predicate LegalRun(env: Env, s: Ledger, batches: seq<seq<Node>>) {
    && NonEmpty(batches)
    && (batches != [] ==>
          var before := batches[..|batches| - 1];
          && LegalRun(env, s, before)
          && (Run(env, s, before).Some? ==> LegalBatch(env, Run(env, s, before).value, batches[|batches| - 1])))
  }

  lemma {:induction false} NodesKeepInv(env: Env, s: Ledger, nodes: seq<Node>, from: Key)
    requires EnvOk(env) && Inv(env, s) && from in s.base && LegalNodes(env, s, nodes, from)
    ensures var s' := ApplyNodes(env, s, nodes).ledger; Inv(env, s') && from in s'.base
  {
    hide Inv, ApplyOp, SelfDemotes;
    if nodes != [] {
      var before, last := nodes[..|nodes| - 1], nodes[|nodes| - 1];
      NodesKeepInv(env, s, before, from);
      var p := ApplyNodes(env, s, before);
      if last.payload.Operation? && !p.thrown {
        OperationKeepsInv(env, p.ledger, from, last.payload.op);
      }
    }
  }

  lemma BatchKeepsInv(env: Env, s: Ledger, nodes: seq<Node>)
    requires EnvOk(env) && Inv(env, s) && LegalBatch(env, s, nodes)
    ensures ApplyBatch(env, s, nodes).Some? ==> Inv(env, ApplyBatch(env, s, nodes).value)
  {
    var from := nodes[0].from;
    if |nodes| > BATCH_SIZE {
      PenalizeKeepsInv(env, s, from, BATCH_SIZE);
    } else {
      NodesKeepInv(env, s, nodes, from);
      var p := ApplyNodes(env, s, nodes);
      PenalizeKeepsInv(env, p.ledger, from, p.invalid);
    }
  }

  /** Every ledger that a legal run reaches satisfies the invariant. */
  lemma {:induction false} RunKeepsInv(env: Env, s: Ledger, batches: seq<seq<Node>>)
    requires EnvOk(env) && Inv(env, s) && LegalRun(env, s, batches)
    ensures Run(env, s, batches).Some? ==> Inv(env, Run(env, s, batches).value)
  {
    if batches != [] {
      var before := batches[..|batches| - 1];
      RunKeepsInv(env, s, before);
      if Run(env, s, before).Some? {
        BatchKeepsInv(env, Run(env, s, before).value, batches[|batches| - 1]);
      }
    }
  }

  lemma ReachableSatisfiesInv(env: Env, batches: seq<seq<Node>>)
    requires EnvOk(env) && LegalRun(env, Genesis(env), batches)
    ensures Run(env, Genesis(env), batches).Some? ==> Inv(env, Run(env, Genesis(env), batches).value)
  {
    RunKeepsInv(env, Genesis(env), batches);
  }

  // ---------- cutting a list of operations into batches ----------

  function Flatten(batches: seq<seq<Node>>): seq<Node> {
    if batches == [] then [] else Flatten(batches[..|batches| - 1]) + batches[|batches| - 1]
  }

  /** The loop over two lists in turn is the loop over their concatenation. */
  lemma {:induction false} ApplyNodesSplits(env: Env, s: Ledger, a: seq<Node>, b: seq<Node>)
    ensures var p, q := ApplyNodes(env, s, a), ApplyNodes(env, s, a + b);
            if p.thrown then q == p
            else var r := ApplyNodes(env, p.ledger, b);
                 q == Progress(r.ledger, p.invalid + r.invalid, r.thrown)
  {
    if b == [] {
      assert a + b == a;
    } else {
      var c, x := b[..|b| - 1], b[|b| - 1];
      assert (a + b)[..|a + b| - 1] == a + c;
      ApplyNodesSplits(env, s, a, c);
    }
  }

  predicate SmallBatches(batches: seq<seq<Node>>) {
    forall i {:trigger batches[i]} :: 0 <= i < |batches| ==> 1 <= |batches[i]| <= BATCH_SIZE
  }

  /** Every operation of a list succeeds or is ignored. */
  predicate NoneFails(env: Env, s: Ledger, nodes: seq<Node>) {
    ApplyNodes(env, s, nodes).invalid == 0 && !ApplyNodes(env, s, nodes).thrown
  }

  lemma {:induction false} CutRun(env: Env, s: Ledger, batches: seq<seq<Node>>)
    requires SmallBatches(batches)
    requires NoneFails(env, s, Flatten(batches))
    ensures Run(env, s, batches) == Some(ApplyNodes(env, s, Flatten(batches)).ledger)
  {
    if batches != [] {
      var before, last := batches[..|batches| - 1], batches[|batches| - 1];
      ApplyNodesSplits(env, s, Flatten(before), last);
      CutRun(env, s, before);
    }
  }

  /** Where a list of operations is cut does not matter, as long as none of them fails. */
  lemma CutsAgree(env: Env, s: Ledger, cut1: seq<seq<Node>>, cut2: seq<seq<Node>>)
    requires SmallBatches(cut1) && SmallBatches(cut2)
    requires Flatten(cut1) == Flatten(cut2)
    requires NoneFails(env, s, Flatten(cut1))
    ensures Run(env, s, cut1) == Run(env, s, cut2)
  {
    CutRun(env, s, cut1);
    CutRun(env, s, cut2);
  }
}
