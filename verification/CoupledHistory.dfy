/** Lock coupling and the snapshot meet in the history of the tree.  The snapshot machine takes whole
    transactions that are in place; here every run of the lock-coupling machine, whose steps check no such
    thing, is shown to be a sequence of exactly those. */
module CoupledHistory {
  import opened TreeShape
  import opened LockCouplingProof
  import L = LockCoupling
  import S = Snapshot

  /** The changes of the first `i` steps, each stamped with the version of its thread's guard. */
  function Changes(run: seq<L.State>, who: seq<nat>, steps: seq<L.Step>, vers: seq<nat>, i: nat): seq<S.Txn>
    requires |run| == |steps| + 1 == |who| + 1 && |vers| == |steps| && i <= |steps|
    requires forall j :: 0 <= j < |steps| ==> who[j] in run[j].threads
  {
    if i == 0 then []
    else
      var e := StepEffect(run[i - 1], who[i - 1], steps[i - 1]);
      Changes(run, who, steps, vers, i - 1) + if e.Some? then [S.Txn(vers[i - 1], e.value)] else []
  }

  lemma NextHasThread(s: L.State, u: nat, step: L.Step, s': L.State)
    requires L.Next(s, u, step, s')
    ensures u in s.threads && (StepEffect(s, u, step).None? ==> s'.tree == s.tree)
  {
  }

  lemma RunHasThreads(run: seq<L.State>, who: seq<nat>, steps: seq<L.Step>)
    requires Run(run, who, steps)
    ensures forall j :: 0 <= j < |steps| ==> who[j] in run[j].threads
  {
    forall j | 0 <= j < |steps| ensures who[j] in run[j].threads {
      assert StepAt(run, who, steps, j);
      NextHasThread(run[j], who[j], steps[j], run[j + 1]);
    }
  }

  lemma StepReplays(s: L.State, u: nat, step: L.Step, s': L.State, origin: Tree, h: seq<S.Txn>, v: nat)
    requires L.Inv(s) && L.Next(s, u, step, s') && u in s.threads && S.Replay(origin, h) == Some(s.tree)
    ensures var e := StepEffect(s, u, step);
      S.Replay(origin, h + if e.Some? then [S.Txn(v, e.value)] else []) == Some(s'.tree)
  {
    NextHasThread(s, u, step, s');
    var e := StepEffect(s, u, step);
    if e.Some? {
      StepInPlace(s, u, step, s');
      assert (h + [S.Txn(v, e.value)])[..|h|] == h;
    } else {
      assert h + [] == h;
    }
  }

  lemma HistoryGrows(run: seq<L.State>, who: seq<nat>, steps: seq<L.Step>, vers: seq<nat>, i: nat)
    requires Run(run, who, steps) && |vers| == |steps| && i < |steps|
    requires forall j :: 0 <= j < |steps| ==> who[j] in run[j].threads
    requires S.Replay(run[0].tree, Changes(run, who, steps, vers, i)) == Some(run[i].tree)
    ensures S.Replay(run[0].tree, Changes(run, who, steps, vers, i + 1)) == Some(run[i + 1].tree)
  {
    RunKeepsInv(run, who, steps, i);
    assert StepAt(run, who, steps, i);
    StepReplays(run[i], who[i], steps[i], run[i + 1], run[0].tree, Changes(run, who, steps, vers, i), vers[i]);
  }

  /** However the threads interleave, the tree is at every moment what the changes made so far give when they
      are applied one after the other to the tree at the start; each is in place when its turn comes. */
  lemma {:induction false} RunIsHistory(run: seq<L.State>, who: seq<nat>, steps: seq<L.Step>, vers: seq<nat>, i: nat)
    requires Run(run, who, steps) && |vers| == |steps| && i < |run|
    ensures forall j :: 0 <= j < |steps| ==> who[j] in run[j].threads
    ensures S.Replay(run[0].tree, Changes(run, who, steps, vers, i)) == Some(run[i].tree)
    decreases i
  {
    RunHasThreads(run, who, steps);
    if i > 0 {
      RunIsHistory(run, who, steps, vers, i - 1);
      HistoryGrows(run, who, steps, vers, i - 1);
    }
  }
}
