/** No lock is left behind: whatever is locked, some thread has yet to unlock, and any thread can get rid of all
    it holds on its own. */
module LocksHeld {
  import opened Bytes
  import opened TreeShape
  import opened TreeEffects
  import opened TreeSplits
  import opened LockCoupling
  import opened LockCouplingProof

  /** A locked inner node is write-held by a thread. */
  ghost predicate NodesHeld(s: State) {
    forall n :: n in s.ver && s.ver[n].locked ==> NodeHeld(s, n)
  }

  ghost predicate NodeHeld(s: State, n: nat) { exists u :: u in s.threads && n in WriteHeld(s.threads[u].pc) }

  /** Whoever has a leaf lock knows of it. */
  ghost predicate LeavesHeld(s: State) {
    forall u, p :: HoldsLeaf(s, u, p) ==> u in s.threads && p in LeafLocks(s.threads[u].pc)
  }

  ghost predicate AllHeld(s: State) { NodesHeld(s) && LeavesHeld(s) }

  // ---- inner nodes ---------------------------------------------------------------------------------

  /** What a step may do to the words: nodes that are locked afterwards were locked before, or are now the
      mover's; nodes the mover no longer holds are unlocked. */
  predicate WordsMove(s: State, s': State, u: nat)
    requires u in s.threads && u in s'.threads
  {
    && (forall n :: n in s'.ver && s'.ver[n].locked ==> (n in s.ver && s.ver[n].locked) || n in WriteHeld(s'.threads[u].pc))
    && (forall n :: n in WriteHeld(s.threads[u].pc) && n in s'.ver && s'.ver[n].locked ==> n in WriteHeld(s'.threads[u].pc))
  }

  lemma NodesStayHeld(s: State, s': State, u: nat)
    requires NodesHeld(s) && u in s.threads && OthersStill(s, s', u) && WordsMove(s, s', u)
    ensures NodesHeld(s')
  {
    forall n | n in s'.ver && s'.ver[n].locked ensures NodeHeld(s', n) {
      if n !in WriteHeld(s'.threads[u].pc) {
        assert NodeHeld(s, n);
        var w :| w in s.threads && n in WriteHeld(s.threads[w].pc);
        assert w in s'.threads && n in WriteHeld(s'.threads[w].pc);
      } else {
        assert u in s'.threads;
      }
    }
  }

  // ---- leaves --------------------------------------------------------------------------------------

  ghost predicate LocksMove(s: State, s': State, u: nat)
    requires u in s.threads && u in s'.threads
  {
    && (forall w, p :: w != u && HoldsLeaf(s', w, p) ==> HoldsLeaf(s, w, p))
    && (forall p :: HoldsLeaf(s', u, p) ==> HoldsLeaf(s, u, p) || p in LeafLocks(s'.threads[u].pc))
    && (forall p :: p in LeafLocks(s.threads[u].pc) && HoldsLeaf(s', u, p) ==> p in LeafLocks(s'.threads[u].pc))
  }

  lemma LeavesStayHeld(s: State, s': State, u: nat)
    requires LeavesHeld(s) && u in s.threads && OthersStill(s, s', u) && LocksMove(s, s', u)
    ensures LeavesHeld(s')
  {
    forall w, p | HoldsLeaf(s', w, p) ensures w in s'.threads && p in LeafLocks(s'.threads[w].pc) {
      assert w != u ==> HoldsLeaf(s, w, p);
    }
  }

  // ---- every step ----------------------------------------------------------------------------------

  ghost predicate Moves(s: State, s': State, u: nat) {
    u in s.threads && u in s'.threads && OthersStill(s, s', u) && WordsMove(s, s', u) && LocksMove(s, s', u)
  }

  /** The thread knows what it has write-locked. */
  predicate WritesLocked(s: State, u: nat)
    requires u in s.threads
  {
    forall n :: n in WriteHeld(s.threads[u].pc) ==> n in s.ver && s.ver[n].locked
  }

  lemma DescentMoves(s: State, u: nat, step: Step, s': State)
    requires Next(s, u, step, s') && (step.Begin? || step.TryRead? || step.CheckNode? || step.Descend?)
    ensures Moves(s, s', u)
  {
  }

  lemma ReleaseGone(s: State, s': State, u: nat, ps: set<nat>)
    requires s'.locks == ReleaseAll(s.locks, u, ps)
    ensures forall p :: p in ps ==> !HoldsLeaf(s', u, p)
    ensures forall w, p :: HoldsLeaf(s', w, p) ==> HoldsLeaf(s, w, p)
  {
  }

  lemma ReleaseMoves(s: State, u: nat, step: Step, s': State)
    requires Next(s, u, step, s') && (step.CheckLeaf? || step.GiveUp?)
    ensures Moves(s, s', u)
  {
    if step.GiveUp? {
      ReleaseGone(s, s', u, LeafLocks(s.threads[u].pc));
    } else if !ParentUnchanged(s, LeafRef(s.threads[u].pc.p), s.threads[u].pc.via) {
      ReleaseGone(s, s', u, {s.threads[u].pc.p});
    }
  }

  lemma LeafMoves(s: State, u: nat, step: Step, s': State)
    requires Next(s, u, step, s') && (step.LockLeaf? || step.UpgradeLeaf?)
    ensures Moves(s, s', u)
  {
  }

  /** A compare-and-swap that locks one more node. */
  lemma OneLockMoves(s: State, u: nat, n: nat, v: Word, pc: Pc, s': State)
    requires DoLock(s, u, n, v, pc, s') && LeafLocks(pc) == LeafLocks(s.threads[u].pc) && WriteHeld(pc) == WriteHeld(s.threads[u].pc) + {n}
    ensures Moves(s, s', u)
  {
  }

  lemma LockMoves(s: State, u: nat, step: Step, s': State)
    requires Next(s, u, step, s') && (step.UpgradeParent? || step.LockCur? || step.LockCurParent? || step.LockRoot?)
    ensures Moves(s, s', u)
  {
    var pc := s.threads[u].pc;
    match step
    case UpgradeParent => OneLockMoves(s, u, pc.via.n, pc.via.v, ParentHeld(pc.p, pc.via.n), s');
    case LockCur => OneLockMoves(s, u, pc.c, pc.vc, CurHeld(pc.c, pc.via.n, pc.via.v), s');
    case LockCurParent => OneLockMoves(s, u, pc.n, pc.v, BothHeld(pc.c, pc.n), s');
    case LockRoot => OneLockMoves(s, u, pc.c, pc.vc, RootHeld(pc.c), s');
  }

  lemma UnlockMoves(s: State, u: nat, s': State)
    requires DoUnlock(s, u, s') && WritesLocked(s, u) && ThreadOk(s, u)
    ensures Moves(s, s', u)
  {
  }

  /** New nodes come unlocked or as the mover's, and new leaves as the mover's. */
  lemma GrownMoves(s: State, s': State, u: nat, pc: Pc, free: set<nat>, mine: set<nat>, q: Option<nat>)
    requires u in s.threads && s'.threads == s.threads[u := s.threads[u].(pc := pc)]
    requires forall n :: n in s'.ver ==> (n in s.ver && s'.ver[n] == s.ver[n]) || (n in free && s'.ver[n] == FRESH) || n in mine
    requires WriteHeld(pc) == WriteHeld(s.threads[u].pc) + mine
    requires s'.locks == if q.Some? then s.locks[q.value := Excl(u)] else s.locks
    requires LeafLocks(pc) == LeafLocks(s.threads[u].pc) + if q.Some? then {q.value} else {}
    ensures Moves(s, s', u)
  {
  }

  lemma LeafChangeMoves(s: State, u: nat, step: Step, s': State)
    requires Next(s, u, step, s') && (step.CutLeaf? || step.CutRootLeaf?)
    ensures Moves(s, s', u)
  {
    var pc := s.threads[u].pc;
    if step.CutLeaf? {
      GrownMoves(s, s', u, ParentDone(pc.p, step.q, pc.n), {}, {}, Some(step.q));
    } else {
      GrownMoves(s, s', u, LeafDone({pc.p, step.q}), {step.m}, {}, Some(step.q));
    }
  }

  lemma InnerCutMoves(s: State, u: nat, d: nat, s': State)
    requires DoSplitInner(s, u, d, s')
    ensures Moves(s, s', u)
  {
    GrownMoves(s, s', u, BothDone(s.threads[u].pc.c, s.threads[u].pc.n), {d}, {}, None);
  }

  lemma RootCutMoves(s: State, u: nat, d: nat, m: nat, s': State)
    requires DoSplitRootInner(s, u, d, m, s')
    ensures Moves(s, s', u)
  {
    GrownMoves(s, s', u, RootDone(s.threads[u].pc.c, m), {d}, {m}, None);
  }

  lemma ChangeMoves(s: State, u: nat, step: Step, s': State)
    requires Next(s, u, step, s') && (step.Write? || step.CutLeaf? || step.CutRootLeaf? || step.CutInner? || step.CutRootInner?)
    ensures Moves(s, s', u)
  {
    if step.CutLeaf? || step.CutRootLeaf? {
      LeafChangeMoves(s, u, step, s');
    } else if step.CutInner? {
      InnerCutMoves(s, u, step.d, s');
    } else if step.CutRootInner? {
      RootCutMoves(s, u, step.d, step.m, s');
    }
  }

  lemma StepMoves(s: State, u: nat, step: Step, s': State)
    requires Next(s, u, step, s') && Coupled(s)
    ensures Moves(s, s', u)
  {
    if step.Begin? || step.TryRead? || step.CheckNode? || step.Descend? {
      DescentMoves(s, u, step, s');
    } else if step.CheckLeaf? || step.GiveUp? {
      ReleaseMoves(s, u, step, s');
    } else if step.LockLeaf? || step.UpgradeLeaf? {
      LeafMoves(s, u, step, s');
    } else if step.Unlock? {
      assert ThreadOk(s, u);
      UnlockMoves(s, u, s');
    } else if step.UpgradeParent? || step.LockCur? || step.LockCurParent? || step.LockRoot? {
      LockMoves(s, u, step, s');
    } else {
      ChangeMoves(s, u, step, s');
    }
  }

  // ---- whole runs ----------------------------------------------------------------------------------

  lemma StepKeepsHeld(s: State, u: nat, step: Step, s': State)
    requires Next(s, u, step, s') && Coupled(s) && AllHeld(s)
    ensures AllHeld(s')
  {
    StepMoves(s, u, step, s');
    NodesStayHeld(s, s', u);
    LeavesStayHeld(s, s', u);
  }

  /** In every reachable state what is locked is held: a locked inner node is in the hands of a thread that has
      yet to unlock it, and a leaf lock is one its owner knows of. */
  lemma {:induction false} LocksAreHeld(run: seq<State>, who: seq<nat>, steps: seq<Step>, i: nat)
    requires Run(run, who, steps) && i < |run|
    ensures AllHeld(run[i])
    decreases i
  {
    if i > 0 {
      LocksAreHeld(run, who, steps, i - 1);
      RunKeepsInv(run, who, steps, i - 1);
      assert StepAt(run, who, steps, i - 1);
      StepKeepsHeld(run[i - 1], who[i - 1], steps[i - 1], run[i]);
    }
  }

  lemma WriterOf(s: State, n: nat) returns (u: nat)
    requires NodesHeld(s) && n in s.ver && s.ver[n].locked
    ensures u in s.threads && n in WriteHeld(s.threads[u].pc)
  {
    assert NodeHeld(s, n);
    u :| u in s.threads && n in WriteHeld(s.threads[u].pc);
  }

  lemma HolderOf(s: State, p: nat) returns (u: nat)
    requires LeavesHeld(s) && p in s.locks && s.locks[p] != Shared({})
    ensures u in s.threads && p in LeafLocks(s.threads[u].pc)
  {
    if s.locks[p].Excl? { u := s.locks[p].writer; } else { u :| u in s.locks[p].readers; }
    assert HoldsLeaf(s, u, p);
  }

  /** When every thread is idle nothing is locked. */
  lemma IdleMeansUnlocked(run: seq<State>, who: seq<nat>, steps: seq<Step>, i: nat)
    requires Run(run, who, steps) && i < |run| && forall u :: u in run[i].threads ==> run[i].threads[u].pc.Idle?
    ensures forall n :: n in run[i].ver ==> !run[i].ver[n].locked
    ensures forall p :: p in run[i].locks ==> run[i].locks[p] == Shared({})
  {
    LocksAreHeld(run, who, steps, i);
    var s := run[i];
    forall n | n in s.ver ensures !s.ver[n].locked {
      if s.ver[n].locked { var u := WriterOf(s, n); }
    }
    forall p | p in s.locks ensures s.locks[p] == Shared({}) {
      if s.locks[p] != Shared({}) { var u := HolderOf(s, p); }
    }
  }

  /** A leaf can be locked for reading unless someone writes there, however many read; and for writing if and only
      if no one is there at all. */
  lemma LeafLockExactly(s: State, u: nat, p: nat, via: Via, excl: bool)
    requires u in s.threads && s.threads[u].pc == Arrived(LeafRef(p), via) && p in s.locks
    ensures (exists s' :: Next(s, u, LockLeaf(excl), s')) <==> if excl then s.locks[p] == Shared({}) else s.locks[p].Shared?
  {
    if s.locks[p].Shared? && (excl ==> s.locks[p].readers == {}) {
      var s' := Goto(s.(locks := s.locks[p := Acquire(s.locks[p], u, excl)]), u, LeafLocked(p, excl, via));
      assert Next(s, u, LockLeaf(excl), s');
    }
  }

  // ---- getting out ---------------------------------------------------------------------------------

  /** How many steps a thread needs to let go of everything. */
  function StepsOut(pc: Pc): nat {
    match pc
    case Idle => 0
    case ParentHeld(p, n) => 2
    case ParentDone(p, q, n) => 2
    case BothHeld(c, n) => 2
    case BothDone(c, n) => 2
    case RootDone(c, m) => 2
    case _ => 1
  }

  function WayOut(pc: Pc): Step { if Unlocks(pc).Some? then Unlock else GiveUp }

  /** Any thread can go back to idle on its own, in at most two steps, whatever the others hold. */
  lemma CanLeave(run: seq<State>, who: seq<nat>, steps: seq<Step>, i: nat, u: nat) returns (s': State)
    requires Run(run, who, steps) && i < |run| && u in run[i].threads && !run[i].threads[u].pc.Idle?
    ensures Next(run[i], u, WayOut(run[i].threads[u].pc), s')
    ensures u in s'.threads && StepsOut(s'.threads[u].pc) == StepsOut(run[i].threads[u].pc) - 1
    ensures s'.threads[u].pc.Idle? <==> StepsOut(s'.threads[u].pc) == 0
  {
    RunKeepsInv(run, who, steps, i);
    assert ThreadOk(run[i], u);
    s' := Leave(run[i], u);
  }

  lemma Leave(s: State, u: nat) returns (s': State)
    requires u in s.threads && !s.threads[u].pc.Idle? && WritesLocked(s, u)
    ensures Next(s, u, WayOut(s.threads[u].pc), s')
    ensures u in s'.threads && StepsOut(s'.threads[u].pc) == StepsOut(s.threads[u].pc) - 1
  {
    var pc := s.threads[u].pc;
    if Unlocks(pc).Some? {
      assert Unlocks(pc).value.0 in WriteHeld(pc);
      s' := Goto(Bump(s, Unlocks(pc).value.0), u, Unlocks(pc).value.1);
    } else {
      s' := Goto(s.(locks := ReleaseAll(s.locks, u, LeafLocks(pc))), u, Idle);
    }
  }
}
