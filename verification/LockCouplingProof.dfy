/** Safety of lock coupling: every step keeps `Inv`, and `Inv` puts each operation in the right leaf. */
module LockCouplingProof {
  import opened Bytes
  import opened TreeShape
  import opened TreeEffects
  import opened TreeSplits
  import opened LockCoupling

  lemma InitOk(s: State)
    requires WF(s.tree) && Init(s)
    ensures Inv(s)
  {
  }

  // ---- threads that do not move --------------------------------------------------------------------

  predicate OthersStill(s: State, s': State, u: nat) {
    s'.threads.Keys == s.threads.Keys && forall w :: w in s.threads && w != u ==> s'.threads[w] == s.threads[w]
  }

  /** What a step of another thread leaves to thread `u`. */
  ghost predicate Leaves(s: State, s': State, u: nat) {
    && u in s.threads && u in s'.threads && s'.threads[u] == s.threads[u]
    && (forall n :: n in s.ver ==> n in s'.ver && s.ver[n].NoLaterThan(s'.ver[n]))
    && (forall n :: n in s.tree.inners ==> n in s'.tree.inners)
    && (forall p :: p in s.tree.leaves ==> p in s'.tree.leaves)
    // a node that is not locked, or that u itself has locked, keeps its contents
    && (forall n :: n in s.ver && n in s.tree.inners && (!s.ver[n].locked || n in WriteHeld(s.threads[u].pc)) ==>
          s'.tree.inners[n] == s.tree.inners[n])
    && (forall n :: n in s.ver && n in WriteHeld(s.threads[u].pc) ==> s'.ver[n] == s.ver[n])
    // so does a leaf u has locked
    && (forall p :: HoldsLeaf(s, u, p) ==> HoldsLeaf(s', u, p))
    && (forall p :: HoldsExcl(s, u, p) ==> HoldsExcl(s', u, p))
    && (forall p :: p in s.tree.leaves && HoldsLeaf(s, u, p) ==> s'.tree.leaves[p] == s.tree.leaves[p])
    // the root moves away only from a locked node
    && (s'.tree.root == s.tree.root
        || match s.tree.root
           case LeafRef(p) => !HoldsLeaf(s, u, p)
           case InnerRef(c) => c in s.ver && s.ver[c].locked && c !in WriteHeld(s.threads[u].pc))
  }

  lemma ViaStays(s: State, s': State, u: nat, key: Key, cur: Ref, via: Via)
    requires Leaves(s, s', u) && ViaOk(s, key, cur, via)
    ensures ViaOk(s', key, cur, via)
  {
  }

  lemma ThreadStays(s: State, s': State, u: nat)
    requires Leaves(s, s', u) && ThreadOk(s, u) && s.ver.Keys == s.tree.inners.Keys
    ensures ThreadOk(s', u)
  {
    var key, pc := s.threads[u].key, s.threads[u].pc;
    match pc
    case Arrived(cur, via) => ViaStays(s, s', u, key, cur, via);
    case Seen(c, vc, via) => ViaStays(s, s', u, key, InnerRef(c), via);
    case Standing(c, vc, via) => ViaStays(s, s', u, key, InnerRef(c), via);
    case LeafLocked(p, excl, via) => ViaStays(s, s', u, key, LeafRef(p), via);
    case InLeaf(p, excl, via) => ViaStays(s, s', u, key, LeafRef(p), via);
    case CurHeld(c, n, v) => ViaStays(s, s', u, key, InnerRef(c), Through(n, v));
    case _ =>
  }

  /** The mover write-locks only nodes that were new or unlocked. */
  predicate WriteHeldGrows(s: State, s': State, u: nat)
    requires u in s.threads && u in s'.threads
  {
    forall n :: n in WriteHeld(s'.threads[u].pc) ==>
      n in WriteHeld(s.threads[u].pc) || n !in s.ver || !s.ver[n].locked
  }

  /** Putting a step together: the mover is fine, the others are left alone. */
  lemma Assemble(s: State, s': State, u: nat)
    requires Coupled(s) && u in s.threads && s'.threads.Keys == s.threads.Keys
    requires s'.ver.Keys == s'.tree.inners.Keys && s'.locks.Keys == s'.tree.leaves.Keys
    requires ThreadOk(s', u) && forall w :: w in s.threads && w != u ==> Leaves(s, s', w)
    requires WriteHeldGrows(s, s', u)
    ensures Coupled(s')
  {
    forall w | w in s'.threads ensures ThreadOk(s', w) {
      if w != u { ThreadStays(s, s', w); }
    }
    forall a, b | a in s'.threads && b in s'.threads && a != b
      ensures WriteHeld(s'.threads[a].pc) !! WriteHeld(s'.threads[b].pc)
    {
      assert a != u ==> ThreadOk(s, a);
      assert b != u ==> ThreadOk(s, b);
    }
  }

  // ---- steps that only move the thread -------------------------------------------------------------

  /** The root spans every key. */
  lemma RootSpans(t: Tree, key: Key)
    requires WF(t)
    ensures Exists(t, t.root) && Within(key, RefLo(t, t.root), RefHi(t, t.root))
  {
    EmptyIsLeast(key);
  }

  /** A node that routes `key` to `cur` hands `cur` a range that holds `key`. */
  lemma LeadsWithin(t: Tree, key: Key, n: nat, cur: Ref)
    requires WF(t) && Leads(t, key, n, cur)
    ensures Exists(t, cur) && Within(key, RefLo(t, cur), RefHi(t, cur))
  {
    assert KidOk(t, t.inners[n], Slot(t.inners[n].seps, key));
  }

  lemma Validated(s: State, key: Key, cur: Ref, via: Via)
    requires WF(s.tree) && ViaOk(s, key, cur, via) && ParentUnchanged(s, cur, via)
    ensures Within(key, RefLo(s.tree, cur), RefHi(s.tree, cur))
  {
    if via.Top? { RootSpans(s.tree, key); } else { LeadsWithin(s.tree, key, via.n, cur); }
  }

  lemma MovedOnly(s: State, s': State, u: nat)
    requires Coupled(s) && u in s.threads && OthersStill(s, s', u)
    requires ThreadOk(s', u) && WriteHeld(s'.threads[u].pc) <= WriteHeld(s.threads[u].pc)
    requires s'.tree == s.tree && s'.ver == s.ver && s'.locks == s.locks
    ensures Coupled(s')
  {
    forall w | w in s.threads && w != u ensures Leaves(s, s', w) { }
    Assemble(s, s', u);
  }

  lemma BeginOk(s: State, u: nat, k: Key, s': State)
    requires Coupled(s) && DoBegin(s, u, k, s') && Exists(s.tree, s.tree.root)
    ensures Coupled(s')
  {
    MovedOnly(s, s', u);
  }

  lemma TryReadOk(s: State, u: nat, s': State)
    requires Coupled(s) && DoTryRead(s, u, s')
    ensures Coupled(s')
  {
    assert ThreadOk(s, u);
    MovedOnly(s, s', u);
  }

  lemma CheckNodeOk(s: State, u: nat, s': State)
    requires Coupled(s) && DoCheckNode(s, u, s')
    requires var pc := s.threads[u].pc;
      ParentUnchanged(s, InnerRef(pc.c), pc.via) ==>
        pc.c in s.tree.inners && Within(s.threads[u].key, s.tree.inners[pc.c].lo, s.tree.inners[pc.c].hi)
    ensures Coupled(s')
  {
    assert ThreadOk(s, u);
    MovedOnly(s, s', u);
  }

  lemma DescendOk(s: State, u: nat, kid: Ref, s': State)
    requires Coupled(s) && DoDescend(s, u, kid, s')
    ensures Coupled(s')
  {
    assert ThreadOk(s, u);
    MovedOnly(s, s', u);
  }

  // ---- leaf locks ----------------------------------------------------------------------------------

  /** Only leaf locks changed, and none that another thread holds was taken away or shared. */
  lemma LockedOnly(s: State, s': State, u: nat)
    requires Coupled(s) && u in s.threads && OthersStill(s, s', u)
    requires ThreadOk(s', u) && WriteHeld(s'.threads[u].pc) <= WriteHeld(s.threads[u].pc)
    requires s'.tree == s.tree && s'.ver == s.ver && s'.locks.Keys == s.locks.Keys
    requires forall w, p :: w != u && HoldsLeaf(s, w, p) ==> HoldsLeaf(s', w, p)
    requires forall w, p :: w != u && HoldsExcl(s, w, p) ==> HoldsExcl(s', w, p)
    ensures Coupled(s')
  {
    forall w | w in s.threads && w != u ensures Leaves(s, s', w) { }
    Assemble(s, s', u);
  }

  lemma LockLeafOk(s: State, u: nat, excl: bool, s': State)
    requires Coupled(s) && DoLockLeaf(s, u, excl, s')
    ensures Coupled(s')
  {
    assert ThreadOk(s, u);
    LockedOnly(s, s', u);
  }

  lemma UpgradeLeafOk(s: State, u: nat, s': State)
    requires Coupled(s) && DoUpgradeLeaf(s, u, s')
    ensures Coupled(s')
  {
    assert ThreadOk(s, u);
    LockedOnly(s, s', u);
  }

  lemma CheckLeafMover(s: State, u: nat, s': State)
    requires u in s.threads && ThreadOk(s, u) && DoCheckLeaf(s, u, s')
    requires var pc := s.threads[u].pc;
      ParentUnchanged(s, LeafRef(pc.p), pc.via) ==>
        pc.p in s.tree.leaves && Within(s.threads[u].key, s.tree.leaves[pc.p].lo, s.tree.leaves[pc.p].hi)
    ensures ThreadOk(s', u)
  {
    assert s.threads[u].pc.p in LeafLocks(s.threads[u].pc);
  }

  lemma CheckLeafOk(s: State, u: nat, s': State)
    requires Coupled(s) && DoCheckLeaf(s, u, s')
    requires var pc := s.threads[u].pc;
      ParentUnchanged(s, LeafRef(pc.p), pc.via) ==>
        pc.p in s.tree.leaves && Within(s.threads[u].key, s.tree.leaves[pc.p].lo, s.tree.leaves[pc.p].hi)
    ensures Coupled(s')
  {
    CheckLeafMover(s, u, s');
    LockedOnly(s, s', u);
  }

  lemma GiveUpOk(s: State, u: nat, s': State)
    requires Coupled(s) && DoGiveUp(s, u, s')
    ensures Coupled(s')
  {
    LockedOnly(s, s', u);
  }

  // ---- version locks -------------------------------------------------------------------------------

  lemma BumpLeaves(s: State, s': State, w: nat, n: nat)
    requires w in s.threads && w in s'.threads && s'.threads[w] == s.threads[w] && n in s.ver
    requires n !in WriteHeld(s.threads[w].pc)
    requires s'.tree == s.tree && s'.ver == s.ver[n := s.ver[n].Bumped()] && s'.locks == s.locks
    ensures Leaves(s, s', w)
  {
  }

  lemma NotHeldByOthers(s: State, u: nat, w: nat, n: nat)
    requires Coupled(s) && u in s.threads && w in s.threads && u != w && n in s.ver
    requires n in WriteHeld(s.threads[u].pc) || !s.ver[n].locked
    ensures n !in WriteHeld(s.threads[w].pc)
  {
    assert ThreadOk(s, w);
  }

  /** Only the version of `n` moved, and `n` was unlocked or the mover's. */
  lemma BumpedOnly(s: State, s': State, u: nat, n: nat)
    requires Coupled(s) && u in s.threads && OthersStill(s, s', u) && ThreadOk(s', u) && n in s.ver
    requires WriteHeld(s'.threads[u].pc) <= WriteHeld(s.threads[u].pc) + {n}
    requires n in WriteHeld(s.threads[u].pc) || !s.ver[n].locked
    requires s'.tree == s.tree && s'.ver == s.ver[n := s.ver[n].Bumped()] && s'.locks == s.locks
    ensures Coupled(s')
  {
    forall w | w in s.threads && w != u ensures Leaves(s, s', w) {
      NotHeldByOthers(s, u, w, n);
      BumpLeaves(s, s', w, n);
    }
    Assemble(s, s', u);
  }

  lemma UpgradeParentOk(s: State, u: nat, s': State)
    requires Coupled(s) && DoUpgradeParent(s, u, s')
    ensures Coupled(s')
  {
    assert ThreadOk(s, u);
    BumpedOnly(s, s', u, s.threads[u].pc.via.n);
  }

  lemma LockCurOk(s: State, u: nat, s': State)
    requires Coupled(s) && DoLockCur(s, u, s')
    ensures Coupled(s')
  {
    assert ThreadOk(s, u);
    BumpedOnly(s, s', u, s.threads[u].pc.c);
  }

  lemma LockCurParentOk(s: State, u: nat, s': State)
    requires Coupled(s) && DoLockCurParent(s, u, s')
    ensures Coupled(s')
  {
    assert ThreadOk(s, u);
    BumpedOnly(s, s', u, s.threads[u].pc.n);
  }

  lemma LockRootOk(s: State, u: nat, s': State)
    requires Coupled(s) && DoLockRoot(s, u, s')
    ensures Coupled(s')
  {
    assert ThreadOk(s, u);
    BumpedOnly(s, s', u, s.threads[u].pc.c);
  }

  lemma UnlockMover(s: State, u: nat, s': State)
    requires u in s.threads && ThreadOk(s, u) && DoUnlock(s, u, s')
    ensures ThreadOk(s', u) && Unlocks(s.threads[u].pc).value.0 in WriteHeld(s.threads[u].pc)
    ensures WriteHeld(s'.threads[u].pc) <= WriteHeld(s.threads[u].pc)
  {
    assert LeafLocks(s'.threads[u].pc) <= LeafLocks(s.threads[u].pc);
    forall p | p in LeafLocks(s'.threads[u].pc) ensures HoldsLeaf(s', u, p) { assert HoldsLeaf(s, u, p); }
  }

  lemma UnlockOk(s: State, u: nat, s': State)
    requires Coupled(s) && DoUnlock(s, u, s')
    ensures Coupled(s')
  {
    UnlockMover(s, u, s');
    BumpedOnly(s, s', u, Unlocks(s.threads[u].pc).value.0);
  }

  // ---- splits --------------------------------------------------------------------------------------

  lemma SplitLeafLeaves(s: State, u: nat, key': Key, q: nat, s': State, w: nat)
    requires u in s.threads && ThreadOk(s, u) && s.ver.Keys == s.tree.inners.Keys && s.locks.Keys == s.tree.leaves.Keys
    requires DoSplitLeaf(s, u, key', q, s') && w in s.threads && w != u && s.threads[u].pc.n !in WriteHeld(s.threads[w].pc)
    ensures Leaves(s, s', w)
  {
  }

  lemma SplitLeafMover(s: State, u: nat, key': Key, q: nat, s': State)
    requires u in s.threads && ThreadOk(s, u) && DoSplitLeaf(s, u, key', q, s')
    requires s.ver.Keys == s.tree.inners.Keys && s.locks.Keys == s.tree.leaves.Keys
    requires Enabled(s.tree, SplitLeaf(s.threads[u].pc.n, s.threads[u].pc.p, q, key'))
    ensures ThreadOk(s', u) && WriteHeldGrows(s, s', u)
    ensures s'.ver.Keys == s'.tree.inners.Keys && s'.locks.Keys == s'.tree.leaves.Keys
  {
  }

  lemma SplitLeafOk(s: State, u: nat, key': Key, q: nat, s': State)
    requires Coupled(s) && DoSplitLeaf(s, u, key', q, s')
    requires Enabled(s.tree, SplitLeaf(s.threads[u].pc.n, s.threads[u].pc.p, q, key'))
    ensures Coupled(s')
  {
    SplitLeafMover(s, u, key', q, s');
    forall w | w in s.threads && w != u ensures Leaves(s, s', w) {
      NotHeldByOthers(s, u, w, s.threads[u].pc.n);
      SplitLeafLeaves(s, u, key', q, s', w);
    }
    Assemble(s, s', u);
  }

  lemma SplitRootLeafLeaves(s: State, u: nat, key': Key, q: nat, m: nat, s': State, w: nat)
    requires u in s.threads && ThreadOk(s, u) && s.ver.Keys == s.tree.inners.Keys && s.locks.Keys == s.tree.leaves.Keys
    requires DoSplitRootLeaf(s, u, key', q, m, s') && w in s.threads && w != u
    ensures Leaves(s, s', w)
  {
  }

  lemma SplitRootLeafMover(s: State, u: nat, key': Key, q: nat, m: nat, s': State)
    requires u in s.threads && ThreadOk(s, u) && DoSplitRootLeaf(s, u, key', q, m, s')
    requires s.ver.Keys == s.tree.inners.Keys && s.locks.Keys == s.tree.leaves.Keys
    requires Enabled(s.tree, SplitRootLeaf(s.threads[u].pc.p, q, m, key'))
    ensures ThreadOk(s', u) && WriteHeldGrows(s, s', u)
    ensures s'.ver.Keys == s'.tree.inners.Keys && s'.locks.Keys == s'.tree.leaves.Keys
  {
  }

  lemma SplitRootLeafOk(s: State, u: nat, key': Key, q: nat, m: nat, s': State)
    requires Coupled(s) && DoSplitRootLeaf(s, u, key', q, m, s')
    requires Enabled(s.tree, SplitRootLeaf(s.threads[u].pc.p, q, m, key'))
    ensures Coupled(s')
  {
    SplitRootLeafMover(s, u, key', q, m, s');
    forall w | w in s.threads && w != u ensures Leaves(s, s', w) { SplitRootLeafLeaves(s, u, key', q, m, s', w); }
    Assemble(s, s', u);
  }

  lemma SplitInnerLeaves(s: State, u: nat, d: nat, s': State, w: nat)
    requires u in s.threads && ThreadOk(s, u) && s.ver.Keys == s.tree.inners.Keys && s.locks.Keys == s.tree.leaves.Keys
    requires DoSplitInner(s, u, d, s') && w in s.threads && w != u
    requires s.threads[u].pc.n !in WriteHeld(s.threads[w].pc) && s.threads[u].pc.c !in WriteHeld(s.threads[w].pc)
    ensures Leaves(s, s', w)
  {
  }

  lemma SplitInnerMover(s: State, u: nat, d: nat, s': State)
    requires u in s.threads && ThreadOk(s, u) && DoSplitInner(s, u, d, s')
    requires s.ver.Keys == s.tree.inners.Keys && s.locks.Keys == s.tree.leaves.Keys
    requires Enabled(s.tree, SplitInner(s.threads[u].pc.n, s.threads[u].pc.c, d))
    ensures ThreadOk(s', u) && WriteHeldGrows(s, s', u)
    ensures s'.ver.Keys == s'.tree.inners.Keys && s'.locks.Keys == s'.tree.leaves.Keys
  {
  }

  lemma SplitInnerOk(s: State, u: nat, d: nat, s': State)
    requires Coupled(s) && DoSplitInner(s, u, d, s')
    requires Enabled(s.tree, SplitInner(s.threads[u].pc.n, s.threads[u].pc.c, d))
    ensures Coupled(s')
  {
    SplitInnerMover(s, u, d, s');
    forall w | w in s.threads && w != u ensures Leaves(s, s', w) {
      NotHeldByOthers(s, u, w, s.threads[u].pc.n);
      NotHeldByOthers(s, u, w, s.threads[u].pc.c);
      SplitInnerLeaves(s, u, d, s', w);
    }
    Assemble(s, s', u);
  }

  lemma SplitRootInnerLeaves(s: State, u: nat, d: nat, m: nat, s': State, w: nat)
    requires u in s.threads && ThreadOk(s, u) && s.ver.Keys == s.tree.inners.Keys && s.locks.Keys == s.tree.leaves.Keys
    requires DoSplitRootInner(s, u, d, m, s') && w in s.threads && w != u && s.threads[u].pc.c !in WriteHeld(s.threads[w].pc)
    ensures Leaves(s, s', w)
  {
  }

  lemma SplitRootInnerMover(s: State, u: nat, d: nat, m: nat, s': State)
    requires u in s.threads && ThreadOk(s, u) && DoSplitRootInner(s, u, d, m, s')
    requires s.ver.Keys == s.tree.inners.Keys && s.locks.Keys == s.tree.leaves.Keys
    requires Enabled(s.tree, SplitRootInner(s.threads[u].pc.c, d, m))
    ensures ThreadOk(s', u) && WriteHeldGrows(s, s', u)
    ensures s'.ver.Keys == s'.tree.inners.Keys && s'.locks.Keys == s'.tree.leaves.Keys
  {
  }

  lemma SplitRootInnerOk(s: State, u: nat, d: nat, m: nat, s': State)
    requires Coupled(s) && DoSplitRootInner(s, u, d, m, s')
    requires Enabled(s.tree, SplitRootInner(s.threads[u].pc.c, d, m))
    ensures Coupled(s')
  {
    SplitRootInnerMover(s, u, d, m, s');
    forall w | w in s.threads && w != u ensures Leaves(s, s', w) {
      NotHeldByOthers(s, u, w, s.threads[u].pc.c);
      SplitRootInnerLeaves(s, u, d, m, s', w);
    }
    Assemble(s, s', u);
  }

  // ---- the write itself ----------------------------------------------------------------------------

  lemma WriteOk(s: State, u: nat, v: Option<Value>, s': State)
    requires Coupled(s) && DoWrite(s, u, v, s')
    requires Enabled(s.tree, WriteEffect(s.threads[u].pc.p, s.threads[u].key, v))
    ensures Coupled(s')
  {
    assert ThreadOk(s, u);
    assert ThreadOk(s', u);
    forall w | w in s.threads && w != u ensures Leaves(s, s', w) { }
    Assemble(s, s', u);
  }

  // ---- every change is in place --------------------------------------------------------------------

  /** A thread that upgraded the parent of the leaf it holds may split that leaf at any key strictly inside
      its range: the separator falls in the leaf's own slot of the parent. */
  lemma LeafSplitReady(s: State, u: nat, key: Key, q: nat)
    requires Inv(s) && u in s.threads && s.threads[u].pc.ParentHeld?
    requires var pc := s.threads[u].pc; Possible(s.tree, SplitLeaf(pc.n, pc.p, q, key))
    ensures var pc := s.threads[u].pc; Enabled(s.tree, SplitLeaf(pc.n, pc.p, q, key))
  {
    var k, pc := s.threads[u].key, s.threads[u].pc;
    assert ThreadOk(s, u);
    var x := s.tree.inners[pc.n];
    var j := Slot(x.seps, k);
    assert KidOk(s.tree, x, j);
    LtTotal(SlotLo(x, j), key);
    SlotUnique(x.seps, key, j);
  }

  /** The same for an inner node with at least two children whose parent is write-locked too. */
  lemma InnerSplitReady(s: State, u: nat, d: nat)
    requires Inv(s) && u in s.threads && s.threads[u].pc.BothHeld?
    requires var pc := s.threads[u].pc; Possible(s.tree, SplitInner(pc.n, pc.c, d))
    ensures var pc := s.threads[u].pc; Enabled(s.tree, SplitInner(pc.n, pc.c, d))
  {
    var k, pc := s.threads[u].key, s.threads[u].pc;
    assert ThreadOk(s, u);
    var x, y := s.tree.inners[pc.n], s.tree.inners[pc.c];
    var j := Slot(x.seps, k);
    assert KidOk(s.tree, x, j);
    HalvesSlots(y);
    LtTotal(SlotLo(x, j), SplitSep(y));
    SlotUnique(x.seps, SplitSep(y), j);
    assert KidAt(s.tree, pc.n, j, InnerRef(pc.c));
    RootHasNoParent(s.tree, pc.n, j);
  }

  /** The change a step makes to the tree, if any. */
  function StepEffect(s: State, u: nat, step: Step): Option<Effect>
    requires u in s.threads
  {
    var pc := s.threads[u].pc;
    match step
    case Write(v) => if pc.InLeaf? then Some(WriteEffect(pc.p, s.threads[u].key, v)) else None
    case CutLeaf(key, q) => if pc.ParentHeld? then Some(SplitLeaf(pc.n, pc.p, q, key)) else None
    case CutRootLeaf(key, q, m) => if pc.InLeaf? then Some(SplitRootLeaf(pc.p, q, m, key)) else None
    case CutInner(d) => if pc.BothHeld? then Some(SplitInner(pc.n, pc.c, d)) else None
    case CutRootInner(d, m) => if pc.RootHeld? then Some(SplitRootInner(pc.c, d, m)) else None
    case _ => None
  }

  lemma StepIsEffect(s: State, u: nat, step: Step, s': State)
    requires Next(s, u, step, s') && StepEffect(s, u, step).Some?
    ensures var e := StepEffect(s, u, step).value; Possible(s.tree, e) && s'.tree == Apply(s.tree, e)
    ensures step.CutRootLeaf? ==> s.threads[u].pc.via.Top?
  {
  }

  /** A write, and a split of the root, need only the page the thread stands on. */
  lemma OwnPageInPlace(s: State, u: nat, step: Step)
    requires u in s.threads && ThreadOk(s, u) && StepEffect(s, u, step).Some? && Possible(s.tree, StepEffect(s, u, step).value)
    requires step.Write? || (step.CutRootLeaf? && s.threads[u].pc.via.Top?) || step.CutRootInner?
    ensures Enabled(s.tree, StepEffect(s, u, step).value)
  {
  }

  lemma EffectInPlace(s: State, u: nat, step: Step)
    requires Inv(s) && u in s.threads && StepEffect(s, u, step).Some? && Possible(s.tree, StepEffect(s, u, step).value)
    requires step.CutRootLeaf? ==> s.threads[u].pc.via.Top?
    ensures Enabled(s.tree, StepEffect(s, u, step).value)
  {
    if step.CutLeaf? {
      LeafSplitReady(s, u, step.key', step.q);
    } else if step.CutInner? {
      InnerSplitReady(s, u, step.d);
    } else {
      OwnPageInPlace(s, u, step);
    }
  }

  /** What the code does not check holds all the same: whatever a thread is about to write or split, its locks
      and validated pointers put it in the right place. */
  lemma StepInPlace(s: State, u: nat, step: Step, s': State)
    requires Inv(s) && Next(s, u, step, s') && StepEffect(s, u, step).Some?
    ensures Enabled(s.tree, StepEffect(s, u, step).value) && s'.tree == Apply(s.tree, StepEffect(s, u, step).value)
  {
    StepIsEffect(s, u, step, s');
    EffectInPlace(s, u, step);
  }

  // ---- every step ----------------------------------------------------------------------------------

  function StepOn(e: Option<Effect>, k: Key, was: Option<Value>): Option<Value> {
    match e case Some(x) => EffectOn(x, k, was) case None => was
  }

  lemma StepKeepsTree(s: State, u: nat, step: Step, s': State)
    requires Inv(s) && Next(s, u, step, s')
    ensures WF(s'.tree)
    ensures forall k :: Get(s'.tree, k) == StepOn(StepEffect(s, u, step), k, Get(s.tree, k))
  {
    if StepEffect(s, u, step).Some? {
      StepInPlace(s, u, step, s');
      ApplyKeepsWF(s.tree, StepEffect(s, u, step).value);
    }
  }

  lemma StepKeepsCoupled(s: State, u: nat, step: Step, s': State)
    requires Inv(s) && Next(s, u, step, s')
    ensures Coupled(s')
  {
    if StepEffect(s, u, step).Some? {
      ChangeKeepsCoupled(s, u, step, s');
    } else if step.UpgradeParent? || step.LockCur? || step.LockCurParent? || step.LockRoot? || step.Unlock? {
      LockKeepsCoupled(s, u, step, s');
    } else {
      MoveKeepsCoupled(s, u, step, s');
    }
  }

  lemma MoveKeepsCoupled(s: State, u: nat, step: Step, s': State)
    requires WF(s.tree) && Coupled(s) && Next(s, u, step, s')
    requires step.Begin? || step.TryRead? || step.CheckNode? || step.Descend? || step.LockLeaf?
      || step.CheckLeaf? || step.UpgradeLeaf? || step.GiveUp?
    ensures Coupled(s')
  {
    match step
    case Begin(k) => BeginOk(s, u, k, s');
    case TryRead => TryReadOk(s, u, s');
    case CheckNode => CheckNodeStep(s, u, s');
    case Descend(kid) => DescendOk(s, u, kid, s');
    case LockLeaf(excl) => LockLeafOk(s, u, excl, s');
    case CheckLeaf => CheckLeafStep(s, u, s');
    case UpgradeLeaf => UpgradeLeafOk(s, u, s');
    case GiveUp => GiveUpOk(s, u, s');
  }

  lemma LockKeepsCoupled(s: State, u: nat, step: Step, s': State)
    requires Coupled(s) && Next(s, u, step, s')
    requires step.UpgradeParent? || step.LockCur? || step.LockCurParent? || step.LockRoot? || step.Unlock?
    ensures Coupled(s')
  {
    match step
    case UpgradeParent => UpgradeParentOk(s, u, s');
    case LockCur => LockCurOk(s, u, s');
    case LockCurParent => LockCurParentOk(s, u, s');
    case LockRoot => LockRootOk(s, u, s');
    case Unlock => UnlockOk(s, u, s');
  }

  lemma ChangeKeepsCoupled(s: State, u: nat, step: Step, s': State)
    requires Inv(s) && Next(s, u, step, s') && StepEffect(s, u, step).Some?
    ensures Coupled(s')
  {
    StepInPlace(s, u, step, s');
    match step
    case Write(v) => WriteOk(s, u, v, s');
    case CutLeaf(key, q) => SplitLeafOk(s, u, key, q, s');
    case CutRootLeaf(key, q, m) => SplitRootLeafOk(s, u, key, q, m, s');
    case CutInner(d) => SplitInnerOk(s, u, d, s');
    case CutRootInner(d, m) => SplitRootInnerOk(s, u, d, m, s');
  }

  lemma CheckNodeStep(s: State, u: nat, s': State)
    requires WF(s.tree) && Coupled(s) && DoCheckNode(s, u, s')
    ensures Coupled(s')
  {
    assert ThreadOk(s, u);
    var key, pc := s.threads[u].key, s.threads[u].pc;
    if ParentUnchanged(s, InnerRef(pc.c), pc.via) { Validated(s, key, InnerRef(pc.c), pc.via); }
    CheckNodeOk(s, u, s');
  }

  lemma CheckLeafStep(s: State, u: nat, s': State)
    requires WF(s.tree) && Coupled(s) && DoCheckLeaf(s, u, s')
    ensures Coupled(s')
  {
    assert ThreadOk(s, u);
    var key, pc := s.threads[u].key, s.threads[u].pc;
    if ParentUnchanged(s, LeafRef(pc.p), pc.via) { Validated(s, key, LeafRef(pc.p), pc.via); }
    CheckLeafOk(s, u, s');
  }

  // ---- whole runs ----------------------------------------------------------------------------------

  ghost predicate Run(run: seq<State>, who: seq<nat>, steps: seq<Step>) {
    && |run| == |steps| + 1 == |who| + 1
    && WF(run[0].tree) && Init(run[0])
    && forall i {:trigger StepAt(run, who, steps, i)} :: 0 <= i < |steps| ==> StepAt(run, who, steps, i)
  }

  predicate StepAt(run: seq<State>, who: seq<nat>, steps: seq<Step>, i: nat)
    requires |run| == |steps| + 1 == |who| + 1 && i < |steps|
  {
    Next(run[i], who[i], steps[i], run[i + 1])
  }

  lemma {:induction false} RunKeepsInv(run: seq<State>, who: seq<nat>, steps: seq<Step>, i: nat)
    requires Run(run, who, steps) && i < |run|
    ensures Inv(run[i])
    decreases i
  {
    if i == 0 {
      InitOk(run[0]);
    } else {
      RunKeepsInv(run, who, steps, i - 1);
      assert StepAt(run, who, steps, i - 1);
      StepKeepsTree(run[i - 1], who[i - 1], steps[i - 1], run[i]);
      StepKeepsCoupled(run[i - 1], who[i - 1], steps[i - 1], run[i]);
    }
  }

  /** Main theorem.  However descents, writes and splits of any number of threads interleave, a thread that
      locked a leaf and passed `check_parent!` is in the leaf whose range holds its key -- the very leaf a
      descent of the tree as it now stands would reach -- and stays there until it lets the lock go. */
  lemma InLeafIsRightLeaf(run: seq<State>, who: seq<nat>, steps: seq<Step>, i: nat, u: nat)
    requires Run(run, who, steps) && i < |run| && u in run[i].threads && run[i].threads[u].pc.InLeaf?
    ensures var s, p, key := run[i], run[i].threads[u].pc.p, run[i].threads[u].key;
      && WF(s.tree) && p in s.tree.leaves && HoldsLeaf(s, u, p)
      && Within(key, s.tree.leaves[p].lo, s.tree.leaves[p].hi)
      && Route(s.tree, s.tree.root, key) == p
      && LeafGet(s.tree.leaves[p], key) == Get(s.tree, key)
  {
    RunKeepsInv(run, who, steps, i);
    var s, pc := run[i], run[i].threads[u].pc;
    assert ThreadOk(s, u);
    assert pc.p in LeafLocks(pc);
    OwnerReads(s.tree, pc.p, s.threads[u].key);
  }

  lemma StepActsAsMap(s: State, u: nat, step: Step, s': State, k: Key)
    requires Inv(s) && Next(s, u, step, s')
    ensures WF(s'.tree) && u in s.threads
    ensures Get(s'.tree, k) == if step.Write? && k == s.threads[u].key then step.v else Get(s.tree, k)
  {
    StepKeepsTree(s, u, step, s');
    assert Get(s'.tree, k) == StepOn(StepEffect(s, u, step), k, Get(s.tree, k));
  }

  /** Every step acts on the tree as a map: a write sets its own key and nothing else, every other step --
      splits included -- changes no read at all. */
  lemma StepsActAsMap(run: seq<State>, who: seq<nat>, steps: seq<Step>, i: nat, k: Key)
    requires Run(run, who, steps) && i < |steps|
    ensures WF(run[i].tree) && WF(run[i + 1].tree) && who[i] in run[i].threads
    ensures Get(run[i + 1].tree, k) ==
      if steps[i].Write? && k == run[i].threads[who[i]].key then steps[i].v else Get(run[i].tree, k)
  {
    RunKeepsInv(run, who, steps, i);
    assert StepAt(run, who, steps, i);
    StepActsAsMap(run[i], who[i], steps[i], run[i + 1], k);
  }
}
