/** What a reader of a snapshot may rely on, for every run of the protocol. */
module SnapshotTheorems {
  import opened Bytes
  import opened TreeShape
  import opened EffectFrames
  import opened LeafCache
  import opened Snapshot
  import opened SnapshotStore
  import opened SnapshotProof
  import opened SnapshotRuns
  import H = Handshake

  ghost predicate Run(run: seq<State>, steps: seq<Step>) {
    && |run| == |steps| + 1 && Init(run[0])
    && forall i {:trigger StepAt(run, steps, i)} :: 0 <= i < |steps| ==> StepAt(run, steps, i)
  }

  ghost predicate StepAt(run: seq<State>, steps: seq<Step>, i: nat)
    requires |run| == |steps| + 1 && i < |steps|
  {
    Next(run[i], steps[i], run[i + 1])
  }

  lemma InitOk(s: State)
    requires Init(s)
    ensures Inv(s, s.st.now)
  {
  }

  lemma {:induction false} RunKeepsInv(run: seq<State>, steps: seq<Step>, i: nat)
    requires Run(run, steps) && i < |run|
    ensures Inv(run[i], run[0].st.now)
    decreases i
  {
    if i == 0 {
      InitOk(run[0]);
    } else {
      RunKeepsInv(run, steps, i - 1);
      assert StepAt(run, steps, i - 1);
      NextKeepsInv(run[i - 1], steps[i - 1], run[i], run[0].st.now);
    }
  }

  // ---- the finished snapshot -----------------------------------------------------------------------

  /** The manager has settled in the last REST state and is about to finalize. */
  predicate Finalizing(s: State) { s.hs.mgr.Settled? && s.hs.global.phase.Rest? }

  /** The image kept for a leaf after de-duplication: workers' captures before the sweep's, mini pages and
      base pages each on their own. */
  function FinalShot(sn: Snap, p: nat): Shot
    requires p in sn.workL || p in sn.sweptL
  {
    Shot(if p in sn.workL && sn.workL[p].mini.Some? then sn.workL[p].mini
         else if p in sn.sweptL then sn.sweptL[p].mini else None,
         if p in sn.workL then sn.workL[p].base else sn.sweptL[p].base)
  }

  /** Mixing one capture's mini page with the other's base page still reads as the leaf: what a mini page
      holds, it holds as the cut has it, and a base page captured alone is the whole leaf. */
  lemma FinalShotOk(sn: Snap, p: nat)
    requires ImagesOk(sn) && (p in sn.workL || p in sn.sweptL)
    ensures p in sn.cut.leaves && ShotOk(FinalShot(sn, p), sn.cut.leaves[p])
  {
    forall k ensures ShotGet(FinalShot(sn, p), k) == LeafGet(sn.cut.leaves[p], k) {
      if p in sn.workL { assert ShotGet(sn.workL[p], k) == LeafGet(sn.cut.leaves[p], k); }
      if p in sn.sweptL { assert ShotGet(sn.sweptL[p], k) == LeafGet(sn.cut.leaves[p], k); }
    }
  }

  /** Consistent cut.  When the snapshot of version `sv` is finalized, the images are those of one
      well-formed tree: the one that results from the transactions of version `sv` and below, in the order
      they happened, and from no other.  Every leaf and inner node of that tree is kept, nothing else is,
      and the recorded root is its root. */
  lemma ConsistentCut(run: seq<State>, steps: seq<Step>, t: nat)
    requires Run(run, steps) && t < |run| && Finalizing(run[t])
    ensures var sn := run[t].sn;
      && WF(sn.cut) && Replay(run[0].st.now, Upto(run[t].history, sn.sv)) == Some(sn.cut)
      && sn.workL.Keys + sn.sweptL.Keys == sn.cut.leaves.Keys
      && (forall p :: p in sn.cut.leaves ==> ShotOk(FinalShot(sn, p), sn.cut.leaves[p]))
      && sn.sweptI + sn.workI == sn.cut.inners
      && sn.root == Some(sn.cut.root)
  {
    RunKeepsInv(run, steps, t);
    FinalImages(run[t], run[0].st.now);
  }

  lemma FinalImages(s: State, origin: Tree)
    requires Inv(s, origin) && Finalizing(s)
    ensures s.sn.workL.Keys + s.sn.sweptL.Keys == s.sn.cut.leaves.Keys
    ensures forall p :: p in s.sn.cut.leaves ==> ShotOk(FinalShot(s.sn, p), s.sn.cut.leaves[p])
    ensures s.sn.sweptI + s.sn.workI == s.sn.cut.inners && s.sn.root == Some(s.sn.cut.root)
  {
    FinalLeaves(s.st, s.sn);
    FinalInners(s.st, s.sn);
  }

  lemma FinalLeaves(st: Store, sn: Snap)
    requires Kept(st, sn) && ImagesOk(sn) && forall p :: p in sn.cut.leaves ==> p < sn.upto
    ensures sn.workL.Keys + sn.sweptL.Keys == sn.cut.leaves.Keys
    ensures forall p :: p in sn.cut.leaves ==> ShotOk(FinalShot(sn, p), sn.cut.leaves[p])
  {
    forall p | p in sn.cut.leaves ensures p in sn.workL || p in sn.sweptL { }
    forall p | p in sn.cut.leaves ensures ShotOk(FinalShot(sn, p), sn.cut.leaves[p]) { FinalShotOk(sn, p); }
  }

  lemma FinalInners(st: Store, sn: Snap)
    requires Kept(st, sn) && ImagesOk(sn) && sn.walked
    ensures sn.sweptI + sn.workI == sn.cut.inners && sn.root == Some(sn.cut.root)
  {
    var m := sn.sweptI + sn.workI;
    forall n | n in sn.cut.inners ensures n in m && m[n] == sn.cut.inners[n] { }
    assert m.Keys == sn.cut.inners.Keys;
  }

  /** Snapshot closure: every child a captured inner node names is itself captured, and of the captured inner
      nodes the recorded root alone holds the root flag. */
  lemma SnapshotClosed(run: seq<State>, steps: seq<Step>, t: nat, n: nat, j: nat)
    requires Run(run, steps) && t < |run| && Finalizing(run[t])
    requires var inner := run[t].sn.sweptI + run[t].sn.workI; n in inner && j < |inner[n].kids|
    ensures var sn := run[t].sn;
      var inner := sn.sweptI + sn.workI;
      && (match KidRef(inner[n], j)
          case LeafRef(p) => p in sn.workL || p in sn.sweptL
          case InnerRef(c) => c in inner)
      && (inner[n].isRoot <==> sn.root == Some(InnerRef(n)))
  {
    ConsistentCut(run, steps, t);
    var sn := run[t].sn;
    assert KidOk(sn.cut, sn.cut.inners[n], j);
    if KidRef(sn.cut.inners[n], j).LeafRef? { assert sn.cut.inners[n].kids[j] in sn.workL.Keys + sn.sweptL.Keys; }
  }

  // ---- what the sweep and finalize may rely on -----------------------------------------------------

  /** Nothing is captured while the snapshot is finalized: whatever workers and evictions do, the recorded
      images, the root and the cut stay as they are. */
  lemma FinalizeTakesNothing(run: seq<State>, steps: seq<Step>, t: nat, step: Step, s': State)
    requires Run(run, steps) && t < |run| && Finalizing(run[t]) && Next(run[t], step, s') && !step.DoShake?
    ensures s'.sn == run[t].sn
  {
    RunKeepsInv(run, steps, t);
    var s := run[t];
    match step
    case DoCommit(w, e, how) => RestTakesNothing(s, w, LeafTouch(e), InnerTouch(e));
    case DoTouchLeaf(w, p, what) => RestTakesNothing(s, w, {p}, {});
    case DoTouchInner(w, n) => RestTakesNothing(s, w, {}, {n});
    case _ =>
  }

  lemma RestTakesNothing(s: State, w: nat, ps: set<nat>, ns: set<nat>)
    requires H.Inv(s.hs) && H.HoldsGuard(s.hs, w) && Finalizing(s) && PhaseOk(s.hs, s.st, s.sn)
    ensures var g := s.hs.slots[w].pc.g; g.version > s.sn.sv && Captured(g, s.st, s.sn, ps, ns) == s.sn
  {
    assert H.Entered(s.hs.slots[w].pc);
  }

  /** While the manager walks the inner nodes the tree does not change, nor does any version in it: the walk
      sees one tree. */
  lemma {:induction false} FrozenTreeIsFixed(run: seq<State>, steps: seq<Step>, i: nat, j: nat)
    requires Run(run, steps) && i <= j < |run| && forall t :: i <= t <= j ==> run[t].hs.mgr.Frozen?
    ensures run[j].st.now == run[i].st.now && run[j].st.iver == run[i].st.iver
    decreases j
  {
    if i < j {
      FrozenTreeIsFixed(run, steps, i, j - 1);
      HandshakeOk(run, steps, j - 1);
      assert StepAt(run, steps, j - 1);
      FrozenStep(run[j - 1], steps[j - 1], run[j]);
    }
  }

  lemma HandshakeOk(run: seq<State>, steps: seq<Step>, t: nat)
    requires Run(run, steps) && t < |run|
    ensures H.Inv(run[t].hs)
  {
    RunKeepsInv(run, steps, t);
  }

  lemma FrozenStep(s: State, step: Step, s': State)
    requires Next(s, step, s') && H.Inv(s.hs) && s.hs.mgr.Frozen?
    ensures s'.st.now == s.st.now && s'.st.iver == s.st.iver
  {
    if step.DoCommit? || step.DoTouchInner? { FrozenHolds(s.hs, step.w); }
  }

  lemma FrozenHolds(hs: H.State, w: nat)
    requires H.Inv(hs) && hs.mgr.Frozen?
    ensures !H.HoldsGuard(hs, w)
  {
  }

  // ---- versions ------------------------------------------------------------------------------------

  /** Version order: base page, cached page, global version. */
  lemma VersionOrder(run: seq<State>, steps: seq<Step>, t: nat, p: nat)
    requires Run(run, steps) && t < |run| && p in run[t].st.pages
    ensures run[t].st.pages[p].base.version <= Version(run[t].st.pages[p]) <= run[t].hs.global.version
  {
    RunKeepsInv(run, steps, t);
  }

  /** The leaves and inner nodes a worker's step changes, or captures and raises before it fails. */
  function LeavesOf(step: Step): set<nat> {
    match step case DoCommit(w, e, how) => LeafTouch(e) case DoTouchLeaf(w, p, what) => {p} case _ => {}
  }

  function InnersOf(step: Step): set<nat> {
    match step case DoCommit(w, e, how) => InnerTouch(e) case DoTouchInner(w, n) => {n} case _ => {}
  }

  /** A guard never touches a page or node of a newer version than its own, whether its operation goes through
      or fails; and when it captures a mini page, the base page under it is older than the guard too, as the
      source asserts. */
  lemma GuardsNeverGoBack(run: seq<State>, steps: seq<Step>, t: nat, step: Step, s': State)
    requires Run(run, steps) && t < |run| && Next(run[t], step, s') && (step.DoCommit? || step.DoTouchLeaf? || step.DoTouchInner?)
    ensures H.HoldsGuard(run[t].hs, step.w)
    ensures var s, g := run[t], run[t].hs.slots[step.w].pc.g;
      && (forall p :: p in LeavesOf(step) ==> p in s.st.pages && NotNewer(s.st.pages[p], g))
      && (forall n :: n in InnersOf(step) ==> n in s.st.iver && s.st.iver[n] <= g.version)
  {
    RunKeepsInv(run, steps, t);
    StepFits(run[t], step, s');
  }

  predicate NotNewer(page: Page, g: H.Stamp) {
    Version(page) <= g.version && (Captures(g, Version(page)) ==> page.base.version < g.version)
  }

  lemma StepFits(s: State, step: Step, s': State)
    requires Next(s, step, s') && H.Inv(s.hs) && Keyed(s.st) && PagesOk(s.st, s.hs.global.version)
    requires step.DoCommit? || step.DoTouchLeaf? || step.DoTouchInner?
    ensures H.HoldsGuard(s.hs, step.w)
    ensures var g := s.hs.slots[step.w].pc.g;
      && (forall p :: p in LeavesOf(step) ==> p in s.st.pages && NotNewer(s.st.pages[p], g))
      && (forall n :: n in InnersOf(step) ==> n in s.st.iver && s.st.iver[n] <= g.version)
  {
    if step.DoCommit? { EffectKeys(s.st.now, step.e); }
    HeldGuardOk(s.hs, step.w);
    PassedPages(s, s.hs.slots[step.w].pc.g, LeavesOf(step), InnersOf(step));
  }

  lemma PassedPages(s: State, g: H.Stamp, ps: set<nat>, ns: set<nat>)
    requires Keyed(s.st) && PagesOk(s.st, s.hs.global.version) && GuardOk(g, s.hs.global.version) && AllPass(g, s.st, ps, ns)
    requires ps <= s.st.pages.Keys && ns <= s.st.iver.Keys
    ensures forall p :: p in ps ==> NotNewer(s.st.pages[p], g)
    ensures forall n :: n in ns ==> s.st.iver[n] <= g.version
  {
    forall p | p in ps ensures NotNewer(s.st.pages[p], g) {
      PassedFits(g, s.hs.global.version, Version(s.st.pages[p]));
      assert PageOk(s.st.pages[p]);
    }
    forall n | n in ns ensures s.st.iver[n] <= g.version { PassedFits(g, s.hs.global.version, s.st.iver[n]); }
  }

  /** A worker's capture is the first of its page, and a root recorded twice is recorded alike: the assertion
      in `snapshot_root_page` holds. */
  lemma CapturesAreFirst(run: seq<State>, steps: seq<Step>, t: nat, w: nat, p: nat)
    requires Run(run, steps) && t < |run| && !run[t].hs.mgr.Idle? && H.HoldsGuard(run[t].hs, w)
    ensures var s, g := run[t], run[t].hs.slots[w].pc.g;
      && (p in s.st.pages && Captures(g, Version(s.st.pages[p])) ==> p !in s.sn.workL)
      && (p in s.st.iver && Captures(g, s.st.iver[p]) ==> p !in s.sn.workI)
      && (Captures(g, RefVer(s.st, s.st.now.root)) && s.sn.root.Some? ==> s.sn.root.value == s.st.now.root)
  {
    RunKeepsInv(run, steps, t);
    SideOf(run[t].hs, run[t].st, run[t].sn, w);
  }

  /** When a mini page was captured both by the sweep and by a worker, the two have the same size, as
      finalize asserts. */
  lemma MiniSizesAgree(run: seq<State>, steps: seq<Step>, t: nat, p: nat)
    requires Run(run, steps) && t < |run| && Finalizing(run[t])
    requires p in run[t].sn.workL && p in run[t].sn.sweptL && run[t].sn.workL[p].mini.Some?
    ensures run[t].sn.sweptL[p].mini.Some?
    ensures run[t].sn.sweptL[p].mini.value.size == run[t].sn.workL[p].mini.value.size
  {
    RunKeepsInv(run, steps, t);
  }

  /** A leaf's version falls in one way only: a reorganisation drops a clean, unchanged cached page over an
      older base page.  (`LeafCache.VersionCanFall` shows that this happens.) */
  lemma VersionsFallOnlyByDropping(run: seq<State>, steps: seq<Step>, t: nat, step: Step, s': State, p: nat)
    requires Run(run, steps) && t < |run| && Next(run[t], step, s') && p in run[t].st.pages
    ensures p in s'.st.pages
    ensures Version(s'.st.pages[p]) < Version(run[t].st.pages[p]) <==>
      && step.DoTidy? && step.p == p && (step.reorg.Merge? || step.reorg.WriteBack?)
      && var page := run[t].st.pages[p];
      !page.loc.AtBase? && !AnyDirty(page.loc.c.recs) && !page.loc.c.changed && page.base.version < page.loc.c.version
  {
    RunKeepsInv(run, steps, t);
    StepLowersVersion(run[t], step, s', p);
  }

  lemma StepLowersVersion(s: State, step: Step, s': State, p: nat)
    requires Next(s, step, s') && H.Inv(s.hs) && Keyed(s.st) && PagesOk(s.st, s.hs.global.version) && p in s.st.pages
    ensures p in s'.st.pages
    ensures Version(s'.st.pages[p]) < Version(s.st.pages[p]) <==>
      && step.DoTidy? && step.p == p && (step.reorg.Merge? || step.reorg.WriteBack?)
      && var page := s.st.pages[p];
      !page.loc.AtBase? && !AnyDirty(page.loc.c.recs) && !page.loc.c.changed && page.base.version < page.loc.c.version
  {
    match step
    case DoCommit(w, e, how) => CommitRaises(s, w, e, how, s', p);
    case DoTouchLeaf(w, q, what) => TouchRaises(s, w, q, what, s', p);
    case DoTidy(q, how) => ReorgLowersVersion(s.st.pages[q], how);
    case _ =>
  }

  lemma CommitRaises(s: State, w: nat, e: Effect, how: How, s': State, p: nat)
    requires Commit(s, w, e, how, s') && H.Inv(s.hs) && Keyed(s.st) && PagesOk(s.st, s.hs.global.version)
    requires p in s.st.pages
    ensures p in s'.st.pages && Version(s.st.pages[p]) <= Version(s'.st.pages[p])
  {
    var g, gv := s.hs.slots[w].pc.g, s.hs.global.version;
    HeldGuardOk(s.hs, w);
    CommitMoves(g, s.st, e, how);
    if p in LeafTouch(e) {
      PassedFits(g, gv, Version(s.st.pages[p]));
      LeafRises(g, gv, s.st, e, how, p);
    }
  }

  lemma LeafRises(g: H.Stamp, gv: nat, st: Store, e: Effect, how: How, p: nat)
    requires Enabled(st.now, e) && CanStore(g, st, e, how) && GuardOk(g, gv) && p in LeafTouch(e) && p in st.pages
    requires LeafNew(e) !! {p}
    requires Passes(g, Version(st.pages[p])) && Version(st.pages[p]) <= gv
    ensures p in Stored(g, st, e, how).pages && Version(st.pages[p]) <= Version(Stored(g, st, e, how).pages[p])
  {
    PassedFits(g, gv, Version(st.pages[p]));
  }

  lemma TouchRaises(s: State, w: nat, q: nat, what: Attempt, s': State, p: nat)
    requires TouchLeaf(s, w, q, what, s') && H.Inv(s.hs) && Keyed(s.st) && PagesOk(s.st, s.hs.global.version)
    requires p in s.st.pages
    ensures p in s'.st.pages && Version(s.st.pages[p]) <= Version(s'.st.pages[p])
  {
    HeldGuardOk(s.hs, w);
    PassedFits(s.hs.slots[w].pc.g, s.hs.global.version, Version(s.st.pages[q]));
  }
}
