/** The consistent cut: every interleaving of workers, reorganisations, sweep and manager keeps the invariant
    of `Snapshot`, and when the snapshot is finalized the captured images are exactly the cut. */
module SnapshotProof {
  import opened Bytes
  import opened TreeShape
  import opened TreeEffects
  import opened TreeSplits
  import opened EffectFrames
  import opened LeafCache
  import opened Snapshot
  import opened SnapshotStore
  import H = Handshake

  // ---- which side of the cut a guard is on ---------------------------------------------------------

  /** A guard of the version being captured: it works while nothing is swept, and captures nothing. */
  predicate OldSide(g: H.Stamp, sn: Snap) {
    && g.version <= sn.sv && (g.phase.Rest? || g.phase.Prepare?)
    && !sn.walked && sn.sweptL == map[] && sn.sweptI == map[] && sn.upto == 0
  }

  /** A guard of the next version: it captures what it changes, or comes when all is captured. */
  predicate NewSide(g: H.Stamp, sn: Snap) {
    && g.version == sn.sv + 1 && !g.phase.Prepare?
    && (g.phase.Rest? ==> sn.walked && forall p :: p in sn.cut.leaves ==> p < sn.upto)
  }

  lemma SideOf(hs: H.State, st: Store, sn: Snap, w: nat)
    requires H.Inv(hs) && !hs.mgr.Idle? && PhaseOk(hs, st, sn) && H.HoldsGuard(hs, w)
    ensures OldSide(hs.slots[w].pc.g, sn) || NewSide(hs.slots[w].pc.g, sn)
    ensures OldSide(hs.slots[w].pc.g, sn) && hs.slots[w].pc.g.phase.Rest? ==> hs.global.version == sn.sv
  {
    var g := hs.slots[w].pc.g;
    assert H.Near(hs, w) && H.Entered(hs.slots[w].pc);
    H.RankOrders(g, hs.global);
  }

  /** Pages that pass an old guard's rule are on the old side themselves. */
  lemma OldSidePages(g: H.Stamp, gv: nat, st: Store, sn: Snap, ps: set<nat>, ns: set<nat>)
    requires Keyed(st) && PagesOk(st, gv) && GuardOk(g, gv) && OldSide(g, sn) && AllPass(g, st, ps, ns)
    requires g.phase.Rest? ==> gv == sn.sv
    ensures AllOld(st, ps, ns, sn.sv)
    ensures Captured(g, st, sn, ps, ns) == sn
  {
    NoCaptures(g, st, sn, ps, ns);
  }

  lemma NoCaptures(g: H.Stamp, st: Store, sn: Snap, ps: set<nat>, ns: set<nat>)
    requires g.phase.Rest? || g.phase.Prepare?
    ensures Captured(g, st, sn, ps, ns) == sn
  {
    var sn' := Captured(g, st, sn, ps, ns);
    assert sn'.workL == sn.workL;
    assert sn'.workI == sn.workI;
  }

  predicate AllOld(st: Store, ps: set<nat>, ns: set<nat>, sv: nat) {
    && (forall p :: p in ps && p in st.pages ==> Version(st.pages[p]) <= sv)
    && (forall n :: n in ns && n in st.iver ==> st.iver[n] <= sv)
  }

  predicate AllNew(st: Store, ps: set<nat>, ns: set<nat>, sv: nat) {
    && (forall p :: p in ps && p in st.pages ==> Version(st.pages[p]) > sv)
    && (forall n :: n in ns && n in st.iver ==> st.iver[n] > sv)
  }

  // ---- transactions of the new version -------------------------------------------------------------

  /** Where the root's version can have changed: on a touched root, or on a new one. */
  lemma RootVersions(st: Store, st': Store, ps: set<nat>, ns: set<nat>, pn: set<nat>, nn: set<nat>)
    requires Moved(st, st', ps, ns, pn, nn) && Exists(st.now, st.now.root)
    ensures !Among(st.now.root, ps, ns) ==> st'.now.root == st.now.root && RefVer(st', st'.now.root) == RefVer(st, st.now.root)
    ensures Among(st.now.root, ps, ns) ==> Among(st'.now.root, ps + pn, ns + nn)
  {
  }

  lemma AmongVersion(st: Store, r: Ref, ps: set<nat>, ns: set<nat>, sv: nat)
    requires Among(r, ps, ns) && ps <= st.pages.Keys && ns <= st.iver.Keys
    ensures AllNew(st, ps, ns, sv) ==> RefVer(st, r) > sv
    ensures AllOld(st, ps, ns, sv) ==> RefVer(st, r) <= sv
  {
  }

  lemma NewOldSame(st: Store, sn: Snap, st': Store, ps: set<nat>, ns: set<nat>, pn: set<nat>, nn: set<nat>, sn': Snap)
    requires Moved(st, st', ps, ns, pn, nn) && AllNew(st', ps + pn, ns + nn, sn.sv) && OldPagesSame(st, sn)
    requires sn'.cut == sn.cut && sn'.sv == sn.sv
    ensures OldPagesSame(st', sn')
  {
  }

  lemma NewRootSame(st: Store, sn: Snap, st': Store, ps: set<nat>, ns: set<nat>, pn: set<nat>, nn: set<nat>, sn': Snap)
    requires Moved(st, st', ps, ns, pn, nn) && AllNew(st', ps + pn, ns + nn, sn.sv) && OldRootSame(st, sn)
    requires Exists(st.now, st.now.root) && sn'.cut == sn.cut && sn'.sv == sn.sv
    ensures OldRootSame(st', sn')
  {
    RootVersions(st, st', ps, ns, pn, nn);
    if Among(st.now.root, ps, ns) { AmongVersion(st', st'.now.root, ps + pn, ns + nn, sn.sv); }
  }

  lemma NewKept(g: H.Stamp, st: Store, sn: Snap, st': Store, ps: set<nat>, ns: set<nat>, pn: set<nat>, nn: set<nat>)
    requires Moved(st, st', ps, ns, pn, nn) && AllNew(st', ps + pn, ns + nn, sn.sv)
    requires OldSame(st, sn) && Kept(st, sn) && NewSide(g, sn)
    requires Exists(st.now, st.now.root) && (st.now.root.InnerRef? ==> st.now.inners[st.now.root.id].isRoot)
    ensures Kept(st', Captured(g, st, sn, ps, ns))
  {
    var sn' := Captured(g, st, sn, ps, ns);
    forall p | p in sn.cut.leaves && (Version(st'.pages[p]) > sn.sv || p < sn.upto)
      ensures p in sn'.workL || p in sn'.sweptL
    {
      if p in ps && Version(st.pages[p]) <= sn.sv && !g.phase.Rest? { assert Captures(g, Version(st.pages[p])); }
    }
    forall n | n in sn.cut.inners && (st'.iver[n] > sn.sv || sn.walked)
      ensures n in sn'.workI || n in sn'.sweptI
    {
      if n in ns && st.iver[n] <= sn.sv && !g.phase.Rest? { assert Captures(g, st.iver[n]); }
    }
    NewKeptRoot(g, st, sn, st', ps, ns, pn, nn);
  }

  lemma NewKeptRoot(g: H.Stamp, st: Store, sn: Snap, st': Store, ps: set<nat>, ns: set<nat>, pn: set<nat>, nn: set<nat>)
    requires Moved(st, st', ps, ns, pn, nn) && NewSide(g, sn)
    requires RefVer(st, st.now.root) > sn.sv || sn.walked ==> sn.root.Some?
    requires Exists(st.now, st.now.root) && (st.now.root.InnerRef? ==> st.now.inners[st.now.root.id].isRoot)
    ensures RefVer(st', st'.now.root) > sn.sv || sn.walked ==> Captured(g, st, sn, ps, ns).root.Some?
  {
  }

  lemma NewImages(g: H.Stamp, gv: nat, st: Store, sn: Snap, ps: set<nat>, ns: set<nat>)
    requires Keyed(st) && PagesOk(st, gv) && OldSame(st, sn) && ImagesOk(sn) && NewSide(g, sn)
    ensures ImagesOk(Captured(g, st, sn, ps, ns))
  {
    var sn' := Captured(g, st, sn, ps, ns);
    forall p | p in sn'.workL ensures p in sn.cut.leaves && ShotOk(sn'.workL[p], sn.cut.leaves[p]) {
      if p in ps && p in st.pages && Captures(g, Version(st.pages[p])) { ShotShows(st.pages[p], st.now.leaves[p]); }
    }
  }

  lemma ShotShows(p: Page, l: Leaf)
    requires Shows(p, l)
    ensures ShotOk(ShotOf(p), l)
  {
    forall k ensures ShotGet(ShotOf(p), k) == LeafGet(l, k) { assert Look(p, k) == LeafGet(l, k); }
  }

  lemma NewOnce(g: H.Stamp, st: Store, sn: Snap, st': Store, ps: set<nat>, ns: set<nat>, pn: set<nat>, nn: set<nat>)
    requires Moved(st, st', ps, ns, pn, nn) && AllNew(st', ps + pn, ns + nn, sn.sv)
    requires OncePerPage(st, sn) && Exists(st.now, st.now.root)
    requires forall p :: p in sn.workL ==> p in st.pages
    requires forall n :: n in sn.workI ==> n in st.iver
    ensures OncePerPage(st', Captured(g, st, sn, ps, ns))
  {
    RootVersions(st, st', ps, ns, pn, nn);
    if Among(st.now.root, ps, ns) { AmongVersion(st', st'.now.root, ps + pn, ns + nn, sn.sv); }
  }

  lemma NewSizes(g: H.Stamp, st: Store, sn: Snap, st': Store, ps: set<nat>, ns: set<nat>, pn: set<nat>, nn: set<nat>)
    requires Moved(st, st', ps, ns, pn, nn) && AllNew(st', ps + pn, ns + nn, sn.sv)
    requires SameSizes(st, sn) && g.version == sn.sv + 1
    requires forall p :: p in sn.sweptL ==> p in st.pages
    ensures SameSizes(st', Captured(g, st, sn, ps, ns))
  {
    var sn' := Captured(g, st, sn, ps, ns);
    forall p | p in sn'.workL && p in sn.sweptL && sn'.workL[p].mini.Some?
      ensures sn.sweptL[p].mini.Some? && sn.sweptL[p].mini.value.size == sn'.workL[p].mini.value.size
    {
      if p in ps && p in st.pages && Captures(g, Version(st.pages[p])) { assert Version(st.pages[p]) <= sn.sv; }
    }
  }

  /** A transaction of the next version keeps the cut: it has captured what it changed. */
  lemma NewMove(g: H.Stamp, gv: nat, st: Store, sn: Snap, st': Store, ps: set<nat>, ns: set<nat>, pn: set<nat>, nn: set<nat>)
    requires StoreOk(st, gv) && CutOk(st, sn) && NewSide(g, sn)
    requires Moved(st, st', ps, ns, pn, nn) && AllNew(st', ps + pn, ns + nn, sn.sv)
    requires forall p :: p in ps + pn ==> Sided(st'.pages[p], sn.sv)
    ensures CutOk(st', Captured(g, st, sn, ps, ns))
  {
    RootExists(st.now);
    NewOldSame(st, sn, st', ps, ns, pn, nn, Captured(g, st, sn, ps, ns));
    NewKept(g, st, sn, st', ps, ns, pn, nn);
    NewImages(g, gv, st, sn, ps, ns);
    NewRootSame(st, sn, st', ps, ns, pn, nn, Captured(g, st, sn, ps, ns));
    NewOnce(g, st, sn, st', ps, ns, pn, nn);
    NewSizes(g, st, sn, st', ps, ns, pn, nn);
  }

  lemma RootExists(t: Tree)
    requires WF(t)
    ensures Exists(t, t.root) && (t.root.InnerRef? ==> t.inners[t.root.id].isRoot)
  {
  }

  // ---- transactions of the captured version --------------------------------------------------------

  /** The cut took the same effect: it changed and made the same pages, to the same values. */
  predicate CutMoved(st': Store, sn: Snap, cut': Tree, ps: set<nat>, ns: set<nat>, pn: set<nat>, nn: set<nat>) {
    && ps <= sn.cut.leaves.Keys && ns <= sn.cut.inners.Keys
    && cut'.leaves.Keys == sn.cut.leaves.Keys + pn && cut'.inners.Keys == sn.cut.inners.Keys + nn
    && (forall p :: p in sn.cut.leaves && p !in ps ==> cut'.leaves[p] == sn.cut.leaves[p])
    && (forall n :: n in sn.cut.inners && n !in ns ==> cut'.inners[n] == sn.cut.inners[n])
    && (forall p :: p in ps + pn ==> p in st'.now.leaves && cut'.leaves[p] == st'.now.leaves[p])
    && (forall n :: n in ns + nn ==> n in st'.now.inners && cut'.inners[n] == st'.now.inners[n])
  }

  predicate RootsMoved(st: Store, st': Store, sn: Snap, cut': Tree, ps: set<nat>, ns: set<nat>) {
    || (st'.now.root == st.now.root && cut'.root == sn.cut.root)
    || (Among(st.now.root, ps, ns) && cut'.root == st'.now.root)
  }

  lemma OldOldSame(st: Store, sn: Snap, st': Store, cut': Tree, ps: set<nat>, ns: set<nat>, pn: set<nat>, nn: set<nat>)
    requires Moved(st, st', ps, ns, pn, nn) && OldPagesSame(st, sn) && CutMoved(st', sn, cut', ps, ns, pn, nn)
    ensures OldPagesSame(st', sn.(cut := cut'))
  {
  }

  lemma OldRootMoves(st: Store, sn: Snap, st': Store, cut': Tree, ps: set<nat>, ns: set<nat>, pn: set<nat>, nn: set<nat>)
    requires Moved(st, st', ps, ns, pn, nn) && AllOld(st, ps, ns, sn.sv) && OldRootSame(st, sn) && Exists(st.now, st.now.root)
    requires RootsMoved(st, st', sn, cut', ps, ns)
    ensures OldRootSame(st', sn.(cut := cut'))
  {
    RootVersions(st, st', ps, ns, pn, nn);
    if Among(st.now.root, ps, ns) { AmongVersion(st, st.now.root, ps, ns, sn.sv); }
  }

  lemma OldKept(st: Store, sn: Snap, st': Store, cut': Tree, ps: set<nat>, ns: set<nat>, pn: set<nat>, nn: set<nat>)
    requires Moved(st, st', ps, ns, pn, nn) && AllOld(st', ps + pn, ns + nn, sn.sv) && Kept(st, sn) && Exists(st.now, st.now.root)
    requires CutMoved(st', sn, cut', ps, ns, pn, nn) && sn.upto == 0 && !sn.walked
    ensures Kept(st', sn.(cut := cut'))
  {
    RootVersions(st, st', ps, ns, pn, nn);
    if Among(st.now.root, ps, ns) { AmongVersion(st', st'.now.root, ps + pn, ns + nn, sn.sv); }
  }

  lemma OldImages(st: Store, sn: Snap, st': Store, cut': Tree, ps: set<nat>, ns: set<nat>, pn: set<nat>, nn: set<nat>)
    requires ImagesOk(sn) && OncePerPage(st, sn) && AllOld(st, ps, ns, sn.sv) && !sn.walked && sn.sweptL == map[] && sn.sweptI == map[]
    requires Moved(st, st', ps, ns, pn, nn) && CutMoved(st', sn, cut', ps, ns, pn, nn) && RootsMoved(st, st', sn, cut', ps, ns)
    requires Exists(st.now, st.now.root)
    ensures ImagesOk(sn.(cut := cut'))
  {
    if Among(st.now.root, ps, ns) { AmongVersion(st, st.now.root, ps, ns, sn.sv); }
    forall p | p in sn.workL ensures p in cut'.leaves && cut'.leaves[p] == sn.cut.leaves[p] {
      assert p !in ps;
    }
    forall n | n in sn.workI ensures n in cut'.inners && cut'.inners[n] == sn.cut.inners[n] {
      assert n !in ns;
    }
  }

  lemma OldOnce(st: Store, sn: Snap, st': Store, cut': Tree, ps: set<nat>, ns: set<nat>, pn: set<nat>, nn: set<nat>)
    requires OncePerPage(st, sn) && AllOld(st, ps, ns, sn.sv) && sn.sweptL == map[]
    requires Moved(st, st', ps, ns, pn, nn) && Exists(st.now, st.now.root)
    requires forall p :: p in sn.workL ==> p in st.pages
    requires forall n :: n in sn.workI ==> n in st.iver
    ensures OncePerPage(st', sn.(cut := cut')) && SameSizes(st', sn.(cut := cut'))
  {
    RootVersions(st, st', ps, ns, pn, nn);
    if Among(st.now.root, ps, ns) { AmongVersion(st, st.now.root, ps, ns, sn.sv); }
  }

  /** A transaction of the captured version is applied to the tree and the cut alike. */
  lemma OldMove(gv: nat, st: Store, sn: Snap, st': Store, cut': Tree, ps: set<nat>, ns: set<nat>, pn: set<nat>, nn: set<nat>)
    requires StoreOk(st, gv) && CutOk(st, sn) && WF(cut')
    requires !sn.walked && sn.sweptL == map[] && sn.sweptI == map[] && sn.upto == 0
    requires Moved(st, st', ps, ns, pn, nn) && AllOld(st, ps, ns, sn.sv) && AllOld(st', ps + pn, ns + nn, sn.sv)
    requires CutMoved(st', sn, cut', ps, ns, pn, nn) && RootsMoved(st, st', sn, cut', ps, ns)
    requires forall p :: p in ps + pn ==> Sided(st'.pages[p], sn.sv)
    ensures CutOk(st', sn.(cut := cut'))
  {
    RootExists(st.now);
    OldOldSame(st, sn, st', cut', ps, ns, pn, nn);
    OldRootMoves(st, sn, st', cut', ps, ns, pn, nn);
    OldKept(st, sn, st', cut', ps, ns, pn, nn);
    OldImages(st, sn, st', cut', ps, ns, pn, nn);
    OldOnce(st, sn, st', cut', ps, ns, pn, nn);
  }

  /** The cut can take the effect too. */
  lemma CutFollows(st: Store, sn: Snap, e: Effect)
    requires Keyed(st) && OldSame(st, sn) && Kept(st, sn) && Enabled(st.now, e)
    requires AllOld(st, LeafTouch(e), InnerTouch(e), sn.sv)
    requires forall q :: q in LeafNew(e) ==> q == st.next
    ensures Alike(st.now, sn.cut, e) && Enabled(sn.cut, e)
  {
    EffectKeys(st.now, e);
    EffectRoot(st.now, e);
    AlikeEnabled(st.now, sn.cut, e);
  }

  lemma CutMovesToo(g: H.Stamp, st: Store, sn: Snap, e: Effect, how: How)
    requires Keyed(st) && Enabled(st.now, e) && CanStore(g, st, e, how) && Enabled(sn.cut, e) && Alike(st.now, sn.cut, e)
    ensures CutMoved(Stored(g, st, e, how), sn, Apply(sn.cut, e), LeafTouch(e), InnerTouch(e), LeafNew(e), InnerNew(e))
    ensures RootsMoved(st, Stored(g, st, e, how), sn, Apply(sn.cut, e), LeafTouch(e), InnerTouch(e))
  {
    EffectKeys(sn.cut, e);
    EffectFrame(sn.cut, e);
    EffectRoot(st.now, e);
    EffectRoot(sn.cut, e);
    AlikeApply(st.now, sn.cut, e);
  }

  // ---- a commit, on either side --------------------------------------------------------------------

  /** The touched and new pages of a commit end at most at the guard's version, and at it unless PREPARE. */
  lemma CommitVersions(g: H.Stamp, gv: nat, st: Store, e: Effect, how: How, sv: nat)
    requires Keyed(st) && PagesOk(st, gv) && GuardOk(g, gv) && AllPass(g, st, LeafTouch(e), InnerTouch(e))
    requires Enabled(st.now, e) && CanStore(g, st, e, how)
    ensures g.version <= sv ==> AllOld(Stored(g, st, e, how), LeafTouch(e) + LeafNew(e), InnerTouch(e) + InnerNew(e), sv)
    ensures g.version > sv && !g.phase.Prepare? ==>
      AllNew(Stored(g, st, e, how), LeafTouch(e) + LeafNew(e), InnerTouch(e) + InnerNew(e), sv)
  {
    forall x | x in LeafTouch(e) + LeafNew(e)
      ensures x in Stored(g, st, e, how).pages && Version(Stored(g, st, e, how).pages[x]) <= g.version
      ensures !g.phase.Prepare? ==> Version(Stored(g, st, e, how).pages[x]) == g.version
    {
      CommitLeaf(g, gv, st, e, how, x);
    }
    forall x | x in InnerTouch(e) + InnerNew(e)
      ensures x in Stored(g, st, e, how).iver && Stored(g, st, e, how).iver[x] <= g.version
      ensures !g.phase.Prepare? ==> Stored(g, st, e, how).iver[x] == g.version
    {
      CommitInner(g, gv, st, e, how, x);
    }
  }

  lemma CommitAllSided(g: H.Stamp, gv: nat, st: Store, sn: Snap, e: Effect, how: How)
    requires Keyed(st) && PagesOk(st, gv) && GuardOk(g, gv) && AllPass(g, st, LeafTouch(e), InnerTouch(e))
    requires Enabled(st.now, e) && CanStore(g, st, e, how) && Keyed(Stored(g, st, e, how))
    requires forall p :: p in st.pages ==> Sided(st.pages[p], sn.sv)
    requires g.phase.Prepare? ==> g.version <= sn.sv
    ensures forall p :: p in LeafTouch(e) + LeafNew(e) ==>
      p in Stored(g, st, e, how).pages && Sided(Stored(g, st, e, how).pages[p], sn.sv)
  {
    forall p | p in LeafTouch(e) + LeafNew(e)
      ensures p in Stored(g, st, e, how).pages && Sided(Stored(g, st, e, how).pages[p], sn.sv)
    {
      CommitSided(g, gv, st, e, how, p, sn.sv);
    }
  }

  lemma NewCommit(g: H.Stamp, gv: nat, st: Store, sn: Snap, e: Effect, how: How)
    requires StoreOk(st, gv) && CutOk(st, sn) && NewSide(g, sn) && GuardOk(g, gv)
    requires AllPass(g, st, LeafTouch(e), InnerTouch(e)) && Enabled(st.now, e) && CanStore(g, st, e, how)
    ensures Keyed(Stored(g, st, e, how))
    ensures CutOk(Stored(g, st, e, how), Captured(g, st, sn, LeafTouch(e), InnerTouch(e)))
  {
    CommitMoves(g, st, e, how);
    CommitVersions(g, gv, st, e, how, sn.sv);
    CommitAllSided(g, gv, st, sn, e, how);
    NewMove(g, gv, st, sn, Stored(g, st, e, how), LeafTouch(e), InnerTouch(e), LeafNew(e), InnerNew(e));
  }

  lemma OldCommitAlike(g: H.Stamp, gv: nat, st: Store, sn: Snap, e: Effect, how: How)
    requires Keyed(st) && PagesOk(st, gv) && OldSame(st, sn) && Kept(st, sn)
    requires OldSide(g, sn) && GuardOk(g, gv) && (g.phase.Rest? ==> gv == sn.sv)
    requires AllPass(g, st, LeafTouch(e), InnerTouch(e)) && Enabled(st.now, e) && CanStore(g, st, e, how)
    ensures AllOld(st, LeafTouch(e), InnerTouch(e), sn.sv)
    ensures Enabled(sn.cut, e) && Alike(st.now, sn.cut, e)
    ensures Captured(g, st, sn, LeafTouch(e), InnerTouch(e)) == sn
  {
    OldSidePages(g, gv, st, sn, LeafTouch(e), InnerTouch(e));
    CommitPages(g, st, e, how);
    CutFollows(st, sn, e);
  }

  lemma OldCommit(g: H.Stamp, gv: nat, st: Store, sn: Snap, e: Effect, how: How)
    requires StoreOk(st, gv) && CutOk(st, sn) && OldSide(g, sn) && GuardOk(g, gv) && (g.phase.Rest? ==> gv == sn.sv)
    requires AllPass(g, st, LeafTouch(e), InnerTouch(e)) && Enabled(st.now, e) && CanStore(g, st, e, how)
    ensures Keyed(Stored(g, st, e, how)) && Enabled(sn.cut, e)
    ensures Captured(g, st, sn, LeafTouch(e), InnerTouch(e)) == sn
    ensures CutOk(Stored(g, st, e, how), sn.(cut := Apply(sn.cut, e)))
  {
    OldCommitAlike(g, gv, st, sn, e, how);
    CommitMoves(g, st, e, how);
    OldCommitMoves(g, gv, st, sn, e, how);
  }

  lemma OldCommitMoves(g: H.Stamp, gv: nat, st: Store, sn: Snap, e: Effect, how: How)
    requires StoreOk(st, gv) && CutOk(st, sn) && OldSide(g, sn) && GuardOk(g, gv) && AllOld(st, LeafTouch(e), InnerTouch(e), sn.sv)
    requires AllPass(g, st, LeafTouch(e), InnerTouch(e)) && Enabled(st.now, e) && CanStore(g, st, e, how)
    requires Enabled(sn.cut, e) && Alike(st.now, sn.cut, e) && Keyed(Stored(g, st, e, how))
    ensures CutOk(Stored(g, st, e, how), sn.(cut := Apply(sn.cut, e)))
  {
    CommitMoves(g, st, e, how);
    CutMovesToo(g, st, sn, e, how);
    CommitVersions(g, gv, st, e, how, sn.sv);
    CommitAllSided(g, gv, st, sn, e, how);
    ApplyKeepsWF(sn.cut, e);
    OldMove(gv, st, sn, Stored(g, st, e, how), Apply(sn.cut, e), LeafTouch(e), InnerTouch(e), LeafNew(e), InnerNew(e));
  }
}
