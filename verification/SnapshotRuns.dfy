/** Every step of the snapshot protocol keeps the invariant, and what follows for whole runs. */
module SnapshotRuns {
  import opened Bytes
  import opened TreeShape
  import opened EffectFrames
  import opened LeafCache
  import opened Snapshot
  import opened SnapshotStore
  import opened SnapshotProof
  import H = Handshake

  // ---- guarded operations that change no read ------------------------------------------------------

  lemma TouchLeafMoves(g: H.Stamp, gv: nat, st: Store, p: nat, what: Attempt, sv: nat)
    requires Keyed(st) && PagesOk(st, gv) && GuardOk(g, gv) && p in st.pages && CanTouch(g, st, p, what)
    requires Passes(g, Version(st.pages[p]))
    ensures var st' := st.(pages := st.pages[p := Touched(g, st, p, what)]);
      && Moved(st, st', {p}, {}, {}, {})
      && (g.version <= sv ==> AllOld(st', {p}, {}, sv))
      && (g.version > sv && !g.phase.Prepare? ==> AllNew(st', {p}, {}, sv))
  {
    TouchedOk(g, gv, st, p, what);
  }

  lemma TouchLeafKeepsCut(g: H.Stamp, gv: nat, st: Store, sn: Snap, p: nat, what: Attempt)
    requires StoreOk(st, gv) && CutOk(st, sn) && GuardOk(g, gv) && p in st.pages && CanTouch(g, st, p, what)
    requires AllPass(g, st, {p}, {}) && (NewSide(g, sn) || (OldSide(g, sn) && (g.phase.Rest? ==> gv == sn.sv)))
    ensures var st' := st.(pages := st.pages[p := Touched(g, st, p, what)]);
      Keyed(st') && CutOk(st', Captured(g, st, sn, {p}, {}))
  {
    var st' := st.(pages := st.pages[p := Touched(g, st, p, what)]);
    TouchLeafMoves(g, gv, st, p, what, sn.sv);
    TouchedSided(g, gv, st, p, what, sn.sv);
    if NewSide(g, sn) {
      NewTouch(g, gv, st, sn, st', {p}, {});
    } else {
      OldSidePages(g, gv, st, sn, {p}, {});
      OldTouch(gv, st, sn, st', {p}, {});
    }
  }

  lemma NewTouch(g: H.Stamp, gv: nat, st: Store, sn: Snap, st': Store, ps: set<nat>, ns: set<nat>)
    requires StoreOk(st, gv) && CutOk(st, sn) && NewSide(g, sn)
    requires Moved(st, st', ps, ns, {}, {}) && AllNew(st', ps, ns, sn.sv)
    requires forall p :: p in ps ==> Sided(st'.pages[p], sn.sv)
    ensures CutOk(st', Captured(g, st, sn, ps, ns))
  {
    assert ps + {} == ps && ns + {} == ns;
    NewMove(g, gv, st, sn, st', ps, ns, {}, {});
  }

  /** An old guard that only touched pages leaves the tree, and so the cut, alone. */
  lemma OldTouch(gv: nat, st: Store, sn: Snap, st': Store, ps: set<nat>, ns: set<nat>)
    requires StoreOk(st, gv) && CutOk(st, sn) && st'.now == st.now
    requires !sn.walked && sn.sweptL == map[] && sn.sweptI == map[] && sn.upto == 0
    requires Moved(st, st', ps, ns, {}, {}) && AllOld(st, ps, ns, sn.sv) && AllOld(st', ps, ns, sn.sv)
    requires forall p :: p in ps ==> Sided(st'.pages[p], sn.sv)
    ensures CutOk(st', sn)
  {
    SameCutMoved(st, sn, st', ps, ns);
    assert ps + {} == ps && ns + {} == ns;
    OldMove(gv, st, sn, st', sn.cut, ps, ns, {}, {});
    assert sn.(cut := sn.cut) == sn;
  }

  lemma SameCutMoved(st: Store, sn: Snap, st': Store, ps: set<nat>, ns: set<nat>)
    requires Keyed(st) && OldPagesSame(st, sn) && st'.now == st.now && AllOld(st, ps, ns, sn.sv)
    requires ps <= st.pages.Keys && ns <= st.iver.Keys
    ensures CutMoved(st', sn, sn.cut, ps, ns, {}, {})
  {
  }

  lemma TouchInnerMoves(g: H.Stamp, gv: nat, st: Store, n: nat, sv: nat)
    requires Keyed(st) && PagesOk(st, gv) && GuardOk(g, gv) && n in st.iver && Passes(g, st.iver[n])
    ensures var st' := st.(iver := st.iver[n := Raised(g, st.iver[n])]);
      && Moved(st, st', {}, {n}, {}, {})
      && (g.version <= sv ==> AllOld(st', {}, {n}, sv))
      && (g.version > sv && !g.phase.Prepare? ==> AllNew(st', {}, {n}, sv))
  {
    PassedFits(g, gv, st.iver[n]);
  }

  lemma TouchInnerKeepsCut(g: H.Stamp, gv: nat, st: Store, sn: Snap, n: nat)
    requires StoreOk(st, gv) && CutOk(st, sn) && GuardOk(g, gv) && n in st.iver
    requires AllPass(g, st, {}, {n}) && (NewSide(g, sn) || (OldSide(g, sn) && (g.phase.Rest? ==> gv == sn.sv)))
    ensures var st' := st.(iver := st.iver[n := Raised(g, st.iver[n])]);
      Keyed(st') && CutOk(st', Captured(g, st, sn, {}, {n}))
  {
    var st' := st.(iver := st.iver[n := Raised(g, st.iver[n])]);
    TouchInnerMoves(g, gv, st, n, sn.sv);
    if NewSide(g, sn) {
      NewTouch(g, gv, st, sn, st', {}, {n});
    } else {
      OldSidePages(g, gv, st, sn, {}, {n});
      OldTouch(gv, st, sn, st', {}, {n});
    }
  }

  // ---- reorganisations -----------------------------------------------------------------------------

  /** A reorganisation never takes a leaf across the cut. */
  lemma ReorgSide(p: Page, how: Reorg, sv: nat)
    requires PageOk(p) && CanReorg(p, how) && Sided(p, sv)
    ensures Version(Reorganise(p, how)) > sv <==> Version(p) > sv
    ensures Sided(Reorganise(p, how), sv)
    ensures Reorganise(p, how).loc.AtMini? ==> p.loc.AtMini? && Reorganise(p, how).loc.c.size == p.loc.c.size
  {
  }

  lemma TidyKeepsCut(st: Store, sn: Snap, p: nat, how: Reorg)
    requires Keyed(st) && CutOk(st, sn) && p in st.pages && PageOk(st.pages[p]) && CanReorg(st.pages[p], how)
    ensures var st' := st.(pages := st.pages[p := Reorganise(st.pages[p], how)]); Keyed(st') && CutOk(st', sn)
  {
    var st' := st.(pages := st.pages[p := Reorganise(st.pages[p], how)]);
    ReorgSide(st.pages[p], how, sn.sv);
    TidyRoot(st, st', p, sn.sv);
    TidyParts(st, sn, st', p);
  }

  lemma TidyRoot(st: Store, st': Store, p: nat, sv: nat)
    requires p in st.pages && p in st'.pages && st' == st.(pages := st.pages[p := st'.pages[p]])
    requires Version(st'.pages[p]) > sv <==> Version(st.pages[p]) > sv
    ensures RefVer(st', st.now.root) > sv <==> RefVer(st, st.now.root) > sv
  {
  }

  lemma TidyParts(st: Store, sn: Snap, st': Store, p: nat)
    requires Keyed(st) && Keyed(st') && p in st.pages && p in st'.pages && st' == st.(pages := st.pages[p := st'.pages[p]])
    requires Version(st'.pages[p]) > sn.sv <==> Version(st.pages[p]) > sn.sv
    requires RefVer(st', st.now.root) > sn.sv <==> RefVer(st, st.now.root) > sn.sv
    requires st'.pages[p].loc.AtMini? ==> st.pages[p].loc.AtMini? && st'.pages[p].loc.c.size == st.pages[p].loc.c.size
    ensures OldSame(st, sn) ==> OldSame(st', sn)
    ensures Kept(st, sn) ==> Kept(st', sn)
    ensures OncePerPage(st, sn) ==> OncePerPage(st', sn)
    ensures SameSizes(st, sn) ==> SameSizes(st', sn)
  {
  }

  lemma TidyKeepsStore(st: Store, gv: nat, p: nat, how: Reorg)
    requires StoreOk(st, gv) && p in st.pages && st.now.root != LeafRef(p) && CanReorg(st.pages[p], how)
    ensures StoreOk(st.(pages := st.pages[p := Reorganise(st.pages[p], how)]), gv)
  {
    ReorgKeepsOk(st.pages[p], how);
    ReorgLowersVersion(st.pages[p], how);
    forall k ensures Look(Reorganise(st.pages[p], how), k) == Look(st.pages[p], k) { ReorgKeepsReads(st.pages[p], how, k); }
    ReplacedKeepsStore(gv, st, p, Reorganise(st.pages[p], how));
  }

  // ---- the sweep -----------------------------------------------------------------------------------

  lemma WalkImages(s: State, s': State, gv: nat)
    requires Walk(s, s') && Keyed(s.st) && PagesOk(s.st, gv) && OldSame(s.st, s.sn) && ImagesOk(s.sn)
    ensures ImagesOk(s'.sn)
  {
    var r := s.st.now.root;
    if r.LeafRef? && r.id in s.st.pages { ShotShows(s.st.pages[r.id], s.st.now.leaves[r.id]); }
  }

  lemma WalkKept(s: State, s': State)
    requires Walk(s, s') && Keyed(s.st) && Kept(s.st, s.sn)
    requires s.sn.sweptL == map[] && s.sn.sweptI == map[] && s.sn.upto == 0
    ensures Kept(s'.st, s'.sn)
  {
  }

  lemma WalkOnce(s: State, s': State)
    requires Walk(s, s') && RootAtBase(s.st) && OncePerPage(s.st, s.sn) && s.sn.sweptL == map[]
    ensures OncePerPage(s'.st, s'.sn) && SameSizes(s'.st, s'.sn)
  {
  }

  lemma WalkKeepsCut(s: State, s': State, gv: nat)
    requires Walk(s, s') && StoreOk(s.st, gv) && CutOk(s.st, s.sn)
    requires s.sn.sweptL == map[] && s.sn.sweptI == map[] && s.sn.upto == 0
    ensures CutOk(s'.st, s'.sn)
  {
    WalkImages(s, s', gv);
    WalkKept(s, s');
    WalkOnce(s, s');
  }

  lemma SweepPageImages(s: State, s': State, gv: nat)
    requires SweepPage(s, s') && Keyed(s.st) && PagesOk(s.st, gv) && OldPagesSame(s.st, s.sn) && ImagesOk(s.sn)
    ensures ImagesOk(s'.sn)
  {
    var p := s.sn.upto;
    if p in s.st.pages { ShotShows(s.st.pages[p], s.st.now.leaves[p]); }
  }

  lemma SweepPageKeepsCut(s: State, s': State, gv: nat)
    requires SweepPage(s, s') && StoreOk(s.st, gv) && CutOk(s.st, s.sn)
    ensures CutOk(s'.st, s'.sn)
  {
    SweepPageImages(s, s', gv);
    SweepPageKept(s, s');
  }

  lemma SweepPageKept(s: State, s': State)
    requires SweepPage(s, s') && Keyed(s.st) && Kept(s.st, s.sn) && OncePerPage(s.st, s.sn) && SameSizes(s.st, s.sn)
    ensures Kept(s'.st, s'.sn) && SameSizes(s'.st, s'.sn)
  {
  }

  // ---- the handshake's steps -----------------------------------------------------------------------

  lemma OpenedCut(st: Store, sv: nat)
    requires StoreOk(st, sv)
    ensures CutOk(st, Snap(sv, st.now, map[], map[], map[], map[], None, false, 0, 0))
  {
    OpenedVersions(st, sv);
  }

  lemma OpenedVersions(st: Store, sv: nat)
    requires Keyed(st) && PagesOk(st, sv)
    ensures RefVer(st, st.now.root) <= sv
    ensures forall p :: p in st.pages ==> Sided(st.pages[p], sv)
  {
  }

  lemma StartOpensCut(s: State, s': State)
    requires Shake(s, s') && H.Inv(s.hs) && s.hs.mgr.Idle? && !s'.hs.mgr.Idle? && StoreOk(s.st, s.hs.global.version)
    ensures CutOk(s'.st, s'.sn)
  {
    OpenedCut(s.st, s.hs.global.version);
  }

  lemma StartPhase(s: State, s': State)
    requires Shake(s, s') && H.Inv(s.hs) && s.hs.mgr.Idle? && !s'.hs.mgr.Idle?
    ensures PhaseOk(s'.hs, s'.st, s'.sn)
  {
  }

  lemma ShakeKeepsPhase(s: State, s': State)
    requires Shake(s, s') && H.Inv(s.hs) && !s.hs.mgr.Idle? && !s'.hs.mgr.Idle?
    requires Keyed(s.st) && Kept(s.st, s.sn) && PhaseOk(s.hs, s.st, s.sn)
    ensures PhaseOk(s'.hs, s'.st, s'.sn)
  {
  }

  lemma ShakeKeepsCut(s: State, s': State)
    requires Shake(s, s') && !s.hs.mgr.Idle? && Keyed(s.st) && CutOk(s.st, s.sn)
    ensures CutOk(s'.st, s'.sn)
  {
  }

  lemma ShakeVersion(s: State, s': State)
    requires Shake(s, s')
    ensures s.hs.global.version <= s'.hs.global.version
    ensures s.hs.mgr.Idle? && !s'.hs.mgr.Idle? ==> s'.sn.sv == s.hs.global.version && s'.sn.cut == s.st.now
    ensures !(s.hs.mgr.Idle? && !s'.hs.mgr.Idle?) ==> s'.sn.sv == s.sn.sv && s'.sn.cut == s.sn.cut
  {
  }

  // ---- the history ---------------------------------------------------------------------------------

  lemma ReplayAppend(t: Tree, h: seq<Txn>, x: Txn, u: Tree)
    requires Replay(t, h) == Some(u) && Enabled(u, x.effect)
    ensures Replay(t, h + [x]) == Some(Apply(u, x.effect))
  {
    assert (h + [x])[..|h|] == h;
  }

  lemma UptoAppend(h: seq<Txn>, x: Txn, sv: nat)
    ensures Upto(h + [x], sv) == Upto(h, sv) + if x.version <= sv then [x] else []
  {
    assert (h + [x])[..|h|] == h;
  }

  lemma {:induction false} UptoAll(h: seq<Txn>, sv: nat)
    requires forall i :: 0 <= i < |h| ==> h[i].version <= sv
    ensures Upto(h, sv) == h
  {
    if |h| > 0 {
      var front, x := h[..|h| - 1], h[|h| - 1];
      assert h == front + [x];
      UptoAll(front, sv);
      UptoAppend(front, x, sv);
    }
  }

  lemma CommitHistory(s: State, w: nat, e: Effect, how: How, s': State, origin: Tree)
    requires Commit(s, w, e, how, s') && HistoryOk(s, origin) && s.hs.slots[w].pc.g.version <= s.hs.global.version
    requires !s.hs.mgr.Idle? && s.hs.slots[w].pc.g.version <= s.sn.sv ==> Enabled(s.sn.cut, e)
    ensures HistoryOk(s', origin)
  {
    var x := Txn(s.hs.slots[w].pc.g.version, e);
    ReplayAppend(origin, s.history, x, s.st.now);
    UptoAppend(s.history, x, s.sn.sv);
    if x.version > s.sn.sv {
      assert Upto(s'.history, s.sn.sv) == Upto(s.history, s.sn.sv);
    } else if !s.hs.mgr.Idle? {
      ReplayAppend(origin, Upto(s.history, s.sn.sv), x, s.sn.cut);
    }
  }

  // ---- every step ----------------------------------------------------------------------------------

  lemma CommitKeepsCut(s: State, w: nat, e: Effect, how: How, s': State)
    requires Commit(s, w, e, how, s') && H.Inv(s.hs) && !s.hs.mgr.Idle?
    requires StoreOk(s.st, s.hs.global.version) && CutOk(s.st, s.sn) && PhaseOk(s.hs, s.st, s.sn)
    ensures Keyed(s'.st) && CutOk(s'.st, s'.sn)
    ensures s.hs.slots[w].pc.g.version <= s.sn.sv ==> Enabled(s.sn.cut, e)
    ensures PhaseOk(s'.hs, s'.st, s'.sn)
  {
    var g, gv := s.hs.slots[w].pc.g, s.hs.global.version;
    HeldGuardOk(s.hs, w);
    SideOf(s.hs, s.st, s.sn, w);
    if NewSide(g, s.sn) {
      NewCommit(g, gv, s.st, s.sn, e, how);
    } else {
      OldCommit(g, gv, s.st, s.sn, e, how);
    }
  }

  lemma CommitKeepsInv(s: State, w: nat, e: Effect, how: How, s': State, origin: Tree)
    requires Commit(s, w, e, how, s') && Inv(s, origin)
    ensures Inv(s', origin)
  {
    HeldGuardOk(s.hs, w);
    CommitKeepsStore(s.hs.slots[w].pc.g, s.hs.global.version, s.st, e, how);
    if !s.hs.mgr.Idle? { CommitKeepsCut(s, w, e, how, s'); }
    CommitHistory(s, w, e, how, s', origin);
  }

  lemma TouchLeafKeepsInv(s: State, w: nat, p: nat, what: Attempt, s': State, origin: Tree)
    requires TouchLeaf(s, w, p, what, s') && Inv(s, origin)
    ensures Inv(s', origin)
  {
    var g, gv := s.hs.slots[w].pc.g, s.hs.global.version;
    HeldGuardOk(s.hs, w);
    TouchedOk(g, gv, s.st, p, what);
    ReplacedKeepsStore(gv, s.st, p, Touched(g, s.st, p, what));
    if !s.hs.mgr.Idle? {
      SideOf(s.hs, s.st, s.sn, w);
      TouchLeafKeepsCut(g, gv, s.st, s.sn, p, what);
    }
  }

  lemma RaisedKeepsStore(g: H.Stamp, gv: nat, st: Store, n: nat)
    requires StoreOk(st, gv) && GuardOk(g, gv) && n in st.iver && Passes(g, st.iver[n])
    ensures StoreOk(st.(iver := st.iver[n := Raised(g, st.iver[n])]), gv)
  {
  }

  lemma TouchInnerKeepsInv(s: State, w: nat, n: nat, s': State, origin: Tree)
    requires TouchInner(s, w, n, s') && Inv(s, origin)
    ensures Inv(s', origin)
  {
    var g, gv := s.hs.slots[w].pc.g, s.hs.global.version;
    HeldGuardOk(s.hs, w);
    RaisedKeepsStore(g, gv, s.st, n);
    if !s.hs.mgr.Idle? {
      SideOf(s.hs, s.st, s.sn, w);
      TouchInnerKeepsCut(g, gv, s.st, s.sn, n);
    }
  }

  lemma TidyKeepsInv(s: State, p: nat, how: Reorg, s': State, origin: Tree)
    requires Tidy(s, p, how, s') && Inv(s, origin)
    ensures Inv(s', origin)
  {
    TidyKeepsStore(s.st, s.hs.global.version, p, how);
    if !s.hs.mgr.Idle? { TidyKeepsCut(s.st, s.sn, p, how); }
  }

  lemma WalkKeepsInv(s: State, s': State, origin: Tree)
    requires Walk(s, s') && Inv(s, origin)
    ensures Inv(s', origin)
  {
    WalkKeepsCut(s, s', s.hs.global.version);
  }

  lemma SweepPageKeepsInv(s: State, s': State, origin: Tree)
    requires SweepPage(s, s') && Inv(s, origin)
    ensures Inv(s', origin)
  {
    SweepPageKeepsCut(s, s', s.hs.global.version);
  }

  lemma ShakeKeepsHistory(s: State, s': State, origin: Tree)
    requires Shake(s, s') && HistoryOk(s, origin)
    ensures HistoryOk(s', origin)
  {
    ShakeVersion(s, s');
    if s.hs.mgr.Idle? && !s'.hs.mgr.Idle? { UptoAll(s.history, s'.sn.sv); }
  }

  lemma ShakeKeepsInv(s: State, s': State, origin: Tree)
    requires Shake(s, s') && Inv(s, origin)
    ensures Inv(s', origin)
  {
    H.NextKeepsInv(s.hs, s'.hs);
    ShakeVersion(s, s');
    ShakeKeepsHistory(s, s', origin);
    if !s'.hs.mgr.Idle? {
      if s.hs.mgr.Idle? { StartOpensCut(s, s'); StartPhase(s, s'); } else { ShakeKeepsCut(s, s'); ShakeKeepsPhase(s, s'); }
    }
  }

  lemma NextKeepsInv(s: State, step: Step, s': State, origin: Tree)
    requires Next(s, step, s') && Inv(s, origin)
    ensures Inv(s', origin)
  {
    match step
    case DoShake => ShakeKeepsInv(s, s', origin);
    case DoCommit(w, e, how) => CommitKeepsInv(s, w, e, how, s', origin);
    case DoTouchLeaf(w, p, what) => TouchLeafKeepsInv(s, w, p, what, s', origin);
    case DoTouchInner(w, n) => TouchInnerKeepsInv(s, w, n, s', origin);
    case DoTidy(p, reorg) => TidyKeepsInv(s, p, reorg, s', origin);
    case DoWalk => WalkKeepsInv(s, s', origin);
    case DoSweepPage => SweepPageKeepsInv(s, s', origin);
  }
}
