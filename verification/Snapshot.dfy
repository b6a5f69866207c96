/** The CPR snapshot of a disk-mode tree while writers keep running.

    The state joins the phase handshake, the stored tree (leaves as cached pages with versions, inner nodes
    with versions) and what has been captured.  What an operation does under its page locks is one step, and
    it acts by the state `g` of the guard it holds, which may lag the global state by one.

    `cut` is the tree the snapshot must show: the effects of guards of version `sv` and below, and no other.
    No step of the source reads it; the invariant ties every captured image to it. */
module Snapshot {
  import opened Bytes
  import opened TreeShape
  import opened EffectFrames
  import opened LeafCache
  import H = Handshake

  /** The stored tree.  `next` is the length of the page table, the next leaf id to hand out. */
  datatype Store = Store(now: Tree, pages: map<nat, Page>, iver: map<nat, nat>, next: nat)

  /** The image of a leaf: a mini page captured with its base page, or a base (or full) page alone. */
  datatype Shot = Shot(mini: Option<Cached>, base: Node)

  /** Captures by workers (`work…`), by the sweep (`swept…`), the recorded root, and how far the sweep is. */
  datatype Snap = Snap(
    sv: nat, cut: Tree,
    workI: map<nat, Inner>, workL: map<nat, Shot>,
    sweptI: map<nat, Inner>, sweptL: map<nat, Shot>,
    root: Option<Ref>, walked: bool, upto: nat, high: nat)

  datatype Txn = Txn(version: nat, effect: Effect)

  datatype State = State(hs: H.State, st: Store, sn: Snap, history: seq<Txn>)

  function ShotOf(p: Page): Shot {
    match p.loc
    case AtBase => Shot(None, p.base)
    case AtFull(c) => Shot(None, Node(c.version, c.recs))
    case AtMini(c) => Shot(Some(c), p.base)
  }

  /** A captured leaf read back: mini image over base image. */
  function ShotGet(x: Shot, k: Key): Option<Value> {
    if x.mini.Some? then Over(x.mini.value.recs, x.base.recs, k) else RecGet(x.base.recs, k)
  }

  function RefVer(st: Store, r: Ref): nat {
    match r
    case LeafRef(p) => if p in st.pages then Version(st.pages[p]) else 0
    case InnerRef(n) => if n in st.iver then st.iver[n] else 0
  }

  // ---- the version rules of a guard ----------------------------------------------------------------

  /** PREPARE guards give up on a page that is already newer. */
  predicate Passes(g: H.Stamp, ver: nat) { g.phase.Prepare? ==> ver <= g.version }

  /** IN_PROGRESS and SWEEP guards capture an older page before they change it. */
  predicate Captures(g: H.Stamp, ver: nat) { (g.phase.InProgress? || g.phase.Sweep?) && ver < g.version }

  /** All but PREPARE guards raise an older page to their own version. */
  function Raised(g: H.Stamp, ver: nat): nat { if !g.phase.Prepare? && ver < g.version then g.version else ver }

  function RaisedPage(g: H.Stamp, p: Page): Page {
    if Raised(g, Version(p)) == Version(p) then p
    else if p.loc.AtBase? then p.(base := p.base.(version := g.version))
    else p.(loc := p.loc.(c := p.loc.c.(version := g.version, changed := true)))
  }

  // ---- what a guarded transaction does -------------------------------------------------------------

  /** How the pages of an effect are stored: where a record lands, or nothing to choose for a split. */
  datatype How = Record(k: Key, r: Rec, land: Landing) | Split

  predicate CanStore(g: H.Stamp, st: Store, e: Effect, how: How) {
    match e
    case Put(p, k, v) => p in st.pages && how.Record? && how.k == k && how.r == Rec(Insert, v) && CanWrite(g, st, p, how)
    case Remove(p, k) => p in st.pages && how.Record? && how.k == k && how.r.op.Delete? && CanWrite(g, st, p, how)
    case SplitLeaf(n, p, q, key) => p in st.pages && n in st.iver && st.pages[p].loc.AtMini? && q == st.next
    case SplitRootLeaf(p, q, m, key) => p in st.pages && st.pages[p].loc.AtBase? && q == st.next
    case SplitInner(n, c, d) => n in st.iver && c in st.iver
    case SplitRootInner(c, d, m) => c in st.iver
  }

  predicate CanWrite(g: H.Stamp, st: Store, p: nat, how: How)
    requires p in st.pages && how.Record?
  {
    var page := RaisedPage(g, st.pages[p]);
    && MayWrite(page, how.k, how.r) && CanLand(page, how.land, how.r)
    && (how.land.InRoot? <==> st.now.root == LeafRef(p))
  }

  function Written(g: H.Stamp, st: Store, p: nat, how: How): Page
    requires p in st.pages && how.Record? && CanWrite(g, st, p, how)
  {
    Write(RaisedPage(g, st.pages[p]), how.land, g.version, how.k, how.r)
  }

  function StoredPages(g: H.Stamp, st: Store, e: Effect, how: How): map<nat, Page>
    requires CanStore(g, st, e, how)
  {
    match e
    case Put(p, k, v) => st.pages[p := Written(g, st, p, how)]
    case Remove(p, k) => st.pages[p := Written(g, st, p, how)]
    case SplitLeaf(n, p, q, key) =>
      st.pages[p := Half(st.pages[p], key, true, g.version)][q := Half(st.pages[p], key, false, g.version)]
    case SplitRootLeaf(p, q, m, key) =>
      st.pages[p := Half(st.pages[p], key, true, g.version)][q := Half(st.pages[p], key, false, g.version)]
    case _ => st.pages
  }

  function StoredIver(g: H.Stamp, st: Store, e: Effect, how: How): map<nat, nat>
    requires CanStore(g, st, e, how)
  {
    match e
    case SplitLeaf(n, p, q, key) => st.iver[n := Raised(g, st.iver[n])]
    case SplitRootLeaf(p, q, m, key) => st.iver[m := g.version]
    case SplitInner(n, c, d) => st.iver[n := Raised(g, st.iver[n])][c := g.version][d := g.version]
    case SplitRootInner(c, d, m) => st.iver[c := g.version][d := g.version][m := g.version]
    case _ => st.iver
  }

  function Stored(g: H.Stamp, st: Store, e: Effect, how: How): Store
    requires Enabled(st.now, e) && CanStore(g, st, e, how)
  {
    Store(Apply(st.now, e), StoredPages(g, st, e, how), StoredIver(g, st, e, how),
          st.next + if e.SplitLeaf? || e.SplitRootLeaf? then 1 else 0)
  }

  /** The captures a guard makes before it changes leaves `ps` and inner nodes `ns`. */
  function Captured(g: H.Stamp, st: Store, sn: Snap, ps: set<nat>, ns: set<nat>): Snap {
    sn.(workL := sn.workL + map p | p in ps && p in st.pages && Captures(g, Version(st.pages[p])) :: ShotOf(st.pages[p]),
        workI := sn.workI + map n | n in ns && n in st.iver && n in st.now.inners && Captures(g, st.iver[n]) :: st.now.inners[n],
        root := if RootAmong(st, ps, ns) && Captures(g, RefVer(st, st.now.root)) then Some(st.now.root) else sn.root)
  }

  predicate RootAmong(st: Store, ps: set<nat>, ns: set<nat>) {
    match st.now.root
    case LeafRef(p) => p in ps
    case InnerRef(n) => n in ns && n in st.now.inners && st.now.inners[n].isRoot
  }

  function CutAfter(g: H.Stamp, sn: Snap, e: Effect): Tree {
    if g.version <= sn.sv && Enabled(sn.cut, e) then Apply(sn.cut, e) else sn.cut
  }

  predicate AllPass(g: H.Stamp, st: Store, ps: set<nat>, ns: set<nat>) {
    && (forall p :: p in ps && p in st.pages ==> Passes(g, Version(st.pages[p])))
    && (forall n :: n in ns && n in st.iver ==> Passes(g, st.iver[n]))
  }

  /** A transaction of the guard in slot `w`: a record write or a split. */
  predicate Commit(s: State, w: nat, e: Effect, how: How, s': State) {
    && H.HoldsGuard(s.hs, w) && var g := s.hs.slots[w].pc.g;
    && AllPass(g, s.st, LeafTouch(e), InnerTouch(e))
    && Enabled(s.st.now, e) && CanStore(g, s.st, e, how)
    && s'.hs == s.hs && s'.st == Stored(g, s.st, e, how)
    && s'.sn == Captured(g, s.st, s.sn, LeafTouch(e), InnerTouch(e)).(cut := CutAfter(g, s.sn, e))
    && s'.history == s.history + [Txn(g.version, e)]
  }

  /** A guarded operation on leaf `p` that changes no read: a record copied into the cache, or an attempt
      that captured and raised the page and then failed.  A failed merge also raises the base page. */
  datatype Attempt = CacheRecord(how: How) | Failed | FailedMerge

  predicate CanTouch(g: H.Stamp, st: Store, p: nat, what: Attempt)
    requires p in st.pages
  {
    match what
    case CacheRecord(how) => how.Record? && how.r.op.Cache? && st.now.root != LeafRef(p) && CanWrite(g, st, p, how)
    case Failed => true
    case FailedMerge => st.pages[p].loc.AtMini?
  }

  function Touched(g: H.Stamp, st: Store, p: nat, what: Attempt): Page
    requires p in st.pages && CanTouch(g, st, p, what)
  {
    match what
    case CacheRecord(how) => Written(g, st, p, how)
    case Failed => RaisedPage(g, st.pages[p])
    case FailedMerge =>
      var page := RaisedPage(g, st.pages[p]);
      if Captures(g, Version(st.pages[p])) then page.(base := page.base.(version := g.version)) else page
  }

  predicate TouchLeaf(s: State, w: nat, p: nat, what: Attempt, s': State) {
    && H.HoldsGuard(s.hs, w) && var g := s.hs.slots[w].pc.g;
    && p in s.st.pages && AllPass(g, s.st, {p}, {}) && CanTouch(g, s.st, p, what)
    && s' == s.(st := s.st.(pages := s.st.pages[p := Touched(g, s.st, p, what)]), sn := Captured(g, s.st, s.sn, {p}, {}))
  }

  /** A guarded split that captured and raised inner node `n` and then found no room in the parent. */
  predicate TouchInner(s: State, w: nat, n: nat, s': State) {
    && H.HoldsGuard(s.hs, w) && var g := s.hs.slots[w].pc.g;
    && n in s.st.iver && AllPass(g, s.st, {}, {n})
    && s' == s.(st := s.st.(iver := s.st.iver[n := Raised(g, s.st.iver[n])]), sn := Captured(g, s.st, s.sn, {}, {n}))
  }

  /** Eviction, merging, promotion: no guard needed, and never on a root leaf. */
  predicate Tidy(s: State, p: nat, how: Reorg, s': State) {
    && p in s.st.pages && s.st.now.root != LeafRef(p) && CanReorg(s.st.pages[p], how)
    && s' == s.(st := s.st.(pages := s.st.pages[p := Reorganise(s.st.pages[p], how)]))
  }

  // ---- the manager's sweep -------------------------------------------------------------------------

  /** The inner nodes the sweep captures. */
  function SweptInner(st: Store, sv: nat): map<nat, Inner> {
    map n | n in st.now.inners && n in st.iver && st.iver[n] <= sv :: st.now.inners[n]
  }

  /** Under the freeze: the root and every inner node older than the new version, in one step, since the tree
      stands still meanwhile (`SnapshotTheorems.FrozenTreeIsFixed`).  `SnapshotWalk.SweepInner` is the walk. */
  predicate Walk(s: State, s': State) {
    && s.hs.mgr.Frozen? && !s.sn.walked
    && s' == s.(sn := s.sn.(
         walked := true,
         sweptI := SweptInner(s.st, s.sn.sv),
         sweptL := if s.st.now.root.LeafRef? && s.st.now.root.id in s.st.pages && RefVer(s.st, s.st.now.root) <= s.sn.sv
                   then map[s.st.now.root.id := ShotOf(s.st.pages[s.st.now.root.id])] else map[],
         root := if RefVer(s.st, s.st.now.root) <= s.sn.sv then Some(s.st.now.root) else s.sn.root))
  }

  /** One entry of the page table, under a shared leaf lock.  The first image of a page is kept. */
  predicate SweepPage(s: State, s': State) {
    && s.hs.mgr.Table? && s.sn.upto < s.sn.high
    && var p := s.sn.upto;
    s' == s.(sn := s.sn.(
         upto := p + 1,
         sweptL := if p in s.st.pages && Version(s.st.pages[p]) <= s.sn.sv && p !in s.sn.sweptL
                   then s.sn.sweptL[p := ShotOf(s.st.pages[p])] else s.sn.sweptL))
  }

  /** The handshake's own steps; starting a snapshot opens a new cut, and the manager moves on from the
      freeze and from the table only when that part of the sweep is complete. */
  ghost predicate Shake(s: State, s': State) {
    && H.Next(s.hs, s'.hs) && s'.st == s.st && s'.history == s.history
    && (s.hs.mgr.Frozen? && !s'.hs.mgr.Frozen? ==> s.sn.walked)
    && (s.hs.mgr.Table? && !s'.hs.mgr.Table? ==> s.sn.upto >= s.sn.high)
    && s'.sn ==
       if s.hs.mgr.Idle? && !s'.hs.mgr.Idle? then
         Snap(s.hs.global.version, s.st.now, map[], map[], map[], map[], None, false, 0, 0)
       else if s.hs.mgr.Frozen? && !s'.hs.mgr.Frozen? then s.sn.(upto := 0, high := s.st.next)
       else s.sn
  }

  datatype Step =
    | DoShake
    | DoCommit(w: nat, e: Effect, how: How)
    | DoTouchLeaf(w: nat, p: nat, what: Attempt)
    | DoTouchInner(w: nat, n: nat)
    | DoTidy(p: nat, reorg: Reorg)
    | DoWalk
    | DoSweepPage

  ghost predicate Next(s: State, step: Step, s': State) {
    match step
    case DoShake => Shake(s, s')
    case DoCommit(w, e, how) => Commit(s, w, e, how, s')
    case DoTouchLeaf(w, p, what) => TouchLeaf(s, w, p, what, s')
    case DoTouchInner(w, n) => TouchInner(s, w, n, s')
    case DoTidy(p, reorg) => Tidy(s, p, reorg, s')
    case DoWalk => Walk(s, s')
    case DoSweepPage => SweepPage(s, s')
  }

  // ---- invariants ----------------------------------------------------------------------------------

  ghost predicate Shows(p: Page, l: Leaf) { forall k :: Look(p, k) == LeafGet(l, k) }

  ghost predicate ShotOk(x: Shot, l: Leaf) { forall k :: ShotGet(x, k) == LeafGet(l, k) }

  predicate Keyed(st: Store) {
    && st.pages.Keys == st.now.leaves.Keys && st.iver.Keys == st.now.inners.Keys
    && forall p :: p in st.pages ==> p < st.next
  }

  /** Every stored leaf shows the tree's leaf, and versions are bounded. */
  ghost predicate PagesOk(st: Store, gv: nat)
    requires Keyed(st)
  {
    && (forall p :: p in st.pages ==> PageOk(st.pages[p]) && Version(st.pages[p]) <= gv)
    && (forall p :: p in st.pages ==> Shows(st.pages[p], st.now.leaves[p]))
    && (forall n :: n in st.iver ==> st.iver[n] <= gv)
  }

  /** A root leaf has no cached page. */
  predicate RootAtBase(st: Store) {
    st.now.root.LeafRef? && st.now.root.id in st.pages ==> st.pages[st.now.root.id].loc.AtBase?
  }

  ghost predicate StoreOk(st: Store, gv: nat) {
    WF(st.now) && Keyed(st) && PagesOk(st, gv) && RootAtBase(st)
  }

  /** The base page may be left behind in version only while the cached page is marked changed, or where the
      snapshot does not tell the two apart. */
  predicate Sided(p: Page, sv: nat) {
    !p.loc.AtBase? && !p.loc.c.changed && p.loc.c.version > sv ==> p.base.version > sv
  }

  /** A page the new version has not touched is still as the cut has it. */
  predicate OldSame(st: Store, sn: Snap)
    requires Keyed(st)
  {
    OldPagesSame(st, sn) && OldRootSame(st, sn)
  }

  predicate OldPagesSame(st: Store, sn: Snap)
    requires Keyed(st)
  {
    && (forall p :: p in st.pages && Version(st.pages[p]) <= sn.sv ==> p in sn.cut.leaves && sn.cut.leaves[p] == st.now.leaves[p])
    && (forall n :: n in st.iver && st.iver[n] <= sn.sv ==> n in sn.cut.inners && sn.cut.inners[n] == st.now.inners[n])
  }

  predicate OldRootSame(st: Store, sn: Snap) {
    RefVer(st, st.now.root) <= sn.sv ==> sn.cut.root == st.now.root
  }

  /** A page of the cut that the new version has touched, or the sweep has passed, is captured. */
  predicate Kept(st: Store, sn: Snap) {
    && sn.cut.leaves.Keys <= st.pages.Keys && sn.cut.inners.Keys <= st.iver.Keys
    && (forall p :: p in sn.cut.leaves && (Version(st.pages[p]) > sn.sv || p < sn.upto) ==> p in sn.workL || p in sn.sweptL)
    && (forall n :: n in sn.cut.inners && (st.iver[n] > sn.sv || sn.walked) ==> n in sn.workI || n in sn.sweptI)
    && (RefVer(st, st.now.root) > sn.sv || sn.walked ==> sn.root.Some?)
  }

  /** Every image is an image of the cut. */
  ghost predicate ImagesOk(sn: Snap) {
    && (forall p :: p in sn.workL ==> p in sn.cut.leaves && ShotOk(sn.workL[p], sn.cut.leaves[p]))
    && (forall p :: p in sn.sweptL ==> p in sn.cut.leaves && ShotOk(sn.sweptL[p], sn.cut.leaves[p]))
    && (forall n :: n in sn.workI ==> n in sn.cut.inners && sn.workI[n] == sn.cut.inners[n])
    && (forall n :: n in sn.sweptI ==> n in sn.cut.inners && sn.sweptI[n] == sn.cut.inners[n])
    && (sn.root.Some? ==> sn.root.value == sn.cut.root)
  }

  /** Workers capture a page, and record a root, only when they take it past the cut. */
  predicate OncePerPage(st: Store, sn: Snap) {
    && (forall p :: p in sn.workL && p in st.pages ==> Version(st.pages[p]) > sn.sv)
    && (forall n :: n in sn.workI && n in st.iver ==> st.iver[n] > sn.sv)
    && (sn.root.Some? && !sn.walked ==> RefVer(st, st.now.root) > sn.sv)
  }

  /** A mini page does not change size between the sweep's capture and a worker's. */
  predicate SameSizes(st: Store, sn: Snap) {
    && (forall p :: p in sn.sweptL && p in st.pages && Version(st.pages[p]) <= sn.sv && st.pages[p].loc.AtMini? ==>
          sn.sweptL[p].mini.Some? && sn.sweptL[p].mini.value.size == st.pages[p].loc.c.size)
    && (forall p :: p in sn.workL && p in sn.sweptL && sn.workL[p].mini.Some? ==>
          sn.sweptL[p].mini.Some? && sn.sweptL[p].mini.value.size == sn.workL[p].mini.value.size)
  }

  ghost predicate CutOk(st: Store, sn: Snap)
    requires Keyed(st)
  {
    && WF(sn.cut) && OldSame(st, sn) && Kept(st, sn) && ImagesOk(sn) && OncePerPage(st, sn) && SameSizes(st, sn)
    && forall p :: p in st.pages ==> Sided(st.pages[p], sn.sv)
  }

  /** How far the sweep is in each phase. */
  predicate PhaseOk(hs: H.State, st: Store, sn: Snap) {
    && hs.global.version == sn.sv + (if hs.global.phase.Prepare? then 0 else 1)
    && (!sn.walked ==> sn.sweptL == map[] && sn.sweptI == map[])
    && (hs.mgr.Frozen? || !sn.walked ==> sn.upto == 0)
    && (hs.global.phase.Prepare? || hs.global.phase.InProgress? ==> !sn.walked)
    && (hs.global.phase.Sweep? && !hs.mgr.Frozen? && !hs.mgr.Table? ==> !sn.walked)
    && (hs.mgr.Table? ==> sn.walked && sn.upto <= sn.high && forall p :: p in sn.cut.leaves ==> p < sn.high)
    && (hs.global.phase.Rest? ==> sn.walked && forall p :: p in sn.cut.leaves ==> p < sn.upto)
  }

  // ---- the history ---------------------------------------------------------------------------------

  /** The tree after a list of transactions; `None` when one of them does not apply. */
  function Replay(t: Tree, h: seq<Txn>): Option<Tree> {
    if |h| == 0 then Some(t)
    else
      match Replay(t, h[..|h| - 1])
      case None => None
      case Some(u) => if Enabled(u, h[|h| - 1].effect) then Some(Apply(u, h[|h| - 1].effect)) else None
  }

  /** The transactions of version `sv` and below, in order. */
  function Upto(h: seq<Txn>, sv: nat): seq<Txn> {
    if |h| == 0 then []
    else Upto(h[..|h| - 1], sv) + if h[|h| - 1].version <= sv then [h[|h| - 1]] else []
  }

  ghost predicate HistoryOk(s: State, origin: Tree) {
    && Replay(origin, s.history) == Some(s.st.now)
    && (forall i :: 0 <= i < |s.history| ==> s.history[i].version <= s.hs.global.version)
    && (!s.hs.mgr.Idle? ==> Replay(origin, Upto(s.history, s.sn.sv)) == Some(s.sn.cut))
  }

  ghost predicate Inv(s: State, origin: Tree) {
    && H.Inv(s.hs) && StoreOk(s.st, s.hs.global.version)
    && (!s.hs.mgr.Idle? ==> CutOk(s.st, s.sn) && PhaseOk(s.hs, s.st, s.sn))
    && HistoryOk(s, origin)
  }

  /** Any well-formed stored tree with versions in bounds, no guard out and no snapshot running. */
  ghost predicate Init(s: State) {
    H.Init(s.hs) && StoreOk(s.st, s.hs.global.version) && s.history == []
  }
}
