/** Guarded transactions keep the stored tree in order: every leaf page shows its leaf, versions stay within
    the guard's, and pages outside the transaction stay as they are. */
module SnapshotStore {
  import opened Bytes
  import opened TreeShape
  import opened TreeEffects
  import opened TreeSplits
  import opened EffectFrames
  import opened LeafCache
  import opened Snapshot
  import H = Handshake

  // ---- guards --------------------------------------------------------------------------------------

  /** What is known of a guard's state relative to the global version. */
  predicate GuardOk(g: H.Stamp, gv: nat) {
    g.version <= gv && (!g.phase.Prepare? ==> g.version == gv)
  }

  lemma HeldGuardOk(hs: H.State, w: nat)
    requires H.Inv(hs) && H.HoldsGuard(hs, w)
    ensures GuardOk(hs.slots[w].pc.g, hs.global.version)
  {
    var g := hs.slots[w].pc.g;
    assert H.Near(hs, w);
    H.RankOrders(g, hs.global);
  }

  /** A page that passes the guard's rule is no newer than the guard, before and after it is raised. */
  lemma PassedFits(g: H.Stamp, gv: nat, ver: nat)
    requires GuardOk(g, gv) && Passes(g, ver) && ver <= gv
    ensures ver <= Raised(g, ver) <= g.version
    ensures !g.phase.Prepare? ==> Raised(g, ver) == g.version
  {
  }

  lemma RaisedOk(g: H.Stamp, p: Page)
    requires PageOk(p)
    ensures PageOk(RaisedPage(g, p)) && Version(RaisedPage(g, p)) == Raised(g, Version(p))
    ensures forall k :: Look(RaisedPage(g, p), k) == Look(p, k)
  {
    var q := RaisedPage(g, p);
    assert q.base.recs == p.base.recs;
    assert !p.loc.AtBase? ==> q.loc.c.recs == p.loc.c.recs;
    forall k ensures Look(q, k) == Look(p, k) { }
  }

  // ---- one written leaf ----------------------------------------------------------------------------

  lemma WrittenOk(g: H.Stamp, gv: nat, st: Store, p: nat, how: How)
    requires p in st.pages && PageOk(st.pages[p]) && how.Record? && CanWrite(g, st, p, how)
    requires GuardOk(g, gv) && Passes(g, Version(st.pages[p])) && Version(st.pages[p]) <= gv
    ensures PageOk(Written(g, st, p, how)) && Version(Written(g, st, p, how)) <= g.version
    ensures !g.phase.Prepare? ==> Version(Written(g, st, p, how)) == g.version
  {
    PassedFits(g, gv, Version(st.pages[p]));
    RaisedOk(g, st.pages[p]);
    WriteKeepsOk(RaisedPage(g, st.pages[p]), how.land, g.version, how.k, how.r);
  }

  lemma WrittenReads(g: H.Stamp, st: Store, p: nat, how: How, x: Key)
    requires p in st.pages && PageOk(st.pages[p]) && how.Record? && CanWrite(g, st, p, how)
    ensures Look(Written(g, st, p, how), x) ==
      if x == how.k && how.r.op.Dirty() then AsOption(how.r) else Look(st.pages[p], x)
  {
    RaisedOk(g, st.pages[p]);
    WriteSetsKey(RaisedPage(g, st.pages[p]), how.land, g.version, how.k, how.r, x);
  }

  lemma WrittenShows(g: H.Stamp, st: Store, p: nat, how: How, l: Leaf, l': Leaf)
    requires p in st.pages && PageOk(st.pages[p]) && how.Record? && CanWrite(g, st, p, how) && how.r.op.Dirty()
    requires Shows(st.pages[p], l)
    requires l'.recs == if how.r.op.Insert? then l.recs[how.k := how.r.value] else l.recs - {how.k}
    ensures Shows(Written(g, st, p, how), l')
  {
    forall x ensures Look(Written(g, st, p, how), x) == LeafGet(l', x) {
      WrittenReads(g, st, p, how, x);
      assert Look(st.pages[p], x) == LeafGet(l, x);
    }
  }

  /** A new mini page, a grown one or a raised one never hides that the base page is behind. */
  lemma WrittenSided(g: H.Stamp, gv: nat, st: Store, p: nat, how: How, sv: nat)
    requires p in st.pages && how.Record? && CanWrite(g, st, p, how) && Sided(st.pages[p], sv)
    requires GuardOk(g, gv) && Passes(g, Version(st.pages[p])) && Version(st.pages[p]) <= gv
    requires g.phase.Prepare? ==> g.version <= sv
    ensures Sided(Written(g, st, p, how), sv)
  {
  }

  lemma RaisedSided(g: H.Stamp, p: Page, sv: nat)
    requires Sided(p, sv)
    ensures Sided(RaisedPage(g, p), sv)
  {
  }

  // ---- the halves of a split leaf ------------------------------------------------------------------

  lemma HalfShows(p: Page, key: Key, left: bool, version: nat, l: Leaf, l': Leaf)
    requires PageOk(p) && !p.loc.AtFull? && Shows(p, l)
    requires l'.recs == if left then RecsBelow(l.recs, key) else RecsFrom(l.recs, key)
    ensures Shows(Half(p, key, left, version), l') && PageOk(Half(p, key, left, version))
  {
    HalfReads(p, key, left, version, key);
    forall x ensures Look(Half(p, key, left, version), x) == LeafGet(l', x) {
      HalfReads(p, key, left, version, x);
      assert Look(p, x) == LeafGet(l, x);
    }
  }

  // ---- the store after a transaction ---------------------------------------------------------------

  /** Leaves `ps` and inner nodes `ns` changed, `pn` and `nn` are new, nothing else moved; the root moved
      only from a changed node to a new one. */
  predicate Moved(st: Store, st': Store, ps: set<nat>, ns: set<nat>, pn: set<nat>, nn: set<nat>) {
    && Keyed(st) && Keyed(st') && st.next <= st'.next
    && ps <= st.pages.Keys && ns <= st.iver.Keys && pn !! st.pages.Keys && nn !! st.iver.Keys
    && st'.pages.Keys == st.pages.Keys + pn && st'.iver.Keys == st.iver.Keys + nn
    && (forall p :: p in st.pages && p !in ps ==> st'.pages[p] == st.pages[p] && st'.now.leaves[p] == st.now.leaves[p])
    && (forall n :: n in st.iver && n !in ns ==> st'.iver[n] == st.iver[n] && st'.now.inners[n] == st.now.inners[n])
    && (st'.now.root == st.now.root || (Among(st.now.root, ps, ns) && Among(st'.now.root, pn, nn)))
  }

  predicate Among(r: Ref, ps: set<nat>, ns: set<nat>) {
    match r case LeafRef(p) => p in ps case InnerRef(n) => n in ns
  }

  lemma CommitMoves(g: H.Stamp, st: Store, e: Effect, how: How)
    requires Keyed(st) && Enabled(st.now, e) && CanStore(g, st, e, how)
    ensures Moved(st, Stored(g, st, e, how), LeafTouch(e), InnerTouch(e), LeafNew(e), InnerNew(e))
  {
    EffectKeys(st.now, e);
    CommitPages(g, st, e, how);
    CommitIver(g, st, e, how);
    EffectFrame(st.now, e);
    EffectRoot(st.now, e);
  }

  lemma CommitPages(g: H.Stamp, st: Store, e: Effect, how: How)
    requires Keyed(st) && CanStore(g, st, e, how)
    ensures var pages' := StoredPages(g, st, e, how);
      && pages'.Keys == st.pages.Keys + LeafNew(e)
      && (forall p :: p in st.pages && p !in LeafTouch(e) + LeafNew(e) ==> pages'[p] == st.pages[p])
      && (forall p :: p in LeafNew(e) ==> p == st.next)
  {
  }

  lemma CommitIver(g: H.Stamp, st: Store, e: Effect, how: How)
    requires CanStore(g, st, e, how)
    ensures var iver' := StoredIver(g, st, e, how);
      && iver'.Keys == st.iver.Keys + InnerNew(e)
      && (forall n :: n in st.iver && n !in InnerTouch(e) + InnerNew(e) ==> iver'[n] == st.iver[n])
  {
  }

  /** One stored leaf after the transaction. */
  lemma CommitLeaf(g: H.Stamp, gv: nat, st: Store, e: Effect, how: How, x: nat)
    requires Keyed(st) && PagesOk(st, gv) && GuardOk(g, gv) && AllPass(g, st, LeafTouch(e), InnerTouch(e))
    requires Enabled(st.now, e) && CanStore(g, st, e, how) && x in LeafTouch(e) + LeafNew(e)
    ensures var st' := Stored(g, st, e, how);
      && x in st'.pages && x in st'.now.leaves
      && PageOk(st'.pages[x]) && Version(st'.pages[x]) <= g.version && x < st'.next
      && Shows(st'.pages[x], st'.now.leaves[x])
      && (!g.phase.Prepare? ==> Version(st'.pages[x]) == g.version)
  {
    var st' := Stored(g, st, e, how);
    match e
    case Put(p, k, v) =>
      WrittenOk(g, gv, st, p, how);
      WrittenShows(g, st, p, how, st.now.leaves[p], st'.now.leaves[p]);
    case Remove(p, k) =>
      WrittenOk(g, gv, st, p, how);
      WrittenShows(g, st, p, how, st.now.leaves[p], st'.now.leaves[p]);
    case SplitLeaf(n, p, q, key) =>
      HalfShows(st.pages[p], key, x == p, g.version, st.now.leaves[p], st'.now.leaves[x]);
    case SplitRootLeaf(p, q, m, key) =>
      HalfShows(st.pages[p], key, x == p, g.version, st.now.leaves[p], st'.now.leaves[x]);
    case _ =>
  }

  lemma CommitInner(g: H.Stamp, gv: nat, st: Store, e: Effect, how: How, x: nat)
    requires Keyed(st) && PagesOk(st, gv) && GuardOk(g, gv) && AllPass(g, st, LeafTouch(e), InnerTouch(e))
    requires Enabled(st.now, e) && CanStore(g, st, e, how) && x in InnerTouch(e) + InnerNew(e)
    ensures var st' := Stored(g, st, e, how);
      && x in st'.iver && st'.iver[x] <= g.version
      && (!g.phase.Prepare? ==> st'.iver[x] == g.version)
  {
    EffectKeys(st.now, e);
  }

  lemma CommitSided(g: H.Stamp, gv: nat, st: Store, e: Effect, how: How, x: nat, sv: nat)
    requires Keyed(st) && PagesOk(st, gv) && GuardOk(g, gv) && AllPass(g, st, LeafTouch(e), InnerTouch(e))
    requires Enabled(st.now, e) && CanStore(g, st, e, how) && x in LeafTouch(e) + LeafNew(e)
    requires forall p :: p in st.pages ==> Sided(st.pages[p], sv)
    requires g.phase.Prepare? ==> g.version <= sv
    ensures x in Stored(g, st, e, how).pages && Sided(Stored(g, st, e, how).pages[x], sv)
  {
    match e
    case Put(p, k, v) => WrittenSided(g, gv, st, p, how, sv);
    case Remove(p, k) => WrittenSided(g, gv, st, p, how, sv);
    case _ =>
  }

  lemma CommitRootAtBase(g: H.Stamp, st: Store, e: Effect, how: How)
    requires Keyed(st) && RootAtBase(st) && Enabled(st.now, e) && CanStore(g, st, e, how)
    ensures RootAtBase(Stored(g, st, e, how))
  {
    EffectRoot(st.now, e);
  }

  /** A transaction keeps the stored tree well formed and every stored leaf showing its leaf. */
  lemma CommitKeepsStore(g: H.Stamp, gv: nat, st: Store, e: Effect, how: How)
    requires StoreOk(st, gv) && GuardOk(g, gv) && AllPass(g, st, LeafTouch(e), InnerTouch(e))
    requires Enabled(st.now, e) && CanStore(g, st, e, how)
    ensures StoreOk(Stored(g, st, e, how), gv)
  {
    ApplyKeepsWF(st.now, e);
    CommitMoves(g, st, e, how);
    CommitRootAtBase(g, st, e, how);
    CommitKeepsPages(g, gv, st, e, how);
  }

  lemma CommitKeepsPages(g: H.Stamp, gv: nat, st: Store, e: Effect, how: How)
    requires Keyed(st) && PagesOk(st, gv) && GuardOk(g, gv) && AllPass(g, st, LeafTouch(e), InnerTouch(e))
    requires Enabled(st.now, e) && CanStore(g, st, e, how) && Keyed(Stored(g, st, e, how))
    ensures PagesOk(Stored(g, st, e, how), gv)
  {
    var st' := Stored(g, st, e, how);
    CommitMoves(g, st, e, how);
    forall x | x in st'.pages
      ensures PageOk(st'.pages[x]) && Version(st'.pages[x]) <= gv && Shows(st'.pages[x], st'.now.leaves[x])
    {
      if x in LeafTouch(e) + LeafNew(e) { CommitLeaf(g, gv, st, e, how, x); }
    }
    forall x | x in st'.iver ensures st'.iver[x] <= gv {
      if x in InnerTouch(e) + InnerNew(e) { CommitInner(g, gv, st, e, how, x); }
    }
  }

  // ---- the store after a touch or a reorganisation -------------------------------------------------

  lemma TouchedOk(g: H.Stamp, gv: nat, st: Store, p: nat, what: Attempt)
    requires p in st.pages && PageOk(st.pages[p]) && CanTouch(g, st, p, what)
    requires GuardOk(g, gv) && Passes(g, Version(st.pages[p])) && Version(st.pages[p]) <= gv
    ensures PageOk(Touched(g, st, p, what)) && Version(Touched(g, st, p, what)) <= g.version
    ensures !g.phase.Prepare? ==> Version(Touched(g, st, p, what)) == g.version
    ensures forall k :: Look(Touched(g, st, p, what), k) == Look(st.pages[p], k)
  {
    PassedFits(g, gv, Version(st.pages[p]));
    RaisedOk(g, st.pages[p]);
    match what
    case CacheRecord(how) =>
      WrittenOk(g, gv, st, p, how);
      forall x ensures Look(Touched(g, st, p, what), x) == Look(st.pages[p], x) { WrittenReads(g, st, p, how, x); }
    case Failed =>
    case FailedMerge =>
      var page := RaisedPage(g, st.pages[p]);
      var t := Touched(g, st, p, what);
      assert t.base.recs == page.base.recs && t.loc == page.loc;
      forall x ensures Look(t, x) == Look(page, x) { }
  }

  lemma TouchedSided(g: H.Stamp, gv: nat, st: Store, p: nat, what: Attempt, sv: nat)
    requires p in st.pages && CanTouch(g, st, p, what) && Sided(st.pages[p], sv)
    requires GuardOk(g, gv) && Passes(g, Version(st.pages[p])) && Version(st.pages[p]) <= gv
    requires g.phase.Prepare? ==> g.version <= sv
    ensures Sided(Touched(g, st, p, what), sv)
  {
    RaisedSided(g, st.pages[p], sv);
    if what.CacheRecord? { WrittenSided(g, gv, st, p, what.how, sv); }
  }

  /** Replacing one page by another with the same reads keeps the store in order. */
  lemma ReplacedKeepsStore(gv: nat, st: Store, p: nat, page: Page)
    requires StoreOk(st, gv) && p in st.pages && PageOk(page) && Version(page) <= gv
    requires forall k :: Look(page, k) == Look(st.pages[p], k)
    requires st.now.root == LeafRef(p) ==> page.loc.AtBase?
    ensures StoreOk(st.(pages := st.pages[p := page]), gv)
  {
    forall k ensures Look(page, k) == LeafGet(st.now.leaves[p], k) { }
  }
}
