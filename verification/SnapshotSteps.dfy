/** What a guard may do, exactly, and what its transactions leave on the pages they touch. */
module SnapshotSteps {
  import opened Bytes
  import opened TreeShape
  import opened EffectFrames
  import opened LeafCache
  import opened Snapshot
  import opened SnapshotStore
  import opened SnapshotTheorems
  import H = Handshake

  /** A guard is turned away from a page or node if and only if that is of a newer version than the guard; and
      that only happens in the PREPARE phase. */
  lemma TurnedAwayExactly(run: seq<State>, steps: seq<Step>, t: nat, w: nat)
    requires Run(run, steps) && t < |run| && H.HoldsGuard(run[t].hs, w)
    ensures var s, g := run[t], run[t].hs.slots[w].pc.g;
      && (forall p :: p in s.st.pages ==> (Passes(g, Version(s.st.pages[p])) <==> Version(s.st.pages[p]) <= g.version))
      && (forall n :: n in s.st.iver ==> (Passes(g, s.st.iver[n]) <==> s.st.iver[n] <= g.version))
      && (!g.phase.Prepare? ==> AllPass(g, s.st, s.st.pages.Keys, s.st.iver.Keys))
  {
    RunKeepsInv(run, steps, t);
    HeldGuardOk(run[t].hs, w);
  }

  // ---- a transaction can go ahead ------------------------------------------------------------------

  /** What an effect asks of the stored pages: a new leaf takes the next identifier, and a leaf that is split
      is a mini page about to be merged, or the root leaf, which is never cached. */
  predicate Stageable(st: Store, e: Effect) {
    match e
    case SplitLeaf(n, p, q, key) => q == st.next && p in st.pages && st.pages[p].loc.AtMini?
    case SplitRootLeaf(p, q, m, key) => q == st.next
    case _ => true
  }

  /** Where a write lands: in the root leaf's base page, in the cached page, or in a new mini page. */
  function LandingOf(st: Store, p: nat): Landing
    requires p in st.pages
  {
    if st.now.root == LeafRef(p) then InRoot else if st.pages[p].loc.AtBase? then NewMini(1) else InCache
  }

  function HowOf(st: Store, e: Effect): How {
    match e
    case Put(p, k, v) => if p in st.pages then Record(k, Rec(Insert, v), LandingOf(st, p)) else Split
    case Remove(p, k) => if p in st.pages then Record(k, Rec(Delete, []), LandingOf(st, p)) else Split
    case _ => Split
  }

  lemma WriteStores(g: H.Stamp, st: Store, p: nat, k: Key, r: Rec)
    requires RootAtBase(st) && p in st.pages && r.op.Dirty()
    ensures CanWrite(g, st, p, Record(k, r, LandingOf(st, p)))
  {
  }

  lemma EffectStores(g: H.Stamp, st: Store, gv: nat, e: Effect)
    requires StoreOk(st, gv) && Enabled(st.now, e) && Stageable(st, e)
    ensures CanStore(g, st, e, HowOf(st, e))
  {
    match e
    case Put(p, k, v) => WriteStores(g, st, p, k, Rec(Insert, v));
    case Remove(p, k) => WriteStores(g, st, p, k, Rec(Delete, []));
    case _ =>
  }

  /** In every reachable state, a worker with a guard can carry out every change the tree allows on pages that are
      no newer than its guard. */
  lemma CanAlwaysCommit(run: seq<State>, steps: seq<Step>, t: nat, w: nat, e: Effect) returns (s': State)
    requires Run(run, steps) && t < |run| && H.HoldsGuard(run[t].hs, w) && Enabled(run[t].st.now, e) && Stageable(run[t].st, e)
    requires forall p :: p in LeafTouch(e) && p in run[t].st.pages ==> Version(run[t].st.pages[p]) <= run[t].hs.slots[w].pc.g.version
    requires forall n :: n in InnerTouch(e) && n in run[t].st.iver ==> run[t].st.iver[n] <= run[t].hs.slots[w].pc.g.version
    ensures Next(run[t], DoCommit(w, e, HowOf(run[t].st, e)), s') && s'.st.now == Apply(run[t].st.now, e)
  {
    RunKeepsInv(run, steps, t);
    EffectStores(run[t].hs.slots[w].pc.g, run[t].st, run[t].hs.global.version, e);
    s' := CommitNow(run[t], w, e, HowOf(run[t].st, e));
  }

  lemma CommitNow(s: State, w: nat, e: Effect, how: How) returns (s': State)
    requires H.HoldsGuard(s.hs, w) && Enabled(s.st.now, e) && CanStore(s.hs.slots[w].pc.g, s.st, e, how)
    requires forall p :: p in LeafTouch(e) && p in s.st.pages ==> Version(s.st.pages[p]) <= s.hs.slots[w].pc.g.version
    requires forall n :: n in InnerTouch(e) && n in s.st.iver ==> s.st.iver[n] <= s.hs.slots[w].pc.g.version
    ensures Next(s, DoCommit(w, e, how), s') && s'.st.now == Apply(s.st.now, e)
  {
    var g := s.hs.slots[w].pc.g;
    s' := State(s.hs, Stored(g, s.st, e, how),
                Captured(g, s.st, s.sn, LeafTouch(e), InnerTouch(e)).(cut := CutAfter(g, s.sn, e)), s.history + [Txn(g.version, e)]);
    assert Commit(s, w, e, how, s');
  }

  // ---- every other step that the pages allow -------------------------------------------------------

  /** A write may land wherever its page has a place for it: in place, in a new mini page of any size, or in a mini
      page grown to any size at least its own, with any clean records left behind. */
  lemma EveryLanding(g: H.Stamp, st: Store, p: nat, k: Key, r: Rec, size: nat, cold: set<Key>)
    requires p in st.pages && r.op.Dirty()
    ensures var root, page := st.now.root == LeafRef(p), st.pages[p];
      && (root && page.loc.AtBase? ==> CanWrite(g, st, p, Record(k, r, InRoot)))
      && (!root && page.loc.AtBase? ==> CanWrite(g, st, p, Record(k, r, NewMini(size))))
      && (!root && !page.loc.AtBase? ==> CanWrite(g, st, p, Record(k, r, InCache)))
      && (!root && page.loc.AtMini? && size >= page.loc.c.size && (forall x :: x in cold ==> !IsDirty(page.loc.c.recs, x)) ==>
            CanWrite(g, st, p, Record(k, r, Grown(size, cold))))
  {
  }

  /** A guard may touch any page or node that is no newer, to no avail or to cache what it read; and a page may be
      reorganised at any time, in every way its place allows. */
  lemma CanAlwaysTouch(s: State, w: nat, x: nat)
    requires H.HoldsGuard(s.hs, w)
    ensures var g := s.hs.slots[w].pc.g;
      && (x in s.st.pages && Version(s.st.pages[x]) <= g.version ==> exists s' :: Next(s, DoTouchLeaf(w, x, Failed), s'))
      && (x in s.st.pages && Version(s.st.pages[x]) <= g.version && s.st.pages[x].loc.AtMini? ==> exists s' :: Next(s, DoTouchLeaf(w, x, FailedMerge), s'))
      && (x in s.st.iver && s.st.iver[x] <= g.version ==> exists s' :: Next(s, DoTouchInner(w, x), s'))
  {
    var g := s.hs.slots[w].pc.g;
    if x in s.st.pages && Version(s.st.pages[x]) <= g.version {
      var s' := s.(st := s.st.(pages := s.st.pages[x := Touched(g, s.st, x, Failed)]), sn := Captured(g, s.st, s.sn, {x}, {}));
      assert Next(s, DoTouchLeaf(w, x, Failed), s');
      if s.st.pages[x].loc.AtMini? {
        var s'' := s.(st := s.st.(pages := s.st.pages[x := Touched(g, s.st, x, FailedMerge)]), sn := Captured(g, s.st, s.sn, {x}, {}));
        assert Next(s, DoTouchLeaf(w, x, FailedMerge), s'');
      }
    }
    if x in s.st.iver && s.st.iver[x] <= g.version {
      var s' := s.(st := s.st.(iver := s.st.iver[x := Raised(g, s.st.iver[x])]), sn := Captured(g, s.st, s.sn, {}, {x}));
      assert Next(s, DoTouchInner(w, x), s');
    }
  }

  lemma CanAlwaysTidy(s: State, p: nat, size: nat, cold: set<Key>)
    requires p in s.st.pages && s.st.now.root != LeafRef(p)
    ensures var loc := s.st.pages[p].loc;
      && (loc.AtBase? ==> exists s' :: Next(s, DoTidy(p, Promote(size)), s'))
      && (loc.AtMini? ==> exists s' :: Next(s, DoTidy(p, Merge), s'))
      && (loc.AtFull? ==> exists s' :: Next(s, DoTidy(p, WriteBack), s'))
      && (!loc.AtFull? ==> exists s' :: Next(s, DoTidy(p, Consolidate), s'))
      && (loc.AtFull? ==> exists s' :: Next(s, DoTidy(p, MoveToTail({})), s'))
      && (loc.AtMini? && (forall x :: x in cold ==> !IsDirty(loc.c.recs, x)) ==> exists s' :: Next(s, DoTidy(p, MoveToTail(cold)), s'))
  {
    var page := s.st.pages[p];
    var loc := page.loc;
    if loc.AtBase? { TidyNow(s, p, Promote(size)); }
    if loc.AtMini? { TidyNow(s, p, Merge); }
    if loc.AtFull? { TidyNow(s, p, WriteBack); TidyNow(s, p, MoveToTail({})); }
    if !loc.AtFull? { TidyNow(s, p, Consolidate); }
    if loc.AtMini? && (forall x :: x in cold ==> !IsDirty(loc.c.recs, x)) { TidyNow(s, p, MoveToTail(cold)); }
  }

  lemma TidyNow(s: State, p: nat, how: Reorg)
    requires p in s.st.pages && s.st.now.root != LeafRef(p) && CanReorg(s.st.pages[p], how)
    ensures exists s' :: Next(s, DoTidy(p, how), s')
  {
    var s' := s.(st := s.st.(pages := s.st.pages[p := Reorganise(s.st.pages[p], how)]));
    assert Next(s, DoTidy(p, how), s');
  }

  // ---- what it leaves behind -----------------------------------------------------------------------

  /** The version a transaction under guard `g` leaves on something of version `ver`. */
  predicate Stamped(g: H.Stamp, ver: nat, ver': nat) {
    if g.phase.Prepare? then ver <= ver' <= g.version else ver' == g.version
  }

  /** Whatever a transaction touches ends with the guard's version -- a PREPARE guard may leave it older -- and what
      it splits off or writes anew has it; a new leaf uses up one identifier, and nothing else changes. */
  lemma ChangesAreStamped(run: seq<State>, steps: seq<Step>, t: nat, w: nat, e: Effect, how: How, s': State)
    requires Run(run, steps) && t < |run| && Next(run[t], DoCommit(w, e, how), s')
    ensures H.HoldsGuard(run[t].hs, w)
    ensures var g := run[t].hs.slots[w].pc.g;
      PagesStamped(g, run[t].st, s'.st, e) && NodesStamped(g, run[t].st, s'.st, e)
  {
    RunKeepsInv(run, steps, t);
    var s, g := run[t], run[t].hs.slots[w].pc.g;
    HeldGuardOk(s.hs, w);
    PageStamps(g, s.st, s.hs.global.version, e, how);
    NodeStamps(g, s.st, s.hs.global.version, e, how);
  }

  /** Leaves and inner nodes that a split writes anew. */
  function LeafRebuilt(e: Effect): set<nat> { if e.SplitLeaf? || e.SplitRootLeaf? then {e.p} + LeafNew(e) else {} }

  function InnerRebuilt(e: Effect): set<nat> { if e.SplitInner? || e.SplitRootInner? then {e.c} + InnerNew(e) else InnerNew(e) }

  ghost predicate PagesStamped(g: H.Stamp, st: Store, st': Store, e: Effect) {
    && st'.next == st.next + |LeafNew(e)|
    && (forall p :: p in LeafTouch(e) ==> p in st.pages && p in st'.pages && Stamped(g, Version(st.pages[p]), Version(st'.pages[p])))
    && (forall p :: p in LeafRebuilt(e) ==> p in st'.pages && Version(st'.pages[p]) == g.version)
    && (forall p :: p in st.pages && p !in LeafTouch(e) ==> p in st'.pages && st'.pages[p] == st.pages[p])
  }

  ghost predicate NodesStamped(g: H.Stamp, st: Store, st': Store, e: Effect) {
    && (forall n :: n in InnerTouch(e) ==> n in st.iver && n in st'.iver && Stamped(g, st.iver[n], st'.iver[n]))
    && (forall n :: n in InnerRebuilt(e) ==> n in st'.iver && st'.iver[n] == g.version)
    && (forall n :: n in st.iver && n !in InnerTouch(e) ==> n in st'.iver && st'.iver[n] == st.iver[n])
  }

  lemma OnePageStamps(g: H.Stamp, st: Store, st': Store, e: Effect, p: nat)
    requires LeafTouch(e) == {p} && LeafNew(e) == {} && p in st.pages && p in st'.pages && st'.pages == st.pages[p := st'.pages[p]]
    requires Stamped(g, Version(st.pages[p]), Version(st'.pages[p])) && st'.next == st.next && !e.SplitLeaf? && !e.SplitRootLeaf?
    ensures PagesStamped(g, st, st', e)
  {
  }

  lemma HalvesStamp(g: H.Stamp, st: Store, gv: nat, e: Effect, how: How)
    requires Keyed(st) && GuardOk(g, gv) && (e.SplitLeaf? || e.SplitRootLeaf?) && Enabled(st.now, e) && CanStore(g, st, e, how)
    requires Version(st.pages[e.p]) <= gv && Passes(g, Version(st.pages[e.p]))
    ensures PagesStamped(g, st, Stored(g, st, e, how), e)
  {
    PassedFits(g, gv, Version(st.pages[e.p]));
  }

  lemma PageStamps(g: H.Stamp, st: Store, gv: nat, e: Effect, how: How)
    requires Keyed(st) && PagesOk(st, gv) && GuardOk(g, gv) && Enabled(st.now, e) && CanStore(g, st, e, how) && AllPass(g, st, LeafTouch(e), {})
    ensures PagesStamped(g, st, Stored(g, st, e, how), e)
  {
    if e.Put? || e.Remove? {
      WriteStamps(g, st, gv, e.p, how);
      OnePageStamps(g, st, Stored(g, st, e, how), e, e.p);
    } else if e.SplitLeaf? || e.SplitRootLeaf? {
      HalvesStamp(g, st, gv, e, how);
    }
  }

  lemma NodeStamps(g: H.Stamp, st: Store, gv: nat, e: Effect, how: How)
    requires Keyed(st) && (forall n :: n in st.iver ==> st.iver[n] <= gv) && GuardOk(g, gv) && Enabled(st.now, e) && CanStore(g, st, e, how)
    requires forall n :: n in InnerTouch(e) && n in st.iver ==> Passes(g, st.iver[n])
    ensures NodesStamped(g, st, Stored(g, st, e, how), e)
  {
  }

  lemma WriteStamps(g: H.Stamp, st: Store, gv: nat, p: nat, how: How)
    requires p in st.pages && how.Record? && CanWrite(g, st, p, how) && GuardOk(g, gv)
    requires PageOk(st.pages[p]) && Passes(g, Version(st.pages[p])) && Version(st.pages[p]) <= gv
    ensures Stamped(g, Version(st.pages[p]), Version(Written(g, st, p, how)))
  {
    WrittenOk(g, gv, st, p, how);
  }

  /** What an attempt leaves on its page: the version raised, under a failed merge that of the base page too, and
      every read as it was. */
  ghost predicate Attempted(g: H.Stamp, page: Page, page': Page, what: Attempt) {
    && Stamped(g, Version(page), Version(page')) && (forall k :: Look(page', k) == Look(page, k))
    && (what.FailedMerge? && Captures(g, Version(page)) ==> page'.base.version == g.version)
  }

  lemma CacheStamps(g: H.Stamp, st: Store, gv: nat, p: nat, how: How)
    requires p in st.pages && GuardOk(g, gv) && PageOk(st.pages[p]) && Passes(g, Version(st.pages[p])) && Version(st.pages[p]) <= gv
    requires CanTouch(g, st, p, CacheRecord(how))
    ensures Attempted(g, st.pages[p], Touched(g, st, p, CacheRecord(how)), CacheRecord(how))
  {
    WriteStamps(g, st, gv, p, how);
    forall k ensures Look(Written(g, st, p, how), k) == Look(st.pages[p], k) { WrittenReads(g, st, p, how, k); }
  }

  lemma FailStamps(g: H.Stamp, st: Store, gv: nat, p: nat, what: Attempt)
    requires p in st.pages && GuardOk(g, gv) && PageOk(st.pages[p]) && Passes(g, Version(st.pages[p])) && Version(st.pages[p]) <= gv
    requires CanTouch(g, st, p, what) && !what.CacheRecord?
    ensures Attempted(g, st.pages[p], Touched(g, st, p, what), what)
  {
    PassedFits(g, gv, Version(st.pages[p]));
    RaisedOk(g, st.pages[p]);
    forall k ensures Look(Touched(g, st, p, what), k) == Look(st.pages[p], k) {
      assert Look(RaisedPage(g, st.pages[p]), k) == Look(st.pages[p], k);
    }
  }

  /** An operation that captures a page and then fails, or only caches what it read, leaves the page raised and no
      read changed, and nothing else touched. */
  lemma AttemptsAreStamped(run: seq<State>, steps: seq<Step>, t: nat, w: nat, p: nat, what: Attempt, s': State)
    requires Run(run, steps) && t < |run| && Next(run[t], DoTouchLeaf(w, p, what), s')
    ensures H.HoldsGuard(run[t].hs, w) && p in run[t].st.pages && p in s'.st.pages
    ensures Attempted(run[t].hs.slots[w].pc.g, run[t].st.pages[p], s'.st.pages[p], what)
    ensures s'.st == run[t].st.(pages := run[t].st.pages[p := s'.st.pages[p]])
  {
    RunKeepsInv(run, steps, t);
    var s, g := run[t], run[t].hs.slots[w].pc.g;
    HeldGuardOk(s.hs, w);
    if what.CacheRecord? {
      CacheStamps(g, s.st, s.hs.global.version, p, what.how);
    } else {
      FailStamps(g, s.st, s.hs.global.version, p, what);
    }
  }

  /** Only transactions make a cached record dirty: reads that cache, failed attempts, reorganisations and the
      snapshot itself never do. */
  lemma OnlyTransactionsDirty(run: seq<State>, steps: seq<Step>, t: nat, step: Step, s': State, p: nat, k: Key)
    requires Run(run, steps) && t < |run| && Next(run[t], step, s') && !step.DoCommit?
    requires p in s'.st.pages && !s'.st.pages[p].loc.AtBase? && IsDirty(s'.st.pages[p].loc.c.recs, k)
    ensures p in run[t].st.pages && !run[t].st.pages[p].loc.AtBase? && IsDirty(run[t].st.pages[p].loc.c.recs, k)
  {
    RunKeepsInv(run, steps, t);
    var s := run[t];
    if step.DoTidy? && step.p == p {
      ReorgMarks(s.st.pages[p], step.reorg);
    } else if step.DoTouchLeaf? && step.p == p {
      AttemptStaysClean(s.hs.slots[step.w].pc.g, s.st, p, step.what, k);
    }
  }

  lemma AttemptStaysClean(g: H.Stamp, st: Store, p: nat, what: Attempt, k: Key)
    requires p in st.pages && CanTouch(g, st, p, what)
    requires var page := Touched(g, st, p, what); !page.loc.AtBase? && IsDirty(page.loc.c.recs, k)
    ensures !st.pages[p].loc.AtBase? && IsDirty(st.pages[p].loc.c.recs, k)
  {
  }
}
