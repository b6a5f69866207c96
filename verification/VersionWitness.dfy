/** Page versions do fall in runs of the protocol: a reader in the PREPARE phase caches a record over an older
    base page, which that phase leaves alone, and the clean mini page is dropped again. */
module VersionWitness {
  import opened Bytes
  import opened TreeShape
  import opened LeafCache
  import opened Snapshot
  import opened SnapshotTheorems
  import H = Handshake

  // ---- the guard -----------------------------------------------------------------------------------

  /** Slot 0 at `pc`, a snapshot of version `v` in its PREPARE phase. */
  function Preparing(hs: H.State, x: H.Slot): H.State
    requires |hs.slots| > 0
  {
    H.State(H.Stamp(H.Prepare, hs.global.version), false, hs.slots[0 := x], H.Scan(0))
  }

  function PrepareStamp(hs: H.State): H.Stamp { H.Stamp(H.Prepare, hs.global.version) }

  /** Slot 0 after `i` steps of `reserve_thread_slot`. */
  function SlotAt(hs: H.State, i: nat): H.Slot {
    var g := PrepareStamp(hs);
    if i == 0 then H.Slot(false, None, H.Vacant)
    else if i == 1 then H.Slot(true, None, H.Claimed)
    else if i == 2 then H.Slot(true, None, H.Loaded(g))
    else if i == 3 then H.Slot(true, Some(g), H.Published(g))
    else if i == 4 then H.Slot(true, Some(g), H.Rechecked(g))
    else H.Slot(true, Some(g), H.Held(g))
  }

  lemma StartsPreparing(hs: H.State)
    requires H.Init(hs) && |hs.slots| > 0
    ensures H.Next(hs, Preparing(hs, SlotAt(hs, 0)))
  {
    assert hs.slots[0 := SlotAt(hs, 0)] == hs.slots;
    assert H.Start(hs, Preparing(hs, SlotAt(hs, 0)));
  }

  lemma SlotMoves(hs: H.State, i: nat)
    requires |hs.slots| > 0 && i < 5
    ensures H.Next(Preparing(hs, SlotAt(hs, i)), Preparing(hs, SlotAt(hs, i + 1)))
  {
    var a, b := Preparing(hs, SlotAt(hs, i)), Preparing(hs, SlotAt(hs, i + 1));
    assert b.slots == a.slots[0 := H.NextSlot(a, a.slots[0])];
    assert H.WorkerStep(a, 0, b);
  }

  // ---- the run -------------------------------------------------------------------------------------

  function Opened(s: State): Snap { Snap(s.hs.global.version, s.st.now, map[], map[], map[], map[], None, false, 0, 0) }

  function Reserving(s: State, i: nat): State
    requires |s.hs.slots| > 0
  {
    State(Preparing(s.hs, SlotAt(s.hs, i)), s.st, Opened(s), s.history)
  }

  lemma ReserveStep(s: State, i: nat)
    requires |s.hs.slots| > 0 && i < 5
    ensures Next(Reserving(s, i), DoShake, Reserving(s, i + 1))
  {
    SlotMoves(s.hs, i);
  }

  lemma StartStep(s: State)
    requires H.Init(s.hs) && |s.hs.slots| > 0
    ensures Next(s, DoShake, Reserving(s, 0))
  {
    StartsPreparing(s.hs);
  }

  /** A leaf with an old base page, no cached page, and a record to read; not the root. */
  ghost predicate Stale(s: State, p: nat, k: Key) {
    && Init(s) && |s.hs.slots| > 0 && p in s.st.pages && s.st.now.root != LeafRef(p)
    && s.st.pages[p].loc.AtBase? && s.st.pages[p].base.version < s.hs.global.version && RecGet(s.st.pages[p].base.recs, k).Some?
  }

  function CachedCopy(s: State, p: nat, k: Key): How
    requires p in s.st.pages && k in s.st.pages[p].base.recs
  {
    Record(k, Rec(Cache, s.st.pages[p].base.recs[k].value), NewMini(64))
  }

  function Read(s: State, p: nat, k: Key): Page
    requires p in s.st.pages && s.st.pages[p].loc.AtBase? && k in s.st.pages[p].base.recs
  {
    Write(s.st.pages[p], NewMini(64), s.hs.global.version, k, Rec(Cache, s.st.pages[p].base.recs[k].value))
  }

  function After(s: State, p: nat, page: Page): State
    requires |s.hs.slots| > 0
  {
    var r := Reserving(s, 5);
    r.(st := r.st.(pages := r.st.pages[p := page]))
  }

  /** The read caches its record and captures nothing. */
  lemma ReadStep(s: State, p: nat, k: Key)
    requires Stale(s, p, k)
    ensures Next(Reserving(s, 5), DoTouchLeaf(0, p, CacheRecord(CachedCopy(s, p, k))), After(s, p, Read(s, p, k)))
  {
    var r, g := Reserving(s, 5), PrepareStamp(s.hs);
    assert H.HoldsGuard(r.hs, 0) && r.hs.slots[0].pc.g == g;
    assert RaisedPage(g, s.st.pages[p]) == s.st.pages[p];
    PrepareTakesNothing(g, r.st, r.sn, {p}, {});
  }

  lemma PrepareTakesNothing(g: H.Stamp, st: Store, sn: Snap, ps: set<nat>, ns: set<nat>)
    requires g.phase.Prepare?
    ensures Captured(g, st, sn, ps, ns) == sn
  {
    var sn' := Captured(g, st, sn, ps, ns);
    assert sn'.workL == sn.workL && sn'.workI == sn.workI;
  }

  /** The clean mini page is dropped. */
  lemma DropStep(s: State, p: nat, k: Key)
    requires Stale(s, p, k)
    ensures Next(After(s, p, Read(s, p, k)), DoTidy(p, Merge), After(s, p, s.st.pages[p]))
  {
    var page := Read(s, p, k);
    assert page.loc.c.recs == map[k := Rec(Cache, s.st.pages[p].base.recs[k].value)];
    assert !AnyDirty(page.loc.c.recs);
    assert Reorganise(page, Merge) == s.st.pages[p];
    assert s.st.pages[p := page][p := s.st.pages[p]] == s.st.pages[p := s.st.pages[p]];
  }

  function Moment(s: State, p: nat, k: Key, i: nat): State
    requires |s.hs.slots| > 0 && p in s.st.pages && s.st.pages[p].loc.AtBase? && k in s.st.pages[p].base.recs
  {
    if i == 0 then s else if i <= 6 then Reserving(s, i - 1)
    else if i == 7 then After(s, p, Read(s, p, k)) else After(s, p, s.st.pages[p])
  }

  function StepOf(s: State, p: nat, k: Key, i: nat): Step
    requires p in s.st.pages && k in s.st.pages[p].base.recs
  {
    if i < 6 then DoShake else if i == 6 then DoTouchLeaf(0, p, CacheRecord(CachedCopy(s, p, k))) else DoTidy(p, Merge)
  }

  lemma MomentStep(s: State, p: nat, k: Key, i: nat)
    requires Stale(s, p, k) && i < 8
    ensures Next(Moment(s, p, k, i), StepOf(s, p, k, i), Moment(s, p, k, i + 1))
  {
    if i == 0 { StartStep(s); }
    else if i < 6 { ReserveStep(s, i - 1); }
    else if i == 6 { ReadStep(s, p, k); }
    else { DropStep(s, p, k); }
  }

  /** From every state with a stale leaf there is a run in which that leaf's version rises to the global one and
      falls back. */
  lemma VersionsDoFall(s: State, p: nat, k: Key) returns (run: seq<State>, steps: seq<Step>)
    requires Stale(s, p, k)
    ensures Run(run, steps) && |run| == 9 && run[0] == s && p in run[7].st.pages && p in run[8].st.pages
    ensures Version(run[8].st.pages[p]) == s.st.pages[p].base.version < Version(run[7].st.pages[p]) == s.hs.global.version
  {
    run := seq(9, i requires 0 <= i < 9 => Moment(s, p, k, i));
    steps := seq(8, i requires 0 <= i < 8 => StepOf(s, p, k, i));
    forall i | 0 <= i < 8 ensures StepAt(run, steps, i) { MomentStep(s, p, k, i); }
  }

  // ---- such a state --------------------------------------------------------------------------------

  /** Two leaves under one root, an old record in the right one, version 1. */
  function Example(): State {
    var rec := Rec(Insert, [7]);
    var t := Tree(map[0 := Leaf([], At([1]), map[]), 1 := Leaf([1], Inf, map[[1] := [7]])],
                  map[0 := Inner(0, true, [], Inf, [[1]], [0, 1])], InnerRef(0));
    var pages := map[0 := Page(Node(0, map[]), AtBase), 1 := Page(Node(0, map[[1] := rec]), AtBase)];
    State(H.State(H.Stamp(H.Rest, 1), false, [H.Slot(false, None, H.Vacant)], H.Idle),
          Store(t, pages, map[0 := 0], 2), Snap(0, t, map[], map[], map[], map[], None, false, 0, 0), [])
  }

  lemma ExampleTree()
    ensures WF(Example().st.now)
  {
    var t := Example().st.now;
    LtTotal([1], [1]);
    EmptyIsLeast([1]);
    assert Lt([], [1]);
    assert InnerOk(t.inners[0]);
    assert KidOk(t, t.inners[0], 0) && KidOk(t, t.inners[0], 1);
    assert KidsOk(t);
    assert KidAt(t, 0, 0, LeafRef(0)) && KidAt(t, 0, 1, LeafRef(1));
    forall r | Exists(t, r) && r != t.root ensures HasParent(t, r) {
      assert r == LeafRef(0) || r == LeafRef(1);
    }
  }

  lemma ExamplePages()
    ensures Keyed(Example().st) && PagesOk(Example().st, 1)
  {
    var st := Example().st;
    assert Keyed(st);
    forall p, k | p in st.pages ensures Look(st.pages[p], k) == LeafGet(st.now.leaves[p], k) { }
  }

  lemma ExampleIsStale()
    ensures Stale(Example(), 1, [1])
  {
    ExampleTree();
    ExamplePages();
  }
}
