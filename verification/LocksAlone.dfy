/** What one thread can do when no other is in the tree: reach any leaf, and make any change the tree allows.  The
    converse, that it can make no other, is `LockCouplingProof.StepInPlace`. */
module LocksAlone {
  import opened Bytes
  import opened TreeShape
  import opened TreeEffects
  import opened TreeSplits
  import opened LockCoupling
  import opened LockCouplingProof
  import opened LocksHeld

  // ---- steps of one thread alone -------------------------------------------------------------------

  predicate SoloStep(run: seq<State>, u: nat, steps: seq<Step>, i: nat)
    requires |run| == |steps| + 1 && i < |steps|
  {
    Next(run[i], u, steps[i], run[i + 1])
  }

  predicate Solo(s: State, run: seq<State>, u: nat, steps: seq<Step>, e: State) {
    && |run| == |steps| + 1 && run[0] == s && run[|steps|] == e
    && forall i :: 0 <= i < |steps| ==> SoloStep(run, u, steps, i)
  }

  /** Thread `u` alone gets from `s` to `e`. */
  ghost predicate Gets(s: State, u: nat, e: State) { exists run, steps :: Solo(s, run, u, steps, e) }

  lemma NoStep(s: State, u: nat)
    ensures Gets(s, u, s)
  {
    assert Solo(s, [s], u, [], s);
  }

  lemma StepThen(s: State, u: nat, step: Step, m: State, e: State)
    requires Next(s, u, step, m) && Gets(m, u, e)
    ensures Gets(s, u, e)
  {
    var run, steps :| Solo(m, run, u, steps, e);
    forall i | 0 <= i < |steps| + 1 ensures SoloStep([s] + run, u, [step] + steps, i) {
      if i > 0 { assert SoloStep(run, u, steps, i - 1); }
    }
    assert Solo(s, [s] + run, u, [step] + steps, e);
  }

  lemma {:induction false} Joined(s: State, run: seq<State>, u: nat, steps: seq<Step>, m: State, e: State)
    requires Solo(s, run, u, steps, m) && Gets(m, u, e)
    ensures Gets(s, u, e)
    decreases |steps|
  {
    if |steps| > 0 {
      assert SoloStep(run, u, steps, 0);
      forall i | 0 <= i < |steps| - 1 ensures SoloStep(run[1..], u, steps[1..], i) { assert SoloStep(run, u, steps, i + 1); }
      assert Solo(run[1], run[1..], u, steps[1..], m);
      Joined(run[1], run[1..], u, steps[1..], m, e);
      StepThen(s, u, steps[0], run[1], e);
    }
  }

  lemma Then(s: State, u: nat, m: State, e: State)
    requires Gets(s, u, m) && Gets(m, u, e)
    ensures Gets(s, u, e)
  {
    var run, steps :| Solo(s, run, u, steps, m);
    Joined(s, run, u, steps, m, e);
  }

  // ---- the way down --------------------------------------------------------------------------------

  predicate Unlocked(s: State) {
    && s.ver.Keys == s.tree.inners.Keys && s.locks.Keys == s.tree.leaves.Keys
    && (forall n :: n in s.ver ==> !s.ver[n].locked) && (forall p :: p in s.locks ==> s.locks[p] == Shared({}))
  }

  /** The node at height `h` on the way of `k` from `r`, and the one above it. */
  function RouteTo(t: Tree, r: Ref, k: Key, h: nat): (x: Ref)
    requires InnersOk(t) && KidsOk(t) && Exists(t, r) && h <= RefHeight(t, r)
    ensures Exists(t, x) && RefHeight(t, x) == h
    ensures Within(k, RefLo(t, r), RefHi(t, r)) ==> Within(k, RefLo(t, x), RefHi(t, x))
    decreases RefHeight(t, r)
  {
    if RefHeight(t, r) == h then r
    else
      var n := r.id;
      var j := Slot(t.inners[n].seps, k);
      assert KidOk(t, t.inners[n], j);
      RouteTo(t, KidRef(t.inners[n], j), k, h)
  }

  lemma {:induction false} RouteToLeaf(t: Tree, r: Ref, k: Key)
    requires InnersOk(t) && KidsOk(t) && Exists(t, r)
    ensures RouteTo(t, r, k, 0) == LeafRef(Route(t, r, k))
    decreases RefHeight(t, r)
  {
    if r.InnerRef? {
      var j := Slot(t.inners[r.id].seps, k);
      assert KidOk(t, t.inners[r.id], j);
      RouteToLeaf(t, KidRef(t.inners[r.id], j), k);
    }
  }

  /** How a thread stands that has come down to height `h`: at the node there, through the node above. */
  predicate CameDown(s: State, from: Ref, via: Via, key: Key, h: nat, at: Ref, way: Via)
    requires InnersOk(s.tree) && KidsOk(s.tree) && Exists(s.tree, from) && h <= RefHeight(s.tree, from)
  {
    && at == RouteTo(s.tree, from, key, h)
    && if h == RefHeight(s.tree, from) then way == via
       else way.Through? && way.n in s.ver && way.v == s.ver[way.n] && InnerRef(way.n) == RouteTo(s.tree, from, key, h + 1)
  }

  lemma SoloInner(s: State, u: nat, c: nat, via: Via) returns (s1: State, s2: State, s3: State)
    requires Unlocked(s) && InnersOk(s.tree) && KidsOk(s.tree) && c in s.tree.inners
    requires u in s.threads && s.threads[u].pc == Arrived(InnerRef(c), via) && ParentUnchanged(s, InnerRef(c), via)
    ensures var x, key := s.tree.inners[c], s.threads[u].key;
      var kid := KidRef(x, Slot(x.seps, key));
      && Next(s, u, TryRead, s1) && Next(s1, u, CheckNode, s2) && Next(s2, u, Descend(kid), s3)
      && s2 == Goto(s, u, Standing(c, s.ver[c], via)) && s3 == Goto(s, u, Arrived(kid, Through(c, s.ver[c])))
      && Exists(s.tree, kid) && RefHeight(s.tree, kid) + 1 == RefHeight(s.tree, InnerRef(c))
  {
    var x, key := s.tree.inners[c], s.threads[u].key;
    var kid := KidRef(x, Slot(x.seps, key));
    assert KidOk(s.tree, x, Slot(x.seps, key));
    s1 := Goto(s, u, Seen(c, s.ver[c], via));
    s2 := Goto(s, u, Standing(c, s.ver[c], via));
    s3 := Goto(s, u, Arrived(kid, Through(c, s.ver[c])));
    assert s2 == Goto(s1, u, Standing(c, s.ver[c], via)) && s3 == Goto(s2, u, Arrived(kid, Through(c, s.ver[c])));
    assert DoTryRead(s, u, s1) && DoCheckNode(s1, u, s2) && DoDescend(s2, u, kid, s3);
  }

  lemma OneDown(s: State, u: nat, c: nat, via: Via) returns (kid: Ref)
    requires Unlocked(s) && InnersOk(s.tree) && KidsOk(s.tree) && c in s.tree.inners
    requires u in s.threads && s.threads[u].pc == Arrived(InnerRef(c), via) && ParentUnchanged(s, InnerRef(c), via)
    ensures kid == KidRef(s.tree.inners[c], Slot(s.tree.inners[c].seps, s.threads[u].key))
    ensures Exists(s.tree, kid) && RefHeight(s.tree, kid) + 1 == RefHeight(s.tree, InnerRef(c))
    ensures Gets(s, u, Goto(s, u, Arrived(kid, Through(c, s.ver[c]))))
  {
    var s1, s2, s3 := SoloInner(s, u, c, via);
    kid := KidRef(s.tree.inners[c], Slot(s.tree.inners[c].seps, s.threads[u].key));
    NoStep(s3, u);
    StepThen(s2, u, Descend(kid), s3, s3);
    StepThen(s1, u, CheckNode, s2, s3);
    StepThen(s, u, TryRead, s1, s3);
  }

  lemma StillDown(s: State, c: nat, via: Via, key: Key, h: nat, kid: Ref, at: Ref, way: Via)
    requires InnersOk(s.tree) && KidsOk(s.tree) && c in s.tree.inners && c in s.ver && h < RefHeight(s.tree, InnerRef(c))
    requires kid == KidRef(s.tree.inners[c], Slot(s.tree.inners[c].seps, key))
    requires Exists(s.tree, kid) && RefHeight(s.tree, kid) + 1 == RefHeight(s.tree, InnerRef(c))
    requires CameDown(s, kid, Through(c, s.ver[c]), key, h, at, way)
    ensures CameDown(s, InnerRef(c), via, key, h, at, way)
  {
  }

  lemma GoesThrough(s: State, u: nat, a: Pc, b: Pc)
    requires u in s.threads && Gets(s, u, Goto(s, u, a)) && Gets(Goto(s, u, a), u, Goto(Goto(s, u, a), u, b))
    ensures Gets(s, u, Goto(s, u, b))
  {
    assert Goto(Goto(s, u, a), u, b) == Goto(s, u, b);
    Then(s, u, Goto(s, u, a), Goto(s, u, b));
  }

  /** Down to height `h`. */
  lemma {:induction false} ComesDown(s: State, u: nat, from: Ref, via: Via, h: nat) returns (at: Ref, way: Via)
    requires Unlocked(s) && InnersOk(s.tree) && KidsOk(s.tree) && Exists(s.tree, from) && h <= RefHeight(s.tree, from)
    requires u in s.threads && s.threads[u].pc == Arrived(from, via) && ParentUnchanged(s, from, via)
    ensures CameDown(s, from, via, s.threads[u].key, h, at, way) && ParentUnchanged(s, at, way)
    ensures Gets(s, u, Goto(s, u, Arrived(at, way)))
    decreases RefHeight(s.tree, from)
  {
    if h == RefHeight(s.tree, from) {
      at, way := from, via;
      assert Goto(s, u, Arrived(at, way)) == s;
      NoStep(s, u);
    } else {
      var kid := OneDown(s, u, from.id, via);
      var m := Goto(s, u, Arrived(kid, Through(from.id, s.ver[from.id])));
      at, way := ComesDown(m, u, kid, Through(from.id, s.ver[from.id]), h);
      StillDown(s, from.id, via, s.threads[u].key, h, kid, at, way);
      GoesThrough(s, u, Arrived(kid, Through(from.id, s.ver[from.id])), Arrived(at, way));
    }
  }

  // ---- the leaf ------------------------------------------------------------------------------------

  function InTheLeaf(s: State, u: nat, p: nat, way: Via, excl: bool): State
    requires u in s.threads && p in s.locks && s.locks[p].Shared?
  {
    Goto(s.(locks := s.locks[p := Acquire(s.locks[p], u, excl)]), u, InLeaf(p, excl, way))
  }

  lemma EntersLeaf(s: State, u: nat, p: nat, way: Via, excl: bool, e: State)
    requires Unlocked(s) && p in s.tree.leaves && u in s.threads && s.threads[u].pc == Arrived(LeafRef(p), way) && ParentUnchanged(s, LeafRef(p), way)
    requires Gets(InTheLeaf(s, u, p, way, excl), u, e)
    ensures Gets(s, u, e)
  {
    var s1 := Goto(s.(locks := s.locks[p := Acquire(s.locks[p], u, excl)]), u, LeafLocked(p, excl, way));
    var s2 := InTheLeaf(s, u, p, way, excl);
    assert s2 == Goto(s1, u, InLeaf(p, excl, way));
    assert DoLockLeaf(s, u, excl, s1) && DoCheckLeaf(s1, u, s2);
    StepThen(s1, u, CheckLeaf, s2, e);
    StepThen(s, u, LockLeaf(excl), s1, e);
  }

  /** Everyone idle, thread `u` about to look for `key`. */
  function Begun(s: State, u: nat, key: Key): State { s.(threads := s.threads[u := Thread(key, Arrived(s.tree.root, Top))]) }

  lemma BeginsThen(s: State, u: nat, key: Key, e: State)
    requires u in s.threads && s.threads[u].pc.Idle? && Gets(Begun(s, u, key), u, e)
    ensures Gets(s, u, e)
  {
    assert DoBegin(s, u, key, Begun(s, u, key));
    StepThen(s, u, Begin(key), Begun(s, u, key), e);
  }

  /** Alone, from a well-formed tree with nothing locked, a thread gets to the leaf its key belongs to. */
  lemma FindsLeaf(s: State, u: nat, key: Key, excl: bool) returns (way: Via)
    requires WF(s.tree) && Unlocked(s) && u in s.threads && s.threads[u].pc.Idle?
    ensures var p := Route(s.tree, s.tree.root, key);
      && p in s.locks && s.locks[p].Shared?
      && Gets(s, u, InTheLeaf(Begun(s, u, key), u, p, way, excl))
      && CameDown(s, s.tree.root, Top, key, 0, LeafRef(p), way) && ParentUnchanged(s, LeafRef(p), way)
  {
    var b, p := Begun(s, u, key), Route(s.tree, s.tree.root, key);
    RouteToLeaf(s.tree, s.tree.root, key);
    var at;
    at, way := ComesDown(b, u, s.tree.root, Top, 0);
    var a := Goto(b, u, Arrived(at, way));
    assert InTheLeaf(a, u, p, way, excl) == InTheLeaf(b, u, p, way, excl);
    var l := InTheLeaf(b, u, p, way, excl);
    NoStep(l, u);
    EntersLeaf(a, u, p, way, excl, l);
    Then(b, u, a, l);
    BeginsThen(s, u, key, l);
  }

  // ---- every change, from where the thread stands --------------------------------------------------

  ghost predicate Done(s: State, u: nat, t: Tree, e: State) { Gets(s, u, e) && e.tree == t && u in e.threads && e.threads[u].pc.Idle? }

  lemma GivesUp(s: State, u: nat) returns (e: State)
    requires u in s.threads && (s.threads[u].pc.InLeaf? || s.threads[u].pc.LeafDone?)
    ensures Done(s, u, s.tree, e)
  {
    e := Goto(s.(locks := ReleaseAll(s.locks, u, LeafLocks(s.threads[u].pc))), u, Idle);
    assert DoGiveUp(s, u, e);
    NoStep(e, u);
    StepThen(s, u, GiveUp, e, e);
  }

  lemma Goes(s: State, u: nat, step: Step, m: State, t: Tree, e: State)
    requires Next(s, u, step, m) && Done(m, u, t, e)
    ensures Done(s, u, t, e)
  {
    StepThen(s, u, step, m, e);
  }

  lemma Writes(s: State, u: nat, v: Option<Value>) returns (e: State)
    requires u in s.threads && s.threads[u].pc.InLeaf? && s.threads[u].pc.excl && s.threads[u].pc.p in s.tree.leaves
    ensures Done(s, u, Apply(s.tree, WriteEffect(s.threads[u].pc.p, s.threads[u].key, v)), e)
  {
    var m := s.(tree := Apply(s.tree, WriteEffect(s.threads[u].pc.p, s.threads[u].key, v)));
    assert DoWrite(s, u, v, m);
    e := GivesUp(m, u);
    Goes(s, u, Write(v), m, m.tree, e);
  }

  lemma CutsLeaf(s: State, u: nat, key: Key, q: nat, n: nat) returns (e: State)
    requires u in s.threads && s.threads[u].pc.InLeaf? && s.threads[u].pc.excl && n in s.ver && s.threads[u].pc.via == Through(n, s.ver[n])
    requires Possible(s.tree, SplitLeaf(n, s.threads[u].pc.p, q, key))
    ensures Done(s, u, Apply(s.tree, SplitLeaf(n, s.threads[u].pc.p, q, key)), e)
  {
    var p := s.threads[u].pc.p;
    var a := Goto(Bump(s, n), u, ParentHeld(p, n));
    var b := Goto(a.(tree := Apply(a.tree, SplitLeaf(n, p, q, key)), locks := a.locks[q := Excl(u)]), u, ParentDone(p, q, n));
    var c := Goto(Bump(b, n), u, LeafDone({p, q}));
    assert DoUpgradeParent(s, u, a) && DoSplitLeaf(a, u, key, q, b) && DoUnlock(b, u, c);
    e := GivesUp(c, u);
    Goes(b, u, Unlock, c, c.tree, e);
    Goes(a, u, CutLeaf(key, q), b, c.tree, e);
    Goes(s, u, UpgradeParent, a, c.tree, e);
  }

  lemma CutsRootLeaf(s: State, u: nat, key: Key, q: nat, m: nat) returns (e: State)
    requires u in s.threads && s.threads[u].pc.InLeaf? && s.threads[u].pc.excl && s.threads[u].pc.via.Top?
    requires Possible(s.tree, SplitRootLeaf(s.threads[u].pc.p, q, m, key))
    ensures Done(s, u, Apply(s.tree, SplitRootLeaf(s.threads[u].pc.p, q, m, key)), e)
  {
    var p := s.threads[u].pc.p;
    var a := Goto(s.(tree := Apply(s.tree, SplitRootLeaf(p, q, m, key)), ver := s.ver[m := FRESH], locks := s.locks[q := Excl(u)]),
                  u, LeafDone({p, q}));
    assert DoSplitRootLeaf(s, u, key, q, m, a);
    e := GivesUp(a, u);
    Goes(s, u, CutRootLeaf(key, q, m), a, a.tree, e);
  }

  lemma Unlocks2(s: State, u: nat, c: nat) returns (e: State)
    requires u in s.threads && c in s.ver && s.threads[u].pc == CurDone(c)
    ensures Done(s, u, s.tree, e)
  {
    e := Goto(Bump(s, c), u, Idle);
    assert DoUnlock(s, u, e);
    NoStep(e, u);
    StepThen(s, u, Unlock, e, e);
  }

  lemma CutsBoth(s: State, u: nat, c: nat, n: nat, d: nat) returns (e: State)
    requires u in s.threads && c in s.ver && n in s.ver && d !in s.ver && s.threads[u].pc == BothHeld(c, n)
    requires Possible(s.tree, SplitInner(n, c, d))
    ensures Done(s, u, Apply(s.tree, SplitInner(n, c, d)), e)
  {
    var z := Goto(s.(tree := Apply(s.tree, SplitInner(n, c, d)), ver := s.ver[d := FRESH]), u, BothDone(c, n));
    var w := Goto(Bump(z, n), u, CurDone(c));
    assert DoSplitInner(s, u, d, z) && DoUnlock(z, u, w);
    e := Unlocks2(w, u, c);
    Goes(z, u, Unlock, w, w.tree, e);
    Goes(s, u, CutInner(d), z, w.tree, e);
  }

  lemma CutsInner(s: State, u: nat, c: nat, n: nat, d: nat) returns (e: State)
    requires u in s.threads && c in s.ver && n in s.ver && c != n && s.threads[u].pc == Standing(c, s.ver[c], Through(n, s.ver[n]))
    requires Possible(s.tree, SplitInner(n, c, d)) && d !in s.ver
    ensures Done(s, u, Apply(s.tree, SplitInner(n, c, d)), e)
  {
    var x := Goto(Bump(s, c), u, CurHeld(c, n, s.ver[n]));
    var y := Goto(Bump(x, n), u, BothHeld(c, n));
    assert DoLockCur(s, u, x) && DoLockCurParent(x, u, y);
    e := CutsBoth(y, u, c, n, d);
    Goes(x, u, LockCurParent, y, e.tree, e);
    Goes(s, u, LockCur, x, e.tree, e);
  }

  lemma CutsHeldRoot(s: State, u: nat, c: nat, d: nat, m: nat) returns (e: State)
    requires u in s.threads && c in s.ver && d !in s.ver && m !in s.ver && s.threads[u].pc == RootHeld(c)
    requires Possible(s.tree, SplitRootInner(c, d, m))
    ensures Done(s, u, Apply(s.tree, SplitRootInner(c, d, m)), e)
  {
    var y := Goto(s.(tree := Apply(s.tree, SplitRootInner(c, d, m)), ver := s.ver[d := FRESH][m := FRESH.Bumped()]), u, RootDone(c, m));
    var z := Goto(Bump(y, m), u, CurDone(c));
    assert DoSplitRootInner(s, u, d, m, y) && DoUnlock(y, u, z);
    e := Unlocks2(z, u, c);
    Goes(y, u, Unlock, z, z.tree, e);
    Goes(s, u, CutRootInner(d, m), y, z.tree, e);
  }

  lemma CutsRootInner(s: State, u: nat, c: nat, d: nat, m: nat) returns (e: State)
    requires u in s.threads && c in s.ver && s.threads[u].pc == Standing(c, s.ver[c], Top)
    requires Possible(s.tree, SplitRootInner(c, d, m)) && d !in s.ver && m !in s.ver
    ensures Done(s, u, Apply(s.tree, SplitRootInner(c, d, m)), e)
  {
    var x := Goto(Bump(s, c), u, RootHeld(c));
    assert DoLockRoot(s, u, x);
    e := CutsHeldRoot(x, u, c, d, m);
    Goes(s, u, LockRoot, x, e.tree, e);
  }

  // ---- the parent on the way is the parent ---------------------------------------------------------

  lemma OneInner(t: Tree, m: nat, n: nat, k: Key)
    requires InnersApart(t) && m in t.inners && n in t.inners && t.inners[m].height == t.inners[n].height
    requires Within(k, t.inners[m].lo, t.inners[m].hi) && Within(k, t.inners[n].lo, t.inners[n].hi)
    ensures m == n
  {
    Order();
  }

  /** A key in a child's range is in the parent's. */
  lemma ParentSpans(t: Tree, n: nat, j: nat, k: Key)
    requires InnersOk(t) && KidsOk(t) && n in t.inners && j < |t.inners[n].kids| && Within(k, SlotLo(t.inners[n], j), SlotHi(t.inners[n], j))
    ensures Within(k, t.inners[n].lo, t.inners[n].hi)
  {
    Order();
  }

  lemma RouteThrough(t: Tree, n: nat, k: Key)
    requires WF(t) && n in t.inners && Within(k, t.inners[n].lo, t.inners[n].hi)
    ensures t.root.InnerRef? && t.inners[n].height + 1 <= RefHeight(t, t.root)
    ensures RouteTo(t, t.root, k, t.inners[n].height + 1) == InnerRef(n)
  {
    RootSpans(t, k);
    var x := RouteTo(t, t.root, k, t.inners[n].height + 1);
    OneInner(t, x.id, n, k);
  }

  // ---- every change --------------------------------------------------------------------------------

  /** The state the theorems start from. */
  ghost predicate Quiet(s: State, u: nat) { WF(s.tree) && Unlocked(s) && u in s.threads && s.threads[u].pc.Idle? }

  lemma AloneWrites(s: State, u: nat, p: nat, k: Key, v: Option<Value>) returns (e: State)
    requires Quiet(s, u) && p in s.tree.leaves && Within(k, s.tree.leaves[p].lo, s.tree.leaves[p].hi)
    ensures Done(s, u, Apply(s.tree, WriteEffect(p, k, v)), e)
  {
    OwnerReads(s.tree, p, k);
    var way := FindsLeaf(s, u, k, true);
    var l := InTheLeaf(Begun(s, u, k), u, p, way, true);
    e := Writes(l, u, v);
    Then(s, u, l, e);
  }

  lemma AloneCutsLeaf(s: State, u: nat, n: nat, p: nat, q: nat, key: Key) returns (e: State)
    requires Quiet(s, u) && Enabled(s.tree, SplitLeaf(n, p, q, key))
    ensures Done(s, u, Apply(s.tree, SplitLeaf(n, p, q, key)), e)
  {
    LtTotal(s.tree.leaves[p].lo, key);
    OwnerReads(s.tree, p, key);
    var way := FindsLeaf(s, u, key, true);
    var x := s.tree.inners[n];
    assert KidOk(s.tree, x, Slot(x.seps, key));
    ParentSpans(s.tree, n, Slot(x.seps, key), key);
    RouteThrough(s.tree, n, key);
    var l := InTheLeaf(Begun(s, u, key), u, p, way, true);
    e := CutsLeaf(l, u, key, q, n);
    Then(s, u, l, e);
  }

  lemma AloneCutsRootLeaf(s: State, u: nat, p: nat, q: nat, m: nat, key: Key) returns (e: State)
    requires Quiet(s, u) && Enabled(s.tree, SplitRootLeaf(p, q, m, key))
    ensures Done(s, u, Apply(s.tree, SplitRootLeaf(p, q, m, key)), e)
  {
    var way := FindsLeaf(s, u, key, true);
    var l := InTheLeaf(Begun(s, u, key), u, p, way, true);
    e := CutsRootLeaf(l, u, key, q, m);
    Then(s, u, l, e);
  }

  lemma StandsAt(s: State, u: nat, c: nat, way: Via)
    requires Unlocked(s) && InnersOk(s.tree) && KidsOk(s.tree) && c in s.tree.inners
    requires u in s.threads && s.threads[u].pc == Arrived(InnerRef(c), way) && ParentUnchanged(s, InnerRef(c), way)
    ensures Gets(s, u, Goto(s, u, Standing(c, s.ver[c], way)))
  {
    var s1, s2, s3 := SoloInner(s, u, c, way);
    NoStep(s2, u);
    StepThen(s1, u, CheckNode, s2, s2);
    StepThen(s, u, TryRead, s1, s2);
  }

  lemma ComesTo(s: State, u: nat, key: Key, h: nat) returns (at: Ref, way: Via, a: State)
    requires Quiet(s, u) && h <= RefHeight(s.tree, s.tree.root)
    ensures CameDown(s, s.tree.root, Top, key, h, at, way) && ParentUnchanged(s, at, way)
    ensures a == Goto(Begun(s, u, key), u, Arrived(at, way)) && Gets(s, u, a)
  {
    var b := Begun(s, u, key);
    at, way := ComesDown(b, u, s.tree.root, Top, h);
    a := Goto(b, u, Arrived(at, way));
    BeginsThen(s, u, key, a);
  }

  /** Down to an inner node, validated. */
  lemma Stands(s: State, u: nat, c: nat, key: Key) returns (way: Via, e: State)
    requires Quiet(s, u) && c in s.tree.inners && Within(key, s.tree.inners[c].lo, s.tree.inners[c].hi)
    ensures s.tree.root.InnerRef? && s.tree.inners[c].height + 1 <= RefHeight(s.tree, s.tree.root)
    ensures CameDown(s, s.tree.root, Top, key, s.tree.inners[c].height + 1, InnerRef(c), way)
    ensures c in s.ver && e == Goto(Begun(s, u, key), u, Standing(c, s.ver[c], way)) && Gets(s, u, e)
  {
    RouteThrough(s.tree, c, key);
    var at, a;
    at, way, a := ComesTo(s, u, key, s.tree.inners[c].height + 1);
    StandsAt(a, u, c, way);
    e := Goto(a, u, Standing(c, s.ver[c], way));
    Then(s, u, a, e);
  }

  lemma SepInside(x: Inner)
    requires InnerOk(x) && CanSplit(x)
    ensures Within(SplitSep(x), x.lo, x.hi)
  {
    LtTotal(x.lo, SplitSep(x));
  }

  lemma AloneCutsInner(s: State, u: nat, n: nat, c: nat, d: nat) returns (e: State)
    requires Quiet(s, u) && Enabled(s.tree, SplitInner(n, c, d))
    ensures Done(s, u, Apply(s.tree, SplitInner(n, c, d)), e)
  {
    var key, x := SplitSep(s.tree.inners[c]), s.tree.inners[n];
    SepInside(s.tree.inners[c]);
    assert KidOk(s.tree, x, Slot(x.seps, key));
    ParentSpans(s.tree, n, Slot(x.seps, key), key);
    RouteThrough(s.tree, n, key);
    var way, l := Stands(s, u, c, key);
    e := CutsInner(l, u, c, n, d);
    Then(s, u, l, e);
  }

  lemma AloneCutsRootInner(s: State, u: nat, c: nat, d: nat, m: nat) returns (e: State)
    requires Quiet(s, u) && Enabled(s.tree, SplitRootInner(c, d, m))
    ensures Done(s, u, Apply(s.tree, SplitRootInner(c, d, m)), e)
  {
    SepInside(s.tree.inners[c]);
    var way, l := Stands(s, u, c, SplitSep(s.tree.inners[c]));
    e := CutsRootInner(l, u, c, d, m);
    Then(s, u, l, e);
  }

  lemma QuietWhenIdle(run: seq<State>, who: seq<nat>, steps: seq<Step>, i: nat, u: nat)
    requires Run(run, who, steps) && i < |run| && u in run[i].threads && forall w :: w in run[i].threads ==> run[i].threads[w].pc.Idle?
    ensures Quiet(run[i], u)
  {
    RunKeepsInv(run, who, steps, i);
    IdleMeansUnlocked(run, who, steps, i);
  }

  /** From every reachable state in which all are idle, any thread that goes alone gets to the leaf of any key, to
      read or to write: nothing that happened before can keep it out. */
  lemma AloneFinds(run: seq<State>, who: seq<nat>, steps: seq<Step>, i: nat, u: nat, key: Key, excl: bool) returns (e: State)
    requires Run(run, who, steps) && i < |run| && u in run[i].threads && forall w :: w in run[i].threads ==> run[i].threads[w].pc.Idle?
    ensures WF(run[i].tree) && Gets(run[i], u, e) && e.tree == run[i].tree && u in e.threads && e.threads[u].key == key
    ensures e.threads[u].pc.InLeaf? && e.threads[u].pc.excl == excl && e.threads[u].pc.p == Route(run[i].tree, run[i].tree.root, key)
  {
    QuietWhenIdle(run, who, steps, i, u);
    var way := FindsLeaf(run[i], u, key, excl);
    e := InTheLeaf(Begun(run[i], u, key), u, Route(run[i].tree, run[i].tree.root, key), way, excl);
  }

  lemma Upgrades(s: State, u: nat, p: nat, way: Via) returns (e: State)
    requires u in s.threads && s.threads[u].pc == InLeaf(p, false, way) && p in s.locks && s.locks[p] == Shared({u})
    ensures Next(s, u, UpgradeLeaf, e) && u in e.threads && e.threads[u].pc == InLeaf(p, true, way) && HoldsExcl(e, u, p)
  {
    e := Goto(s.(locks := s.locks[p := Excl(u)]), u, InLeaf(p, true, way));
  }

  /** A reader that is alone in its leaf can go on to write. */
  lemma AloneUpgrades(run: seq<State>, who: seq<nat>, steps: seq<Step>, i: nat, u: nat, key: Key) returns (m: State, e: State)
    requires Run(run, who, steps) && i < |run| && u in run[i].threads && forall w :: w in run[i].threads ==> run[i].threads[w].pc.Idle?
    ensures Gets(run[i], u, m) && u in m.threads && m.threads[u].pc.InLeaf? && !m.threads[u].pc.excl && Next(m, u, UpgradeLeaf, e)
    ensures u in e.threads && e.threads[u].pc == m.threads[u].pc.(excl := true) && HoldsExcl(e, u, m.threads[u].pc.p)
  {
    QuietWhenIdle(run, who, steps, i, u);
    var way := FindsLeaf(run[i], u, key, false);
    var p := Route(run[i].tree, run[i].tree.root, key);
    m := InTheLeaf(Begun(run[i], u, key), u, p, way, false);
    ReadsAlone(run[i], u, key, p, way);
    e := Upgrades(m, u, p, way);
  }

  lemma ReadsAlone(s: State, u: nat, key: Key, p: nat, way: Via)
    requires Unlocked(s) && p in s.locks
    ensures var m := InTheLeaf(Begun(s, u, key), u, p, way, false);
      u in m.threads && m.threads[u].pc == InLeaf(p, false, way) && p in m.locks && m.locks[p] == Shared({u})
  {
    assert {} + {u} == {u};
  }

  /** And it can make every change the tree allows -- a write, a split of a leaf or an inner node, a new root -- and
      is idle again afterwards. */
  lemma AloneChanges(run: seq<State>, who: seq<nat>, steps: seq<Step>, i: nat, u: nat, x: Effect) returns (e: State)
    requires Run(run, who, steps) && i < |run| && u in run[i].threads && forall w :: w in run[i].threads ==> run[i].threads[w].pc.Idle?
    requires Enabled(run[i].tree, x)
    ensures Done(run[i], u, Apply(run[i].tree, x), e)
  {
    QuietWhenIdle(run, who, steps, i, u);
    match x
    case Put(p, k, v) => e := AloneWrites(run[i], u, p, k, Some(v));
    case Remove(p, k) => e := AloneWrites(run[i], u, p, k, None);
    case SplitLeaf(n, p, q, key) => e := AloneCutsLeaf(run[i], u, n, p, q, key);
    case SplitRootLeaf(p, q, m, key) => e := AloneCutsRootLeaf(run[i], u, p, q, m, key);
    case SplitInner(n, c, d) => e := AloneCutsInner(run[i], u, n, c, d);
    case SplitRootInner(c, d, m) => e := AloneCutsRootInner(run[i], u, c, d, m);
  }
}
