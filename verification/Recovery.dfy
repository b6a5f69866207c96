/** Recovery from a snapshot: the captured inner nodes are copied one by one and their child pointers are
    rewritten to the copies; the page table is filled up with placeholders. */
module Recovery {
  import opened Bytes
  import opened TreeShape
  import opened TreeEffects
  import opened TreeSplits
  import opened InnerWalk

  // ---- the rewiring loop ---------------------------------------------------------------------------

  /** Copies made so far: the new nodes, the captured node each is a copy of, and the next free address. */
  datatype Copies = Copies(nodes: map<nat, Inner>, orig: map<nat, nat>, next: nat)

  predicate IsCopy(t: Tree, c: Copies, n: nat) {
    n in c.nodes && n in c.orig && c.orig[n] in t.inners
  }

  /** Still as captured: child pointers name captured nodes. */
  predicate Pending(t: Tree, c: Copies, n: nat) {
    IsCopy(t, c, n) && c.nodes[n] == t.inners[c.orig[n]]
  }

  /** Rewired: child pointers name copies of the captured children; leaf children keep their page ids. */
  predicate Rewired(t: Tree, c: Copies, n: nat) {
    && IsCopy(t, c, n)
    && var x, y := c.nodes[n], t.inners[c.orig[n]];
    && x == y.(kids := x.kids) && |x.kids| == |y.kids|
    && (y.height == 0 ==> x.kids == y.kids)
    && (y.height > 0 ==> forall j :: 0 <= j < |x.kids| ==> CopyOf(c, x.kids[j], y.kids[j]))
  }

  predicate CopyOf(c: Copies, n: nat, m: nat) { n in c.nodes && n in c.orig && c.orig[n] == m }

  function Origs(c: Copies, q: seq<nat>): seq<nat>
    requires forall i :: 0 <= i < |q| ==> q[i] in c.orig
  {
    seq(|q|, i requires 0 <= i < |q| => c.orig[q[i]])
  }

  /** The loop invariant: what is queued is pending, everything else is rewired. */
  ghost predicate Copying(t: Tree, c: Copies, seen: seq<nat>, queue: seq<nat>, root: nat) {
    && c.nodes.Keys == c.orig.Keys && (forall n :: n in c.nodes ==> n < c.next)
    && (forall i :: 0 <= i < |queue| ==> Pending(t, c, queue[i]))
    && (forall n :: n in c.nodes && n !in queue ==> Rewired(t, c, n))
    && t.root.InnerRef? && CopyOf(c, root, t.root.id)
    && Walking(t, t.root.id, seen, Origs(c, queue))
  }

  function Fresh(a: nat, n: nat): seq<nat> { seq(n, i => a + i) }

  /** The first `j` children of node `n` have been copied, to fresh addresses in order. */
  predicate Grew(t: Tree, c: Copies, n: nat, j: nat, c': Copies) {
    && n in c.nodes && j <= |c.nodes[n].kids| && c'.next == c.next + j && c'.nodes.Keys == c'.orig.Keys
    && (forall m :: m in c.nodes && m != n ==> m in c'.nodes && c'.nodes[m] == c.nodes[m])
    && (forall m :: m in c.orig ==> m in c'.orig && c'.orig[m] == c.orig[m])
    && (forall m :: m in c'.nodes ==> m in c.nodes || c.next <= m < c.next + j)
    && (forall i :: 0 <= i < j ==> CopyIs(t, c', c.next + i, c.nodes[n].kids[i]))
  }

  predicate CopyIs(t: Tree, c: Copies, n: nat, m: nat) {
    n in c.nodes && n in c.orig && c.orig[n] == m && m in t.inners && c.nodes[n] == t.inners[m]
  }

  /** All children copied and the child pointers rewritten. */
  predicate Turned(t: Tree, c: Copies, n: nat, c': Copies) {
    && n in c.nodes && Grew(t, c, n, |c.nodes[n].kids|, c')
    && n in c'.nodes && c'.nodes[n] == c.nodes[n].(kids := Fresh(c.next, |c.nodes[n].kids|))
  }

  /** One more copy, at the next address. */
  function Extended(inner: map<nat, Inner>, c: Copies, m: nat): Copies
    requires m in inner
  {
    Copies(c.nodes[c.next := inner[m]], c.orig[c.next := m], c.next + 1)
  }

  lemma GrowOne(t: Tree, c: Copies, n: nat, j: nat, c': Copies)
    requires Grew(t, c, n, j, c') && j < |c.nodes[n].kids| && c.nodes[n].kids[j] in t.inners
    requires (forall m :: m in c.nodes ==> m < c.next) && c.nodes.Keys == c.orig.Keys
    ensures Grew(t, c, n, j + 1, Extended(t.inners, c', c.nodes[n].kids[j]))
  {
    var d := Extended(t.inners, c', c.nodes[n].kids[j]);
    forall i | 0 <= i < j + 1 ensures CopyIs(t, d, c.next + i, c.nodes[n].kids[i]) {
      if i < j { assert CopyIs(t, c', c.next + i, c.nodes[n].kids[i]); }
    }
  }

  function Repointed(c: Copies, n: nat, x: Inner): Copies { c.(nodes := c.nodes[n := x]) }

  lemma RepointKeeps(t: Tree, c: Copies, n: nat, j: nat, c': Copies, x: Inner)
    requires Grew(t, c, n, j, c') && n in c'.nodes && n < c.next
    ensures Grew(t, c, n, j, Repointed(c', n, x))
  {
    var d := Repointed(c', n, x);
    forall i | 0 <= i < j ensures CopyIs(t, d, c.next + i, c.nodes[n].kids[i]) { assert CopyIs(t, c', c.next + i, c.nodes[n].kids[i]); }
  }

  /** The first `j` children copied, and as many child pointers rewritten. */
  predicate KidsDone(t: Tree, c: Copies, n: nat, j: nat, c': Copies) {
    && Grew(t, c, n, j, c') && n in c'.nodes
    && c'.nodes[n] == c.nodes[n].(kids := Fresh(c.next, j) + c.nodes[n].kids[j..])
  }

  function CopyKid(inner: map<nat, Inner>, c: Copies, n: nat, j: nat, m: nat): Copies
    requires n in c.nodes && j < |c.nodes[n].kids| && m in inner
  {
    Repointed(Extended(inner, c, m), n, c.nodes[n].(kids := c.nodes[n].kids[j := c.next]))
  }

  lemma CopyKidOk(t: Tree, c: Copies, n: nat, j: nat, c': Copies)
    requires KidsDone(t, c, n, j, c') && j < |c.nodes[n].kids| && c.nodes[n].kids[j] in t.inners
    requires (forall m :: m in c.nodes ==> m < c.next) && c.nodes.Keys == c.orig.Keys
    ensures KidsDone(t, c, n, j + 1, CopyKid(t.inners, c', n, j, c.nodes[n].kids[j]))
  {
    var ks, m := c.nodes[n].kids, c.nodes[n].kids[j];
    GrowOne(t, c, n, j, c');
    RepointKeeps(t, c, n, j + 1, Extended(t.inners, c', m), c'.nodes[n].(kids := c'.nodes[n].kids[j := c'.next]));
    PointersShift(ks, c.next, j);
  }

  lemma PointersShift(ks: seq<nat>, next: nat, j: nat)
    requires j < |ks|
    ensures (Fresh(next, j) + ks[j..])[j := next + j] == Fresh(next, j + 1) + ks[j + 1..]
    ensures Fresh(next, j) + [next + j] == Fresh(next, j + 1)
  {
  }

  lemma PointersStart(ks: seq<nat>, next: nat)
    ensures Fresh(next, 0) + ks[0..] == ks && Fresh(next, 0) == []
    ensures Fresh(next, |ks|) + ks[|ks|..] == Fresh(next, |ks|)
  {
  }

  /** The inner loop over the children of one node: each is found among the captured nodes. */
  method CopyKids(inner: map<nat, Inner>, c0: Copies, n: nat, ghost t: Tree) returns (c: Copies, added: seq<nat>)
    requires inner == t.inners && n in c0.nodes && (forall m :: m in c0.nodes ==> m < c0.next) && c0.nodes.Keys == c0.orig.Keys
    requires forall j :: 0 <= j < |c0.nodes[n].kids| ==> c0.nodes[n].kids[j] in t.inners
    ensures Turned(t, c0, n, c) && added == Fresh(c0.next, |c0.nodes[n].kids|)
  {
    var ks := c0.nodes[n].kids;
    c, added := c0, [];
    PointersStart(ks, c0.next);
    for j := 0 to |ks|
      invariant KidsDone(t, c0, n, j, c) && added == Fresh(c0.next, j)
    {
      CopyKidOk(t, c0, n, j, c);
      PointersShift(ks, c0.next, j);
      added := added + [c.next];
      c := CopyKid(inner, c, n, j, ks[j]);
    }
  }

  lemma FreshHas(a: nat, n: nat, m: nat)
    ensures a <= m < a + n ==> m in Fresh(a, n)
  {
    if a <= m < a + n { assert Fresh(a, n)[m - a] == m; }
  }

  lemma HeadOrRest(queue: seq<nat>, m: nat)
    requires |queue| > 0
    ensures m in queue ==> m == queue[0] || m in queue[1..]
  {
    assert queue == [queue[0]] + queue[1..];
  }

  lemma KidsExist(t: Tree, c: Copies, n: nat)
    requires WF(t) && Pending(t, c, n) && c.nodes[n].height > 0
    ensures forall j :: 0 <= j < |c.nodes[n].kids| ==> c.nodes[n].kids[j] in t.inners
    ensures InnerKids(t, c.orig[n]) == c.nodes[n].kids
  {
    forall j | 0 <= j < |c.nodes[n].kids| ensures c.nodes[n].kids[j] in t.inners { assert KidOk(t, t.inners[c.orig[n]], j); }
  }

  lemma TurnedPends(t: Tree, c: Copies, queue: seq<nat>, c': Copies, i: nat)
    requires |queue| > 0 && Turned(t, c, queue[0], c') && (forall j :: 0 <= j < |queue| ==> Pending(t, c, queue[j]))
    requires forall j :: 0 < j < |queue| ==> queue[0] != queue[j]
    requires i < |queue| - 1 + |c.nodes[queue[0]].kids|
    ensures Pending(t, c', (queue[1..] + Fresh(c.next, |c.nodes[queue[0]].kids|))[i])
  {
    if i < |queue| - 1 {
      assert Pending(t, c, queue[i + 1]);
    } else {
      assert CopyIs(t, c', c.next + (i - (|queue| - 1)), c.nodes[queue[0]].kids[i - (|queue| - 1)]);
    }
  }

  /** One turn of the loop on a node whose children are inner nodes. */
  lemma TurnRewires(t: Tree, c: Copies, seen: seq<nat>, queue: seq<nat>, root: nat, c': Copies)
    requires WF(t) && Copying(t, c, seen, queue, root) && |queue| > 0 && Turned(t, c, queue[0], c') && c.nodes[queue[0]].height > 0
    ensures var q' := queue[1..] + Fresh(c.next, |c.nodes[queue[0]].kids|);
      forall i :: 0 <= i < |q'| ==> Pending(t, c', q'[i])
  {
    QueueDistinct(t, c, seen, queue, root);
    var q' := queue[1..] + Fresh(c.next, |c.nodes[queue[0]].kids|);
    forall i | 0 <= i < |q'| ensures Pending(t, c', q'[i]) { TurnedPends(t, c, queue, c', i); }
  }

  lemma QueueDistinct(t: Tree, c: Copies, seen: seq<nat>, queue: seq<nat>, root: nat)
    requires Copying(t, c, seen, queue, root)
    ensures forall i, j :: 0 <= i < j < |queue| ==> queue[i] != queue[j]
  {
    var o := Origs(c, queue);
    forall i, j | 0 <= i < j < |queue| ensures queue[i] != queue[j] {
      assert (seen + o)[|seen| + i] == o[i] && (seen + o)[|seen| + j] == o[j];
    }
  }

  /** The node just turned is rewired. */
  lemma TurnedIsRewired(t: Tree, c: Copies, n: nat, c': Copies)
    requires Pending(t, c, n) && Turned(t, c, n, c') && c.nodes[n].height > 0
    ensures Rewired(t, c', n)
  {
    var x, y := c'.nodes[n], t.inners[c.orig[n]];
    forall j | 0 <= j < |x.kids| ensures CopyOf(c', x.kids[j], y.kids[j]) {
      assert CopyIs(t, c', c.next + j, c.nodes[n].kids[j]);
    }
  }

  /** A node rewired earlier stays so. */
  lemma RewiredStays(t: Tree, c: Copies, n: nat, c': Copies, m: nat)
    requires Rewired(t, c, m) && Turned(t, c, n, c') && m != n && c.nodes.Keys == c.orig.Keys
    ensures Rewired(t, c', m)
  {
    var x, y := c.nodes[m], t.inners[c.orig[m]];
    if y.height > 0 {
      forall j | 0 <= j < |x.kids| ensures CopyOf(c', x.kids[j], y.kids[j]) { assert CopyOf(c, x.kids[j], y.kids[j]); }
    }
  }

  lemma TurnKeeps(t: Tree, c: Copies, seen: seq<nat>, queue: seq<nat>, root: nat, c': Copies, m: nat)
    requires WF(t) && Copying(t, c, seen, queue, root) && |queue| > 0 && Turned(t, c, queue[0], c') && c.nodes[queue[0]].height > 0
    requires m in c'.nodes && m !in queue[1..] && m !in Fresh(c.next, |c.nodes[queue[0]].kids|)
    ensures Rewired(t, c', m)
  {
    var n := queue[0];
    var ks := c.nodes[n].kids;
    assert Pending(t, c, n);
    if m == n {
      TurnedIsRewired(t, c, n, c');
    } else {
      FreshHas(c.next, |ks|, m);
      HeadOrRest(queue, m);
      RewiredStays(t, c, n, c', m);
    }
  }

  lemma TurnWalks(t: Tree, c: Copies, seen: seq<nat>, queue: seq<nat>, root: nat)
    requires WF(t) && Copying(t, c, seen, queue, root) && |queue| > 0
    ensures var n := queue[0];
      && c.orig[n] !in seen && Walking(t, t.root.id, seen + [c.orig[n]], Origs(c, queue)[1..] + InnerKids(t, c.orig[n]))
  {
    var o := Origs(c, queue);
    VisitKeepsWalking(t, t.root.id, seen, o);
    HeadNotSeen(seen, o);
  }

  lemma OrigsAfter(t: Tree, c: Copies, queue: seq<nat>, c': Copies)
    requires WF(t) && |queue| > 0 && (forall i :: 0 <= i < |queue| ==> Pending(t, c, queue[i]))
    requires Turned(t, c, queue[0], c') && c.nodes[queue[0]].height > 0
    ensures forall i :: 0 <= i < |queue| ==> queue[i] in c.orig
    ensures var n, q' := queue[0], queue[1..] + Fresh(c.next, |c.nodes[queue[0]].kids|);
      && (forall i :: 0 <= i < |q'| ==> q'[i] in c'.orig)
      && n in c.orig && Origs(c', q') == Origs(c, queue)[1..] + InnerKids(t, c.orig[n])
  {
    var n := queue[0];
    forall i | 0 <= i < |queue| ensures queue[i] in c.orig { assert Pending(t, c, queue[i]); }
    assert Pending(t, c, n);
    KidsExist(t, c, n);
    var ks := c.nodes[n].kids;
    var q', o := queue[1..] + Fresh(c.next, |ks|), Origs(c, queue)[1..] + ks;
    forall i | 0 <= i < |q'| ensures q'[i] in c'.orig && c'.orig[q'[i]] == o[i] {
      if i < |queue| - 1 {
        assert Pending(t, c, queue[i + 1]);
      } else {
        var d := i - (|queue| - 1);
        assert q'[i] == c.next + d && CopyIs(t, c', c.next + d, ks[d]);
      }
    }
  }

  lemma TurnOk(t: Tree, c: Copies, seen: seq<nat>, queue: seq<nat>, root: nat, c': Copies)
    requires WF(t) && Copying(t, c, seen, queue, root) && |queue| > 0 && Turned(t, c, queue[0], c') && c.nodes[queue[0]].height > 0
    ensures Copying(t, c', seen + [c.orig[queue[0]]], queue[1..] + Fresh(c.next, |c.nodes[queue[0]].kids|), root)
  {
    var q' := queue[1..] + Fresh(c.next, |c.nodes[queue[0]].kids|);
    TurnRewires(t, c, seen, queue, root, c');
    TurnWalks(t, c, seen, queue, root);
    OrigsAfter(t, c, queue, c');
    forall m | m in c'.nodes && m !in q' ensures Rewired(t, c', m) { TurnKeeps(t, c, seen, queue, root, c', m); }
  }

  /** A node whose children are leaves is done as it is. */
  lemma LeafTurnOk(t: Tree, c: Copies, seen: seq<nat>, queue: seq<nat>, root: nat)
    requires WF(t) && Copying(t, c, seen, queue, root) && |queue| > 0 && c.nodes[queue[0]].height == 0
    ensures Copying(t, c, seen + [c.orig[queue[0]]], queue[1..], root)
  {
    var n := queue[0];
    assert Pending(t, c, n);
    TurnWalks(t, c, seen, queue, root);
    assert InnerKids(t, c.orig[n]) == [];
    assert Origs(c, queue[1..]) == Origs(c, queue)[1..] + [];
    forall m | m in c.nodes && m !in queue[1..] ensures Rewired(t, c, m) {
      HeadOrRest(queue, m);
    }
  }

  lemma SeenIsBounded(t: Tree, c: Copies, seen: seq<nat>, queue: seq<nat>, root: nat)
    requires Copying(t, c, seen, queue, root) && |queue| > 0
    ensures |seen| < |t.inners.Keys|
  {
    NoDupFits(seen + Origs(c, queue), t.inners.Keys);
  }

  /** The queue loop over the captured nodes `inner` of a tree `t`: it ends, every child looked up is there, and
      every copy has been rewired. */
  method Rewire(inner: map<nat, Inner>, top: nat, ghost t: Tree) returns (c: Copies, root: nat)
    requires WF(t) && t.root == InnerRef(top) && inner == t.inners
    ensures CopyOf(c, root, top) && forall n :: n in c.nodes ==> Rewired(t, c, n)
  {
    root := 0;
    c := Copies(map[0 := inner[top]], map[0 := top], 1);
    var queue := [0];
    ghost var seen := [];
    StartOk(t);
    while |queue| > 0
      invariant Copying(t, c, seen, queue, root)
      decreases |t.inners.Keys| - |seen|
    {
      SeenIsBounded(t, c, seen, queue, root);
      assert Pending(t, c, queue[0]);
      var n := queue[0];
      if c.nodes[n].height == 0 {
        LeafTurnOk(t, c, seen, queue, root);
        seen, queue := seen + [c.orig[n]], queue[1..];
      } else {
        KidsExist(t, c, n);
        var c', added := CopyKids(inner, c, n, t);
        TurnOk(t, c, seen, queue, root, c');
        seen := seen + [c.orig[n]];
        c, queue := c', queue[1..] + added;
      }
    }
  }

  lemma StartOk(t: Tree)
    requires WF(t) && t.root.InnerRef?
    ensures Copying(t, Copies(map[0 := t.inners[t.root.id]], map[0 := t.root.id], 1), [], [0], 0)
  {
    var c := Copies(map[0 := t.inners[t.root.id]], map[0 := t.root.id], 1);
    assert Origs(c, [0]) == [t.root.id] && [] + [t.root.id] == [t.root.id];
  }

  // ---- the recovered tree routes like the captured one ---------------------------------------------

  function Recovered(t: Tree, c: Copies, root: nat): Tree { Tree(t.leaves, c.nodes, InnerRef(root)) }

  lemma RecoveredShape(t: Tree, c: Copies, root: nat)
    requires WF(t) && forall n :: n in c.nodes ==> Rewired(t, c, n)
    ensures InnersOk(Recovered(t, c, root)) && KidsOk(Recovered(t, c, root))
  {
    var u := Recovered(t, c, root);
    forall n, j | n in u.inners && 0 <= j < |u.inners[n].kids| ensures KidOk(u, u.inners[n], j) {
      assert Rewired(t, c, n);
      assert KidOk(t, t.inners[c.orig[n]], j);
      if u.inners[n].height > 0 { assert CopyOf(c, u.inners[n].kids[j], t.inners[c.orig[n]].kids[j]); assert Rewired(t, c, u.inners[n].kids[j]); }
    }
  }

  lemma {:induction false} SameRoute(t: Tree, c: Copies, root: nat, n: nat, k: Key)
    requires WF(t) && (forall m :: m in c.nodes ==> Rewired(t, c, m)) && n in c.nodes
    requires InnersOk(Recovered(t, c, root)) && KidsOk(Recovered(t, c, root))
    ensures IsCopy(t, c, n) && Route(Recovered(t, c, root), InnerRef(n), k) == Route(t, InnerRef(c.orig[n]), k)
    decreases c.nodes[n].height
  {
    var u := Recovered(t, c, root);
    assert Rewired(t, c, n);
    var j := Slot(c.nodes[n].seps, k);
    assert KidOk(u, u.inners[n], j) && KidOk(t, t.inners[c.orig[n]], j);
    if c.nodes[n].height > 0 {
      assert CopyOf(c, c.nodes[n].kids[j], t.inners[c.orig[n]].kids[j]);
      SameRoute(t, c, root, c.nodes[n].kids[j], k);
    }
  }

  /** The recovered tree sends every key to the same leaf page id as the captured one. */
  lemma RecoveredRoutes(t: Tree, c: Copies, root: nat, k: Key)
    requires WF(t) && t.root.InnerRef? && CopyOf(c, root, t.root.id) && forall n :: n in c.nodes ==> Rewired(t, c, n)
    ensures InnersOk(Recovered(t, c, root)) && KidsOk(Recovered(t, c, root))
    ensures Route(Recovered(t, c, root), InnerRef(root), k) == Route(t, t.root, k)
  {
    RecoveredShape(t, c, root);
    SameRoute(t, c, root, root, k);
  }

  // ---- the dense page table ------------------------------------------------------------------------

  datatype Entry = Entry(pid: nat, offset: nat)

  /** The captured base pages, sorted by page id, spread over [0, max]; holes get a placeholder, so that new
      pages are numbered from max + 1. */
  method DenseTable(base: seq<Entry>) returns (table: seq<Option<nat>>)
    requires forall i, j :: 0 <= i < j < |base| ==> base[i].pid < base[j].pid
    ensures |table| == if base == [] then 0 else base[|base| - 1].pid + 1
    ensures forall i :: 0 <= i < |base| ==> base[i].pid < |table| && table[base[i].pid] == Some(base[i].offset)
    ensures forall p :: 0 <= p < |table| && table[p].Some? ==> Entry(p, table[p].value) in base
  {
    table := [];
    if base == [] { return; }
    var next := 0;
    for p := 0 to base[|base| - 1].pid + 1
      invariant |table| == p && 0 <= next <= |base|
      invariant next < |base| ==> p <= base[next].pid
      invariant next == |base| ==> p > base[|base| - 1].pid
      invariant forall i :: 0 <= i < next ==> base[i].pid < p && table[base[i].pid] == Some(base[i].offset)
      invariant forall q :: 0 <= q < p && table[q].Some? ==> Entry(q, table[q].value) in base
    {
      if next < |base| && base[next].pid == p {
        table, next := table + [Some(base[next].offset)], next + 1;
      } else {
        table := table + [None];
      }
    }
  }
}
