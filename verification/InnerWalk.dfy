/** The breadth-first walk of the inner nodes during the sweep's freeze. */
module InnerWalk {
  import opened TreeShape
  import opened TreeEffects
  import opened TreeSplits

  predicate NoDup(s: seq<nat>) { forall i, j :: 0 <= i < j < |s| ==> s[i] != s[j] }

  lemma {:induction false} NoDupFits(s: seq<nat>, all: set<nat>)
    requires NoDup(s) && forall x :: x in s ==> x in all
    ensures |s| <= |all|
  {
    if |s| > 0 {
      var x := s[|s| - 1];
      assert forall y :: y in s[..|s| - 1] ==> y in all - {x};
      NoDupFits(s[..|s| - 1], all - {x});
    }
  }

  /** The inner children of `n`, left to right; none when its children are leaves. */
  function InnerKids(t: Tree, n: nat): seq<nat> {
    if n in t.inners && t.inners[n].height > 0 then t.inners[n].kids else []
  }

  /** `x` is a child of a node in `seen`. */
  ghost predicate FoundBy(t: Tree, seen: seq<nat>, x: nat) {
    exists m :: m in seen && x in InnerKids(t, m)
  }

  /** Everything met is an inner node met once, the root or a child of a node already visited; and all the
      children of visited nodes have been met. */
  ghost predicate Walking(t: Tree, root: nat, seen: seq<nat>, queue: seq<nat>) {
    && NoDup(seen + queue) && root in seen + queue
    && (forall x :: x in seen + queue ==> x in t.inners && (x == root || FoundBy(t, seen, x)))
    && (forall m, x :: m in seen && x in InnerKids(t, m) ==> x in seen + queue)
  }

  lemma KidFacts(t: Tree, n: nat, i: nat)
    requires WF(t) && n in t.inners && i < |InnerKids(t, n)|
    ensures InnerKids(t, n)[i] in t.inners && KidAt(t, n, i, InnerRef(InnerKids(t, n)[i]))
    ensures t.root != InnerRef(InnerKids(t, n)[i])
  {
    assert KidOk(t, t.inners[n], i);
    RootHasNoParent(t, n, i);
  }

  lemma KidsNoDup(t: Tree, n: nat)
    requires WF(t) && n in t.inners
    ensures NoDup(InnerKids(t, n))
  {
    var ks := InnerKids(t, n);
    forall i, j | 0 <= i < j < |ks| ensures ks[i] != ks[j] {
      KidFacts(t, n, i);
      KidFacts(t, n, j);
      if ks[i] == ks[j] { OneParent(t, n, i, n, j, InnerRef(ks[i])); }
    }
  }

  lemma HeadNotSeen(seen: seq<nat>, queue: seq<nat>)
    requires NoDup(seen + queue) && |queue| > 0
    ensures queue[0] !in seen
  {
    assert (seen + queue)[|seen|] == queue[0];
    forall b | 0 <= b < |seen| ensures seen[b] != queue[0] { assert (seen + queue)[b] == seen[b]; }
  }

  /** The children of the node at the head of the queue have not been met before. */
  lemma KidsAreFresh(t: Tree, root: nat, seen: seq<nat>, queue: seq<nat>, i: nat)
    requires WF(t) && t.root == InnerRef(root) && Walking(t, root, seen, queue) && |queue| > 0
    requires i < |InnerKids(t, queue[0])|
    ensures InnerKids(t, queue[0])[i] !in seen + queue
  {
    var n := queue[0];
    var x := InnerKids(t, n)[i];
    KidFacts(t, n, i);
    HeadNotSeen(seen, queue);
    if x in seen + queue {
      var m :| m in seen && x in InnerKids(t, m);
      var a :| 0 <= a < |InnerKids(t, m)| && InnerKids(t, m)[a] == x;
      KidFacts(t, m, a);
      OneParent(t, n, i, m, a, InnerRef(x));
    }
  }

  lemma {:induction false} NoDupAppend(a: seq<nat>, b: seq<nat>)
    requires NoDup(a) && NoDup(b) && forall i :: 0 <= i < |b| ==> b[i] !in a
    ensures NoDup(a + b)
  {
  }

  lemma VisitKeepsWalking(t: Tree, root: nat, seen: seq<nat>, queue: seq<nat>)
    requires WF(t) && t.root == InnerRef(root) && Walking(t, root, seen, queue) && |queue| > 0
    ensures Walking(t, root, seen + [queue[0]], queue[1..] + InnerKids(t, queue[0]))
  {
    var n, ks := queue[0], InnerKids(t, queue[0]);
    var met' := (seen + [n]) + (queue[1..] + ks);
    assert met' == (seen + queue) + ks;
    assert n in seen + queue;
    KidsNoDup(t, n);
    forall i | 0 <= i < |ks| ensures ks[i] !in seen + queue { KidsAreFresh(t, root, seen, queue, i); }
    NoDupAppend(seen + queue, ks);
    forall x | x in met' ensures x in t.inners && (x == root || FoundBy(t, seen + [n], x)) {
      if x in ks {
        var i :| 0 <= i < |ks| && ks[i] == x;
        KidFacts(t, n, i);
        assert n in seen + [n];
      } else if x != root {
        assert x in seen + queue;
        var m :| m in seen && x in InnerKids(t, m);
        assert m in seen + [n];
      }
    }
  }

  /** With the queue empty, every node on a path from the root has been visited. */
  lemma {:induction false} PathVisited(t: Tree, root: nat, seen: seq<nat>, path: seq<nat>, n: nat, i: nat)
    requires t.root == InnerRef(root) && Walking(t, root, seen, []) && Reachable(t, n, path) && i < |path|
    ensures path[i] in seen
  {
    assert seen + [] == seen;
    if i > 0 {
      PathVisited(t, root, seen, path, n, i - 1);
      assert path[i] in t.inners[path[i - 1]].kids;
      assert path[i] in InnerKids(t, path[i - 1]);
    }
  }

  /** The walk meets every inner node of the tree exactly once, and nothing else. */
  method VisitInner(t: Tree) returns (seen: seq<nat>)
    requires WF(t)
    ensures NoDup(seen) && forall n :: n in seen <==> n in t.inners
  {
    seen := [];
    if t.root.LeafRef? { return; }
    var queue := [t.root.id];
    while |queue| > 0
      invariant Walking(t, t.root.id, seen, queue)
      decreases |t.inners.Keys| - |seen|
    {
      VisitKeepsWalking(t, t.root.id, seen, queue);
      NoDupFits(seen + queue, t.inners.Keys);
      seen, queue := seen + [queue[0]], queue[1..] + InnerKids(t, queue[0]);
    }
    assert seen + queue == seen;
    forall n | n in t.inners ensures n in seen {
      var path := AllReachable(t, n);
      PathVisited(t, t.root.id, seen, path, n, |path| - 1);
    }
  }
}
