/** The B-tree as one value: leaves and inner nodes with the key range each is responsible for.

    Inner nodes carry their height and range as model fields (the source keeps only the flag
    `children_is_leaf`, which is `height == 0`).  `Route` is the descent of the source; the effects below
    are what a client write or a node split does to the tree. */
module TreeShape {
  import opened Bytes

  datatype Option<+T> = None | Some(value: T)

  /** The tagged union `PageID`. */
  datatype Ref = LeafRef(id: nat) | InnerRef(id: nat)

  datatype Leaf = Leaf(lo: Key, hi: Bound, recs: map<Key, Value>)

  datatype Inner = Inner(height: nat, isRoot: bool, lo: Key, hi: Bound, seps: seq<Key>, kids: seq<nat>)

  datatype Tree = Tree(leaves: map<nat, Leaf>, inners: map<nat, Inner>, root: Ref)

  // ---- routing inside one inner node ---------------------------------------------------------------

  /** The child slot for `k`: the last slot whose separator is at most `k`. */
  function Slot(seps: seq<Key>, k: Key): (j: nat)
    ensures j <= |seps|
    ensures j > 0 ==> Le(seps[j - 1], k)
    ensures j < |seps| ==> Lt(k, seps[j])
  {
    if |seps| == 0 || Le(seps[|seps| - 1], k) then |seps| else Slot(seps[..|seps| - 1], k)
  }

  lemma SlotUnique(seps: seq<Key>, k: Key, j: nat)
    requires Sorted(seps) && j <= |seps|
    requires j > 0 ==> Le(seps[j - 1], k)
    requires j < |seps| ==> Lt(k, seps[j])
    ensures Slot(seps, k) == j
  {
    Order();
    var i := Slot(seps, k);
    assert i == j;
  }

  function SlotLo(n: Inner, j: nat): Key
    requires j <= |n.seps|
  {
    if j == 0 then n.lo else n.seps[j - 1]
  }

  function SlotHi(n: Inner, j: nat): Bound
    requires j <= |n.seps|
  {
    if j == |n.seps| then n.hi else At(n.seps[j])
  }

  function KidRef(n: Inner, j: nat): Ref
    requires j < |n.kids|
  {
    if n.height == 0 then LeafRef(n.kids[j]) else InnerRef(n.kids[j])
  }

  // ---- well-formed trees ---------------------------------------------------------------------------

  predicate InnerOk(n: Inner) {
    && |n.kids| == |n.seps| + 1
    && Sorted(n.seps)
    && Below(n.lo, n.hi)
    && (forall i :: 0 <= i < |n.seps| ==> Lt(n.lo, n.seps[i]) && Below(n.seps[i], n.hi))
  }

  ghost predicate LeafOk(l: Leaf) {
    Below(l.lo, l.hi) && forall k :: k in l.recs ==> Within(k, l.lo, l.hi)
  }

  /** The `j`-th child exists, one level down, with exactly the range of its slot. */
  predicate KidOk(t: Tree, n: Inner, j: nat)
    requires j < |n.kids| == |n.seps| + 1
  {
    var id := n.kids[j];
    if n.height == 0 then
      id in t.leaves && t.leaves[id].lo == SlotLo(n, j) && t.leaves[id].hi == SlotHi(n, j)
    else
      && id in t.inners && t.inners[id].height + 1 == n.height
      && t.inners[id].lo == SlotLo(n, j) && t.inners[id].hi == SlotHi(n, j)
  }

  predicate Apart(lo1: Key, hi1: Bound, lo2: Key, hi2: Bound) {
    (hi1 != Inf && Le(hi1.key, lo2)) || (hi2 != Inf && Le(hi2.key, lo1))
  }

  predicate KidAt(t: Tree, m: nat, j: nat, r: Ref) {
    m in t.inners && j < |t.inners[m].kids| && KidRef(t.inners[m], j) == r
  }

  ghost predicate HasParent(t: Tree, r: Ref) {
    exists m, j :: KidAt(t, m, j, r)
  }

  predicate Exists(t: Tree, r: Ref) {
    match r case LeafRef(p) => p in t.leaves case InnerRef(n) => n in t.inners
  }

  predicate InnersOk(t: Tree) {
    forall n :: n in t.inners ==> InnerOk(t.inners[n])
  }

  predicate KidsOk(t: Tree)
    requires InnersOk(t)
  {
    forall n, j {:trigger KidOk(t, t.inners[n], j)} :: n in t.inners && 0 <= j < |t.inners[n].kids| ==> KidOk(t, t.inners[n], j)
  }

  ghost predicate LeavesOk(t: Tree) {
    forall p :: p in t.leaves ==> LeafOk(t.leaves[p])
  }

  predicate InnersApart(t: Tree) {
    forall m, n :: m in t.inners && n in t.inners && m != n && t.inners[m].height == t.inners[n].height ==>
      Apart(t.inners[m].lo, t.inners[m].hi, t.inners[n].lo, t.inners[n].hi)
  }

  predicate LeavesApart(t: Tree) {
    forall p, q :: p in t.leaves && q in t.leaves && p != q ==>
      Apart(t.leaves[p].lo, t.leaves[p].hi, t.leaves[q].lo, t.leaves[q].hi)
  }

  /** The root spans every key, tops every other node, and is the only node with the root flag. */
  predicate RootOk(t: Tree) {
    && (forall n :: n in t.inners ==> (t.inners[n].isRoot <==> t.root == InnerRef(n)))
    && match t.root
       case LeafRef(p) =>
         t.leaves.Keys == {p} && t.inners == map[] && t.leaves[p].lo == [] && t.leaves[p].hi == Inf
       case InnerRef(r) =>
         && r in t.inners && t.inners[r].lo == [] && t.inners[r].hi == Inf
         && forall n :: n in t.inners && n != r ==> t.inners[n].height < t.inners[r].height
  }

  /** Nothing is orphaned: every node but the root is somebody's child. */
  ghost predicate ParentsOk(t: Tree) {
    forall r {:trigger HasParent(t, r)} :: Exists(t, r) && r != t.root ==> HasParent(t, r)
  }

  ghost predicate WF(t: Tree) {
    && InnersOk(t) && KidsOk(t) && LeavesOk(t) && InnersApart(t) && LeavesApart(t) && RootOk(t)
    && ParentsOk(t)
  }

  // ---- what a tree means ---------------------------------------------------------------------------

  lemma OneOwner(t: Tree, p: nat, q: nat, k: Key)
    requires LeavesApart(t) && p in t.leaves && q in t.leaves
    requires Within(k, t.leaves[p].lo, t.leaves[p].hi) && Within(k, t.leaves[q].lo, t.leaves[q].hi)
    ensures p == q
  {
    Order();
  }

  function RefHeight(t: Tree, r: Ref): nat
    requires Exists(t, r)
  {
    match r case LeafRef(p) => 0 case InnerRef(n) => t.inners[n].height + 1
  }

  function RefLo(t: Tree, r: Ref): Key
    requires Exists(t, r)
  {
    match r case LeafRef(p) => t.leaves[p].lo case InnerRef(n) => t.inners[n].lo
  }

  function RefHi(t: Tree, r: Ref): Bound
    requires Exists(t, r)
  {
    match r case LeafRef(p) => t.leaves[p].hi case InnerRef(n) => t.inners[n].hi
  }

  /** `traverse_to_leaf` on a tree at rest: the leaf reached from `r`. */
  function Route(t: Tree, r: Ref, k: Key): (p: nat)
    requires InnersOk(t) && KidsOk(t) && Exists(t, r)
    ensures p in t.leaves
    ensures Within(k, RefLo(t, r), RefHi(t, r)) ==> Within(k, t.leaves[p].lo, t.leaves[p].hi)
    decreases RefHeight(t, r)
  {
    match r
    case LeafRef(p) => p
    case InnerRef(n) =>
      var j := Slot(t.inners[n].seps, k);
      assert KidOk(t, t.inners[n], j);
      Route(t, KidRef(t.inners[n], j), k)
  }

  function LeafGet(l: Leaf, k: Key): Option<Value> {
    if k in l.recs then Some(l.recs[k]) else None
  }

  /** What reading `k` through the tree returns: the tree as a map. */
  ghost function Get(t: Tree, k: Key): Option<Value>
    requires WF(t)
  {
    LeafGet(t.leaves[Route(t, t.root, k)], k)
  }

  /** The descent ends at the one leaf whose range holds `k`. */
  lemma RouteOwns(t: Tree, k: Key)
    requires WF(t)
    ensures var p := Route(t, t.root, k); Within(k, t.leaves[p].lo, t.leaves[p].hi)
  {
    EmptyIsLeast(k);
  }

  lemma OwnerReads(t: Tree, p: nat, k: Key)
    requires WF(t) && p in t.leaves && Within(k, t.leaves[p].lo, t.leaves[p].hi)
    ensures Route(t, t.root, k) == p && Get(t, k) == LeafGet(t.leaves[p], k)
  {
    RouteOwns(t, k);
    OneOwner(t, p, Route(t, t.root, k), k);
  }

  /** Every inner node can be reached from the root, so a walk of the tree meets all of them. */
  ghost predicate Reachable(t: Tree, n: nat, path: seq<nat>) {
    && |path| > 0 && t.root == InnerRef(path[0]) && path[|path| - 1] == n
    && (forall i :: 0 <= i < |path| ==> path[i] in t.inners && t.inners[path[i]].height + i == RootHeight(t))
    && (forall i :: 0 <= i < |path| - 1 ==> path[i + 1] in t.inners[path[i]].kids)
  }

  function RootHeight(t: Tree): nat {
    if t.root.InnerRef? && t.root.id in t.inners then t.inners[t.root.id].height else 0
  }

  lemma {:induction false} AllReachable(t: Tree, n: nat) returns (path: seq<nat>)
    requires WF(t) && n in t.inners
    ensures Reachable(t, n, path)
    decreases RootHeight(t) - t.inners[n].height
  {
    if t.root == InnerRef(n) {
      path := [n];
    } else {
      assert HasParent(t, InnerRef(n));
      var m, j :| KidAt(t, m, j, InnerRef(n));
      assert KidOk(t, t.inners[m], j);
      var up := AllReachable(t, m);
      path := up + [n];
    }
  }

  // ---- effects -------------------------------------------------------------------------------------

  function InsertAt(n: Inner, j: nat, key: Key, kid: nat): Inner
    requires j <= |n.seps| && |n.kids| == |n.seps| + 1
  {
    n.(seps := n.seps[..j] + [key] + n.seps[j..], kids := n.kids[..j + 1] + [kid] + n.kids[j + 1..])
  }

  function InsertSep(n: Inner, key: Key, kid: nat): Inner
    requires |n.kids| == |n.seps| + 1
  {
    InsertAt(n, Slot(n.seps, key), key, kid)
  }

  function RecsBelow(recs: map<Key, Value>, key: Key): map<Key, Value> {
    map k | k in recs && Lt(k, key) :: recs[k]
  }

  function RecsFrom(recs: map<Key, Value>, key: Key): map<Key, Value> {
    map k | k in recs && Le(key, k) :: recs[k]
  }

  /** Slots kept by the left half when an inner node splits: `count - count / 2`. */
  function Keep(n: Inner): nat { |n.kids| - |n.kids| / 2 }

  function SplitSep(n: Inner): Key
    requires |n.kids| == |n.seps| + 1 && |n.kids| >= 2
  {
    n.seps[Keep(n) - 1]
  }

  function LeftHalf(n: Inner): Inner
    requires |n.kids| == |n.seps| + 1 && |n.kids| >= 2
  {
    n.(isRoot := false, hi := At(SplitSep(n)), seps := n.seps[..Keep(n) - 1], kids := n.kids[..Keep(n)])
  }

  function RightHalf(n: Inner): Inner
    requires |n.kids| == |n.seps| + 1 && |n.kids| >= 2
  {
    n.(isRoot := false, lo := SplitSep(n), seps := n.seps[Keep(n)..], kids := n.kids[Keep(n)..])
  }

  /** What one transaction does to the tree. */
  datatype Effect =
    | Put(p: nat, k: Key, v: Value)
    | Remove(p: nat, k: Key)
    | SplitLeaf(n: nat, p: nat, q: nat, key: Key)
    | SplitRootLeaf(p: nat, q: nat, m: nat, key: Key)
    | SplitInner(n: nat, c: nat, d: nat)
    | SplitRootInner(c: nat, d: nat, m: nat)

  predicate CanSplit(n: Inner) { |n.kids| == |n.seps| + 1 && |n.kids| >= 2 }

  /** What the code checks, or chooses, on the pages it has at hand before it makes the change. */
  predicate Possible(t: Tree, e: Effect) {
    match e
    case Put(p, k, v) => p in t.leaves
    case Remove(p, k) => p in t.leaves
    case SplitLeaf(n, p, q, key) =>
      && n in t.inners && |t.inners[n].kids| == |t.inners[n].seps| + 1 && p in t.leaves && q !in t.leaves
      && Lt(t.leaves[p].lo, key) && Below(key, t.leaves[p].hi)
    case SplitRootLeaf(p, q, m, key) =>
      && p in t.leaves && q !in t.leaves && m !in t.inners && Lt(t.leaves[p].lo, key) && Below(key, t.leaves[p].hi)
    case SplitInner(n, c, d) =>
      && n in t.inners && c in t.inners && d !in t.inners
      && |t.inners[n].kids| == |t.inners[n].seps| + 1 && CanSplit(t.inners[c])
    case SplitRootInner(c, d, m) =>
      c in t.inners && d !in t.inners && m !in t.inners && d != m && CanSplit(t.inners[c])
  }

  /** What must also be so for the change to be right: the written key lies in the leaf's range, the split
      page hangs in the parent's slot for the split key, the split root is the root.  Nothing in the code
      checks this at the time of the change; lock coupling provides it. */
  predicate InPlace(t: Tree, e: Effect)
    requires Possible(t, e)
  {
    match e
    case Put(p, k, v) => Within(k, t.leaves[p].lo, t.leaves[p].hi)
    case Remove(p, k) => Within(k, t.leaves[p].lo, t.leaves[p].hi)
    case SplitLeaf(n, p, q, key) =>
      InnerOk(t.inners[n]) && t.inners[n].height == 0 && t.inners[n].kids[Slot(t.inners[n].seps, key)] == p
    case SplitRootLeaf(p, q, m, key) => t.root == LeafRef(p)
    case SplitInner(n, c, d) =>
      && n != c && InnerOk(t.inners[n]) && t.inners[n].height == t.inners[c].height + 1
      && t.inners[n].kids[Slot(t.inners[n].seps, SplitSep(t.inners[c]))] == c && !t.inners[c].isRoot
    case SplitRootInner(c, d, m) => t.root == InnerRef(c)
  }

  /** Both; it depends only on the pages the effect touches. */
  predicate Enabled(t: Tree, e: Effect) { Possible(t, e) && InPlace(t, e) }

  function Apply(t: Tree, e: Effect): Tree
    requires Possible(t, e)
  {
    match e
    case Put(p, k, v) =>
      t.(leaves := t.leaves[p := t.leaves[p].(recs := t.leaves[p].recs[k := v])])
    case Remove(p, k) =>
      t.(leaves := t.leaves[p := t.leaves[p].(recs := t.leaves[p].recs - {k})])
    case SplitLeaf(n, p, q, key) =>
      var l := t.leaves[p];
      t.(leaves := t.leaves[p := Leaf(l.lo, At(key), RecsBelow(l.recs, key))][q := Leaf(key, l.hi, RecsFrom(l.recs, key))],
         inners := t.inners[n := InsertSep(t.inners[n], key, q)])
    case SplitRootLeaf(p, q, m, key) =>
      var l := t.leaves[p];
      Tree(t.leaves[p := Leaf(l.lo, At(key), RecsBelow(l.recs, key))][q := Leaf(key, l.hi, RecsFrom(l.recs, key))],
           t.inners[m := Inner(0, true, l.lo, l.hi, [key], [p, q])],
           InnerRef(m))
    case SplitInner(n, c, d) =>
      var x := t.inners[c];
      t.(inners := t.inners[c := LeftHalf(x)][d := RightHalf(x)][n := InsertSep(t.inners[n], SplitSep(x), d)])
    case SplitRootInner(c, d, m) =>
      var x := t.inners[c];
      t.(inners := t.inners[c := LeftHalf(x)][d := RightHalf(x)]
                   [m := Inner(x.height + 1, true, x.lo, x.hi, [SplitSep(x)], [c, d])],
         root := InnerRef(m))
  }
}
