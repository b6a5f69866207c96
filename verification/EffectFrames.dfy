/** Which pages an effect touches and creates, and that it depends on and changes nothing else.  Two trees
    that agree on the touched pages can therefore take the same effect and agree on them afterwards. */
module EffectFrames {
  import opened Bytes
  import opened TreeShape

  function LeafTouch(e: Effect): set<nat> {
    match e
    case Put(p, k, v) => {p}
    case Remove(p, k) => {p}
    case SplitLeaf(n, p, q, key) => {p}
    case SplitRootLeaf(p, q, m, key) => {p}
    case _ => {}
  }

  function LeafNew(e: Effect): set<nat> {
    match e
    case SplitLeaf(n, p, q, key) => {q}
    case SplitRootLeaf(p, q, m, key) => {q}
    case _ => {}
  }

  function InnerTouch(e: Effect): set<nat> {
    match e
    case SplitLeaf(n, p, q, key) => {n}
    case SplitInner(n, c, d) => {n, c}
    case SplitRootInner(c, d, m) => {c}
    case _ => {}
  }

  function InnerNew(e: Effect): set<nat> {
    match e
    case SplitRootLeaf(p, q, m, key) => {m}
    case SplitInner(n, c, d) => {d}
    case SplitRootInner(c, d, m) => {d, m}
    case _ => {}
  }

  /** The root pointer moves to a new node; the old root is among the touched pages. */
  predicate MovesRoot(e: Effect) { e.SplitRootLeaf? || e.SplitRootInner? }

  predicate Touches(e: Effect, r: Ref) {
    match r case LeafRef(p) => p in LeafTouch(e) case InnerRef(n) => n in InnerTouch(e)
  }

  predicate Makes(e: Effect, r: Ref) {
    match r case LeafRef(p) => p in LeafNew(e) case InnerRef(n) => n in InnerNew(e)
  }

  lemma EffectKeys(t: Tree, e: Effect)
    requires Enabled(t, e)
    ensures LeafTouch(e) <= t.leaves.Keys && InnerTouch(e) <= t.inners.Keys
    ensures LeafNew(e) !! t.leaves.Keys && InnerNew(e) !! t.inners.Keys
    ensures Apply(t, e).leaves.Keys == t.leaves.Keys + LeafNew(e)
    ensures Apply(t, e).inners.Keys == t.inners.Keys + InnerNew(e)
  {
  }

  lemma EffectFrame(t: Tree, e: Effect)
    requires Enabled(t, e)
    ensures forall p :: p in t.leaves && p !in LeafTouch(e) ==> p in Apply(t, e).leaves && Apply(t, e).leaves[p] == t.leaves[p]
    ensures forall n :: n in t.inners && n !in InnerTouch(e) ==> n in Apply(t, e).inners && Apply(t, e).inners[n] == t.inners[n]
  {
  }

  lemma EffectRoot(t: Tree, e: Effect)
    requires Enabled(t, e)
    ensures MovesRoot(e) ==> Touches(e, t.root) && Makes(e, Apply(t, e).root)
    ensures !MovesRoot(e) ==> Apply(t, e).root == t.root
  {
  }

  /** `u` agrees with `t` on everything the effect looks at. */
  predicate Alike(t: Tree, u: Tree, e: Effect) {
    && (forall p :: p in LeafTouch(e) && p in t.leaves ==> p in u.leaves && u.leaves[p] == t.leaves[p])
    && (forall n :: n in InnerTouch(e) && n in t.inners ==> n in u.inners && u.inners[n] == t.inners[n])
    && LeafNew(e) !! u.leaves.Keys && InnerNew(e) !! u.inners.Keys
    && (MovesRoot(e) ==> u.root == t.root)
  }

  lemma AlikeEnabled(t: Tree, u: Tree, e: Effect)
    requires Enabled(t, e) && Alike(t, u, e)
    ensures Enabled(u, e)
  {
  }

  /** Both trees end with the same touched and new pages, and with the same root if it moved. */
  lemma AlikeApply(t: Tree, u: Tree, e: Effect)
    requires Enabled(t, e) && Alike(t, u, e) && Enabled(u, e)
    ensures forall p :: p in LeafTouch(e) + LeafNew(e) ==>
      p in Apply(t, e).leaves && p in Apply(u, e).leaves && Apply(u, e).leaves[p] == Apply(t, e).leaves[p]
    ensures forall n :: n in InnerTouch(e) + InnerNew(e) ==>
      n in Apply(t, e).inners && n in Apply(u, e).inners && Apply(u, e).inners[n] == Apply(t, e).inners[n]
    ensures MovesRoot(e) ==> Apply(u, e).root == Apply(t, e).root
  {
  }
}
