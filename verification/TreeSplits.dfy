/** Node splits keep the tree well formed and leave what it reads unchanged. */
module TreeSplits {
  import opened Bytes
  import opened TreeShape
  import opened TreeEffects

  // ---- leaf split below an inner node --------------------------------------------------------------

  ghost predicate LeafSplitAt(t: Tree, n: nat, p: nat, q: nat, key: Key) {
    WF(t) && Enabled(t, SplitLeaf(n, p, q, key))
  }

  /** The leaf being split sits in the slot the separator falls in. */
  lemma LeafSplitSlot(t: Tree, n: nat, p: nat, q: nat, key: Key)
    requires LeafSplitAt(t, n, p, q, key)
    ensures var x, j := t.inners[n], Slot(t.inners[n].seps, key);
      && KidAt(t, n, j, LeafRef(p)) && SlotLo(x, j) == t.leaves[p].lo && SlotHi(x, j) == t.leaves[p].hi
      && Lt(x.lo, key) && Below(key, x.hi) && InnerOk(InsertSep(x, key, q))
  {
    var x, j := t.inners[n], Slot(t.inners[n].seps, key);
    assert KidOk(t, x, j);
    if j > 0 { LtTransitive(x.lo, x.seps[j - 1], key); }
    if j < |x.seps| && x.hi != Inf { LtTransitive(key, x.seps[j], x.hi.key); }
    InsertSepOk(x, key, q);
  }

  lemma LeafSplitOtherKids(t: Tree, n: nat, p: nat, q: nat, key: Key, m: nat, i: nat)
    requires LeafSplitAt(t, n, p, q, key) && m in t.inners && m != n && i < |t.inners[m].kids|
    ensures KidOk(Apply(t, SplitLeaf(n, p, q, key)), t.inners[m], i)
  {
    LeafSplitSlot(t, n, p, q, key);
    assert KidOk(t, t.inners[m], i);
    if t.inners[m].height == 0 && t.inners[m].kids[i] == p {
      OneParent(t, m, i, n, Slot(t.inners[n].seps, key), LeafRef(p));
    }
  }

  /** A slot carried over to the grown parent still fits its child, which is not the leaf being split. */
  lemma LeafSplitCarried(t: Tree, n: nat, p: nat, q: nat, key: Key, x': Inner, i: nat, d: int)
    requires LeafSplitAt(t, n, p, q, key) && i < |t.inners[n].kids| && i != Slot(t.inners[n].seps, key)
    requires SameSlot(t.inners[n], i, x', d) && x'.height == 0
    ensures KidOk(Apply(t, SplitLeaf(n, p, q, key)), x', i + d)
  {
    LeafSplitSlot(t, n, p, q, key);
    assert KidOk(t, t.inners[n], i);
    if t.inners[n].kids[i] == p { OneParent(t, n, i, n, Slot(t.inners[n].seps, key), LeafRef(p)); }
  }

  lemma LeafSplitCutKids(t: Tree, n: nat, p: nat, q: nat, key: Key)
    requires LeafSplitAt(t, n, p, q, key)
    ensures var t', x', j := Apply(t, SplitLeaf(n, p, q, key)), InsertSep(t.inners[n], key, q), Slot(t.inners[n].seps, key);
      j + 1 < |x'.kids| == |x'.seps| + 1 && KidOk(t', x', j) && KidOk(t', x', j + 1)
  {
    InsertSepCuts(t.inners[n], key, q);
    LeafSplitSlot(t, n, p, q, key);
  }

  lemma LeafSplitOldKids(t: Tree, n: nat, p: nat, q: nat, key: Key, i: nat)
    requires LeafSplitAt(t, n, p, q, key) && i <= |t.inners[n].kids|
    requires i != Slot(t.inners[n].seps, key) && i != Slot(t.inners[n].seps, key) + 1
    ensures var t', x' := Apply(t, SplitLeaf(n, p, q, key)), InsertSep(t.inners[n], key, q);
      i < |x'.kids| == |x'.seps| + 1 && KidOk(t', x', i)
  {
    var o := InsertSepOrigin(t.inners[n], key, q, i);
    LeafSplitCarried(t, n, p, q, key, InsertSep(t.inners[n], key, q), o, i - o);
  }

  lemma LeafSplitParentKids(t: Tree, n: nat, p: nat, q: nat, key: Key, i: nat)
    requires LeafSplitAt(t, n, p, q, key)
    requires var x' := InsertSep(t.inners[n], key, q); i < |x'.kids| == |x'.seps| + 1
    ensures KidOk(Apply(t, SplitLeaf(n, p, q, key)), InsertSep(t.inners[n], key, q), i)
  {
    var j := Slot(t.inners[n].seps, key);
    if i == j || i == j + 1 {
      LeafSplitCutKids(t, n, p, q, key);
    } else {
      LeafSplitOldKids(t, n, p, q, key, i);
    }
  }

  lemma LeafSplitKids(t: Tree, n: nat, p: nat, q: nat, key: Key)
    requires LeafSplitAt(t, n, p, q, key)
    requires InnersOk(Apply(t, SplitLeaf(n, p, q, key)))
    ensures KidsOk(Apply(t, SplitLeaf(n, p, q, key)))
  {
    var t' := Apply(t, SplitLeaf(n, p, q, key));
    forall m, i | m in t'.inners && 0 <= i < |t'.inners[m].kids| ensures KidOk(t', t'.inners[m], i) {
      if m == n {
        LeafSplitParentKids(t, n, p, q, key, i);
      } else {
        LeafSplitOtherKids(t, n, p, q, key, m, i);
      }
    }
  }

  lemma CutApart(lo: Key, hi: Bound, key: Key, lo2: Key, hi2: Bound)
    requires Lt(lo, key) && Below(key, hi) && Apart(lo, hi, lo2, hi2)
    ensures Apart(lo, At(key), lo2, hi2) && Apart(key, hi, lo2, hi2)
  {
    Order();
  }

  lemma LeafSplitLeaves(t: Tree, n: nat, p: nat, q: nat, key: Key)
    requires LeafSplitAt(t, n, p, q, key)
    ensures var t' := Apply(t, SplitLeaf(n, p, q, key)); LeavesOk(t') && LeavesApart(t')
  {
    var t' := Apply(t, SplitLeaf(n, p, q, key));
    var l := t.leaves[p];
    LtTotal(key, key);
    forall a, b | a in t'.leaves && b in t'.leaves && a != b
      ensures Apart(t'.leaves[a].lo, t'.leaves[a].hi, t'.leaves[b].lo, t'.leaves[b].hi)
    {
      if a in {p, q} && b !in {p, q} {
        CutApart(l.lo, l.hi, key, t.leaves[b].lo, t.leaves[b].hi);
      } else if b in {p, q} && a !in {p, q} {
        CutApart(l.lo, l.hi, key, t.leaves[a].lo, t.leaves[a].hi);
      }
    }
  }

  lemma LeafSplitParents(t: Tree, n: nat, p: nat, q: nat, key: Key)
    requires LeafSplitAt(t, n, p, q, key)
    ensures ParentsOk(Apply(t, SplitLeaf(n, p, q, key)))
  {
    var t' := Apply(t, SplitLeaf(n, p, q, key));
    var x, j := t.inners[n], Slot(t.inners[n].seps, key);
    InsertSepCuts(x, key, q);
    assert KidAt(t', n, j + 1, LeafRef(q));
    forall r | Exists(t', r) && r != t'.root ensures HasParent(t', r) {
      if r != LeafRef(q) {
        assert HasParent(t, r);
        var m: nat, i: nat :| KidAt(t, m, i, r);
        if m == n && i != j { InsertSepKeeps(x, key, q, i); }
        assert KidAt(t', m, if m == n && i > j then i + 1 else i, r);
      }
    }
  }

  lemma ApplySplitLeaf(t: Tree, n: nat, p: nat, q: nat, key: Key)
    requires LeafSplitAt(t, n, p, q, key)
    ensures WF(Apply(t, SplitLeaf(n, p, q, key)))
    ensures forall k :: Get(Apply(t, SplitLeaf(n, p, q, key)), k) == Get(t, k)
  {
    var t' := Apply(t, SplitLeaf(n, p, q, key));
    assert InnersOk(t') by { LeafSplitSlot(t, n, p, q, key); }
    LeafSplitKids(t, n, p, q, key);
    LeafSplitLeaves(t, n, p, q, key);
    LeafSplitParents(t, n, p, q, key);
    assert InnersApart(t') && RootOk(t');
    forall k ensures Get(t', k) == Get(t, k) { LeafCutReads(t, t', p, q, key, k); }
  }

  /** A leaf cut in two at `key`, the rest of the leaves as they were: every read is unchanged. */
  lemma LeafCutReads(t: Tree, t': Tree, p: nat, q: nat, key: Key, k: Key)
    requires WF(t) && WF(t') && p in t.leaves && q !in t.leaves
    requires var l := t.leaves[p];
      t'.leaves == t.leaves[p := Leaf(l.lo, At(key), RecsBelow(l.recs, key))][q := Leaf(key, l.hi, RecsFrom(l.recs, key))]
    ensures Get(t', k) == Get(t, k)
  {
    RouteOwns(t, k);
    var r := Route(t, t.root, k);
    OwnerReads(t', if r == p && Le(key, k) then q else r, k);
  }

  // ---- root leaf split -----------------------------------------------------------------------------

  ghost predicate RootLeafSplitAt(t: Tree, p: nat, q: nat, m: nat, key: Key) {
    WF(t) && Enabled(t, SplitRootLeaf(p, q, m, key))
  }

  /** A tree whose root is a leaf has nothing else in it. */
  lemma RootLeafAlone(t: Tree, p: nat)
    requires WF(t) && t.root == LeafRef(p)
    ensures t.leaves.Keys == {p} && t.inners == map[]
  {
  }

  lemma RootLeafKids(t: Tree, p: nat, q: nat, m: nat, key: Key)
    requires RootLeafSplitAt(t, p, q, m, key)
    ensures var t' := Apply(t, SplitRootLeaf(p, q, m, key));
      InnersOk(t') && KidsOk(t') && InnersApart(t') && RootOk(t')
  {
    RootLeafAlone(t, p);
    LtTotal(key, key);
  }

  lemma RootLeafLeaves(t: Tree, p: nat, q: nat, m: nat, key: Key)
    requires RootLeafSplitAt(t, p, q, m, key)
    ensures var t' := Apply(t, SplitRootLeaf(p, q, m, key)); LeavesOk(t') && LeavesApart(t')
  {
    RootLeafAlone(t, p);
    LtTotal(key, key);
  }

  lemma RootLeafParents(t: Tree, p: nat, q: nat, m: nat, key: Key)
    requires RootLeafSplitAt(t, p, q, m, key)
    ensures ParentsOk(Apply(t, SplitRootLeaf(p, q, m, key)))
  {
    var t' := Apply(t, SplitRootLeaf(p, q, m, key));
    RootLeafAlone(t, p);
    assert KidAt(t', m, 0, LeafRef(p)) && KidAt(t', m, 1, LeafRef(q));
  }

  lemma ApplySplitRootLeaf(t: Tree, p: nat, q: nat, m: nat, key: Key)
    requires RootLeafSplitAt(t, p, q, m, key)
    ensures WF(Apply(t, SplitRootLeaf(p, q, m, key)))
    ensures forall k :: Get(Apply(t, SplitRootLeaf(p, q, m, key)), k) == Get(t, k)
  {
    var t' := Apply(t, SplitRootLeaf(p, q, m, key));
    RootLeafKids(t, p, q, m, key);
    RootLeafLeaves(t, p, q, m, key);
    RootLeafParents(t, p, q, m, key);
    forall k ensures Get(t', k) == Get(t, k) { LeafCutReads(t, t', p, q, key, k); }
  }

  // ---- inner split below an inner node -------------------------------------------------------------

  ghost predicate InnerSplitAt(t: Tree, n: nat, c: nat, d: nat) {
    WF(t) && Enabled(t, SplitInner(n, c, d))
  }

  lemma InnerSplitSlot(t: Tree, n: nat, c: nat, d: nat)
    requires InnerSplitAt(t, n, c, d)
    ensures var x, key := t.inners[n], SplitSep(t.inners[c]);
      var j := Slot(x.seps, key);
      && KidAt(t, n, j, InnerRef(c)) && SlotLo(x, j) == t.inners[c].lo && SlotHi(x, j) == t.inners[c].hi
      && InnerOk(InsertSep(x, key, d))
  {
    var x, key := t.inners[n], SplitSep(t.inners[c]);
    var j := Slot(x.seps, key);
    HalvesSlots(t.inners[c]);
    assert KidOk(t, x, j);
    if j > 0 { LtTransitive(x.lo, x.seps[j - 1], key); }
    if j < |x.seps| && x.hi != Inf { LtTransitive(key, x.seps[j], x.hi.key); }
    InsertSepOk(x, key, d);
  }

  /** A child slot copied, range and all, into some node of the new tree still fits its child, provided
      that child is not the node being split. */
  lemma InnerSplitCarried(t: Tree, n: nat, c: nat, d: nat, m: nat, i: nat, x': Inner, e: int)
    requires InnerSplitAt(t, n, c, d) && m in t.inners && i < |t.inners[m].kids|
    requires SameSlot(t.inners[m], i, x', e) && x'.height == t.inners[m].height
    requires m != n || i != Slot(t.inners[n].seps, SplitSep(t.inners[c]))
    ensures KidOk(Apply(t, SplitInner(n, c, d)), x', i + e)
  {
    InnerSplitSlot(t, n, c, d);
    assert KidOk(t, t.inners[m], i);
    if t.inners[m].height > 0 && t.inners[m].kids[i] == c {
      OneParent(t, m, i, n, Slot(t.inners[n].seps, SplitSep(t.inners[c])), InnerRef(c));
    }
  }

  lemma InnerSplitHalfKids(t: Tree, n: nat, c: nat, d: nat, i: nat)
    requires InnerSplitAt(t, n, c, d) && i < |t.inners[c].kids|
    ensures var t', y := Apply(t, SplitInner(n, c, d)), t.inners[c];
      if i < Keep(y) then i < |LeftHalf(y).kids| == |LeftHalf(y).seps| + 1 && KidOk(t', LeftHalf(y), i)
      else i - Keep(y) < |RightHalf(y).kids| == |RightHalf(y).seps| + 1 && KidOk(t', RightHalf(y), i - Keep(y))
  {
    var y := t.inners[c];
    HalvesKeep(y, i);
    if i < Keep(y) {
      InnerSplitCarried(t, n, c, d, c, i, LeftHalf(y), 0);
    } else {
      InnerSplitCarried(t, n, c, d, c, i, RightHalf(y), 0 - Keep(y));
    }
  }

  lemma InnerSplitCutKids(t: Tree, n: nat, c: nat, d: nat)
    requires InnerSplitAt(t, n, c, d)
    ensures var t', x' := Apply(t, SplitInner(n, c, d)), InsertSep(t.inners[n], SplitSep(t.inners[c]), d);
      var j := Slot(t.inners[n].seps, SplitSep(t.inners[c]));
      j + 1 < |x'.kids| == |x'.seps| + 1 && KidOk(t', x', j) && KidOk(t', x', j + 1)
  {
    InsertSepCuts(t.inners[n], SplitSep(t.inners[c]), d);
    InnerSplitSlot(t, n, c, d);
  }

  lemma InnerSplitOldKids(t: Tree, n: nat, c: nat, d: nat, i: nat)
    requires InnerSplitAt(t, n, c, d) && i <= |t.inners[n].kids|
    requires var j := Slot(t.inners[n].seps, SplitSep(t.inners[c])); i != j && i != j + 1
    ensures var t', x' := Apply(t, SplitInner(n, c, d)), InsertSep(t.inners[n], SplitSep(t.inners[c]), d);
      i < |x'.kids| == |x'.seps| + 1 && KidOk(t', x', i)
  {
    var x, key := t.inners[n], SplitSep(t.inners[c]);
    var o := InsertSepOrigin(x, key, d, i);
    InnerSplitCarried(t, n, c, d, n, o, InsertSep(x, key, d), i - o);
  }

  lemma InnerSplitParentKids(t: Tree, n: nat, c: nat, d: nat, i: nat)
    requires InnerSplitAt(t, n, c, d)
    requires var x' := InsertSep(t.inners[n], SplitSep(t.inners[c]), d); i < |x'.kids| == |x'.seps| + 1
    ensures KidOk(Apply(t, SplitInner(n, c, d)), InsertSep(t.inners[n], SplitSep(t.inners[c]), d), i)
  {
    var j := Slot(t.inners[n].seps, SplitSep(t.inners[c]));
    if i == j || i == j + 1 {
      InnerSplitCutKids(t, n, c, d);
    } else {
      InnerSplitOldKids(t, n, c, d, i);
    }
  }

  lemma InnerSplitKids(t: Tree, n: nat, c: nat, d: nat)
    requires InnerSplitAt(t, n, c, d)
    requires InnersOk(Apply(t, SplitInner(n, c, d)))
    ensures KidsOk(Apply(t, SplitInner(n, c, d)))
  {
    var t', y := Apply(t, SplitInner(n, c, d)), t.inners[c];
    forall m, i | m in t'.inners && 0 <= i < |t'.inners[m].kids| ensures KidOk(t', t'.inners[m], i) {
      if m == c {
        InnerSplitHalfKids(t, n, c, d, i);
      } else if m == d {
        InnerSplitHalfKids(t, n, c, d, i + Keep(y));
      } else if m == n {
        InnerSplitParentKids(t, n, c, d, i);
      } else {
        InnerSplitCarried(t, n, c, d, m, i, t.inners[m], 0);
      }
    }
  }

  /** Node `a` of the tree after a split: a half of `c`, or a node whose range is as it was. */
  predicate CutOf(t: Tree, t': Tree, c: nat, d: nat, a: nat)
    requires c in t.inners && CanSplit(t.inners[c])
  {
    var y := t.inners[c];
    a in t'.inners &&
    if a == c then SameSpan(t'.inners[a], y.lo, At(SplitSep(y)), y.height)
    else if a == d then SameSpan(t'.inners[a], SplitSep(y), y.hi, y.height)
    else a in t.inners && SameSpan(t'.inners[a], t.inners[a].lo, t.inners[a].hi, t.inners[a].height)
  }

  predicate SameSpan(x: Inner, lo: Key, hi: Bound, height: nat) {
    x.lo == lo && x.hi == hi && x.height == height
  }

  lemma CutsApart(t: Tree, t': Tree, c: nat, d: nat, a: nat, b: nat)
    requires InnersApart(t) && c in t.inners && d !in t.inners && InnerOk(t.inners[c]) && CanSplit(t.inners[c])
    requires CutOf(t, t', c, d, a) && CutOf(t, t', c, d, b) && a != b && t'.inners[a].height == t'.inners[b].height
    ensures Apart(t'.inners[a].lo, t'.inners[a].hi, t'.inners[b].lo, t'.inners[b].hi)
  {
    var y := t.inners[c];
    HalvesSlots(y);
    LtTotal(SplitSep(y), SplitSep(y));
    if a in {c, d} && b !in {c, d} {
      CutApart(y.lo, y.hi, SplitSep(y), t.inners[b].lo, t.inners[b].hi);
    } else if b in {c, d} && a !in {c, d} {
      CutApart(y.lo, y.hi, SplitSep(y), t.inners[a].lo, t.inners[a].hi);
    }
  }

  /** The nodes other than `tall`, which stand alone at their heights, are pairwise apart. */
  lemma AllCutsApart(t: Tree, t': Tree, c: nat, d: nat, tall: set<nat>)
    requires InnersApart(t) && c in t.inners && d !in t.inners && InnerOk(t.inners[c]) && CanSplit(t.inners[c])
    requires forall a :: a in t'.inners && a !in tall ==> CutOf(t, t', c, d, a)
    requires forall r, a :: r in tall && r in t'.inners && a in t'.inners && a != r ==> t'.inners[a].height != t'.inners[r].height
    ensures InnersApart(t')
  {
    forall a, b | a in t'.inners && b in t'.inners && a != b && t'.inners[a].height == t'.inners[b].height
      ensures Apart(t'.inners[a].lo, t'.inners[a].hi, t'.inners[b].lo, t'.inners[b].hi)
    {
      CutsApart(t, t', c, d, a, b);
    }
  }

  lemma InnerSplitParentStays(t: Tree, n: nat, c: nat, d: nat, i: nat, r: Ref)
    requires InnerSplitAt(t, n, c, d) && KidAt(t, n, i, r)
    ensures HasParent(Apply(t, SplitInner(n, c, d)), r)
  {
    var t', x, key := Apply(t, SplitInner(n, c, d)), t.inners[n], SplitSep(t.inners[c]);
    var j := Slot(x.seps, key);
    if i == j { InsertSepCuts(x, key, d); } else { InsertSepKeeps(x, key, d, i); }
    assert KidAt(t', n, if i > j then i + 1 else i, r);
  }

  lemma InnerSplitKidStays(t: Tree, n: nat, c: nat, d: nat, m: nat, i: nat, r: Ref)
    requires InnerSplitAt(t, n, c, d) && KidAt(t, m, i, r)
    ensures HasParent(Apply(t, SplitInner(n, c, d)), r)
  {
    var t', y := Apply(t, SplitInner(n, c, d)), t.inners[c];
    if m == c {
      HalvesKeep(y, i);
      assert KidAt(t', if i < Keep(y) then c else d, if i < Keep(y) then i else i - Keep(y), r);
    } else if m == n {
      InnerSplitParentStays(t, n, c, d, i, r);
    } else {
      assert KidAt(t', m, i, r);
    }
  }

  lemma InnerSplitParents(t: Tree, n: nat, c: nat, d: nat)
    requires InnerSplitAt(t, n, c, d)
    ensures ParentsOk(Apply(t, SplitInner(n, c, d)))
  {
    var t' := Apply(t, SplitInner(n, c, d));
    forall r | Exists(t', r) && r != t'.root ensures HasParent(t', r) {
      if r == InnerRef(d) {
        InsertSepCuts(t.inners[n], SplitSep(t.inners[c]), d);
        assert KidAt(t', n, Slot(t.inners[n].seps, SplitSep(t.inners[c])) + 1, r);
      } else {
        assert HasParent(t, r);
        var m: nat, i: nat :| KidAt(t, m, i, r);
        InnerSplitKidStays(t, n, c, d, m, i, r);
      }
    }
  }

  lemma InnerSplitInners(t: Tree, n: nat, c: nat, d: nat)
    requires InnerSplitAt(t, n, c, d)
    ensures var t' := Apply(t, SplitInner(n, c, d));
      InnersOk(t') && LeavesOk(t') && LeavesApart(t')
  {
    InnerSplitSlot(t, n, c, d);
    HalvesSlots(t.inners[c]);
  }

  lemma InnerSplitCuts(t: Tree, n: nat, c: nat, d: nat, a: nat)
    requires Enabled(t, SplitInner(n, c, d)) && a in Apply(t, SplitInner(n, c, d)).inners
    ensures CutOf(t, Apply(t, SplitInner(n, c, d)), c, d, a)
  {
  }

  lemma InnerSplitAllCuts(t: Tree, n: nat, c: nat, d: nat)
    requires Enabled(t, SplitInner(n, c, d))
    ensures var t' := Apply(t, SplitInner(n, c, d)); forall a :: a in t'.inners ==> CutOf(t, t', c, d, a)
  {
    var t' := Apply(t, SplitInner(n, c, d));
    forall a | a in t'.inners ensures CutOf(t, t', c, d, a) { InnerSplitCuts(t, n, c, d, a); }
  }

  lemma InnerSplitRoot(t: Tree, n: nat, c: nat, d: nat)
    requires RootOk(t) && Enabled(t, SplitInner(n, c, d))
    ensures RootOk(Apply(t, SplitInner(n, c, d)))
  {
  }

  lemma InnerSplitApart(t: Tree, n: nat, c: nat, d: nat)
    requires InnerSplitAt(t, n, c, d)
    ensures InnersApart(Apply(t, SplitInner(n, c, d)))
  {
    InnerSplitAllCuts(t, n, c, d);
    AllCutsApart(t, Apply(t, SplitInner(n, c, d)), c, d, {});
  }

  lemma ApplySplitInner(t: Tree, n: nat, c: nat, d: nat)
    requires InnerSplitAt(t, n, c, d)
    ensures WF(Apply(t, SplitInner(n, c, d)))
    ensures forall k :: Get(Apply(t, SplitInner(n, c, d)), k) == Get(t, k)
  {
    var t' := Apply(t, SplitInner(n, c, d));
    InnerSplitInners(t, n, c, d);
    InnerSplitApart(t, n, c, d);
    InnerSplitRoot(t, n, c, d);
    InnerSplitKids(t, n, c, d);
    InnerSplitParents(t, n, c, d);
    forall k ensures Get(t', k) == Get(t, k) { SameLeavesRead(t, t', k); }
  }

  /** Reads depend on the leaves alone, however the inner nodes are arranged. */
  lemma SameLeavesRead(t: Tree, t': Tree, k: Key)
    requires WF(t) && WF(t') && t'.leaves == t.leaves
    ensures Get(t', k) == Get(t, k)
  {
    RouteOwns(t, k);
    OwnerReads(t', Route(t, t.root, k), k);
  }

  // ---- root inner split ----------------------------------------------------------------------------

  ghost predicate RootSplitAt(t: Tree, c: nat, d: nat, m: nat) {
    WF(t) && Enabled(t, SplitRootInner(c, d, m))
  }

  /** The root is nobody's child. */
  lemma RootHasNoParent(t: Tree, m: nat, i: nat)
    requires WF(t)
    ensures !KidAt(t, m, i, t.root)
  {
    if m in t.inners && i < |t.inners[m].kids| {
      assert KidOk(t, t.inners[m], i);
    }
  }

  lemma RootSplitCarried(t: Tree, c: nat, d: nat, r: nat, m: nat, i: nat, x': Inner, e: int)
    requires RootSplitAt(t, c, d, r) && m in t.inners && i < |t.inners[m].kids|
    requires SameSlot(t.inners[m], i, x', e) && x'.height == t.inners[m].height
    ensures KidOk(Apply(t, SplitRootInner(c, d, r)), x', i + e)
  {
    assert KidOk(t, t.inners[m], i);
    if t.inners[m].height > 0 && t.inners[m].kids[i] == c { RootHasNoParent(t, m, i); }
  }

  lemma RootSplitHalfKids(t: Tree, c: nat, d: nat, r: nat, i: nat)
    requires RootSplitAt(t, c, d, r) && i < |t.inners[c].kids|
    ensures var t', y := Apply(t, SplitRootInner(c, d, r)), t.inners[c];
      if i < Keep(y) then i < |LeftHalf(y).kids| == |LeftHalf(y).seps| + 1 && KidOk(t', LeftHalf(y), i)
      else i - Keep(y) < |RightHalf(y).kids| == |RightHalf(y).seps| + 1 && KidOk(t', RightHalf(y), i - Keep(y))
  {
    var y := t.inners[c];
    HalvesKeep(y, i);
    if i < Keep(y) {
      RootSplitCarried(t, c, d, r, c, i, LeftHalf(y), 0);
    } else {
      RootSplitCarried(t, c, d, r, c, i, RightHalf(y), 0 - Keep(y));
    }
  }

  lemma RootSplitKids(t: Tree, c: nat, d: nat, r: nat)
    requires RootSplitAt(t, c, d, r)
    requires InnersOk(Apply(t, SplitRootInner(c, d, r)))
    ensures KidsOk(Apply(t, SplitRootInner(c, d, r)))
  {
    var t', y := Apply(t, SplitRootInner(c, d, r)), t.inners[c];
    forall m, i | m in t'.inners && 0 <= i < |t'.inners[m].kids| ensures KidOk(t', t'.inners[m], i) {
      if m == c {
        RootSplitHalfKids(t, c, d, r, i);
      } else if m == d {
        RootSplitHalfKids(t, c, d, r, i + Keep(y));
      } else if m != r {
        RootSplitCarried(t, c, d, r, m, i, t.inners[m], 0);
      }
    }
  }

  lemma RootSplitCuts(t: Tree, c: nat, d: nat, r: nat, a: nat)
    requires Enabled(t, SplitRootInner(c, d, r)) && a in Apply(t, SplitRootInner(c, d, r)).inners && a != r
    ensures CutOf(t, Apply(t, SplitRootInner(c, d, r)), c, d, a)
  {
  }

  lemma RootSplitApart(t: Tree, c: nat, d: nat, r: nat)
    requires RootSplitAt(t, c, d, r)
    ensures InnersApart(Apply(t, SplitRootInner(c, d, r))) && RootOk(Apply(t, SplitRootInner(c, d, r)))
  {
    var t' := Apply(t, SplitRootInner(c, d, r));
    forall a | a in t'.inners && a !in {r} ensures CutOf(t, t', c, d, a) { RootSplitCuts(t, c, d, r, a); }
    AllCutsApart(t, t', c, d, {r});
  }

  lemma RootSplitParents(t: Tree, c: nat, d: nat, r: nat)
    requires RootSplitAt(t, c, d, r)
    ensures ParentsOk(Apply(t, SplitRootInner(c, d, r)))
  {
    var t' := Apply(t, SplitRootInner(c, d, r));
    var y := t.inners[c];
    assert KidAt(t', r, 0, InnerRef(c)) && KidAt(t', r, 1, InnerRef(d));
    forall ref | Exists(t', ref) && ref != t'.root ensures HasParent(t', ref) {
      if ref != InnerRef(c) && ref != InnerRef(d) {
        assert HasParent(t, ref);
        var m: nat, i: nat :| KidAt(t, m, i, ref);
        if m == c {
          HalvesKeep(y, i);
          assert KidAt(t', if i < Keep(y) then c else d, if i < Keep(y) then i else i - Keep(y), ref);
        } else {
          assert KidAt(t', m, i, ref);
        }
      }
    }
  }

  lemma RootSplitInners(t: Tree, c: nat, d: nat, r: nat)
    requires RootSplitAt(t, c, d, r)
    ensures var t' := Apply(t, SplitRootInner(c, d, r));
      InnersOk(t') && LeavesOk(t') && LeavesApart(t')
  {
    HalvesSlots(t.inners[c]);
  }

  lemma ApplySplitRootInner(t: Tree, c: nat, d: nat, r: nat)
    requires RootSplitAt(t, c, d, r)
    ensures WF(Apply(t, SplitRootInner(c, d, r)))
    ensures forall k :: Get(Apply(t, SplitRootInner(c, d, r)), k) == Get(t, k)
  {
    var t' := Apply(t, SplitRootInner(c, d, r));
    RootSplitInners(t, c, d, r);
    RootSplitKids(t, c, d, r);
    RootSplitApart(t, c, d, r);
    RootSplitParents(t, c, d, r);
    forall k ensures Get(t', k) == Get(t, k) { SameLeavesRead(t, t', k); }
  }

  // ---- every effect --------------------------------------------------------------------------------

  /** What an effect does to the tree as a map. */
  function EffectOn(e: Effect, k: Key, was: Option<Value>): Option<Value> {
    match e
    case Put(p, x, v) => if k == x then Some(v) else was
    case Remove(p, x) => if k == x then None else was
    case _ => was
  }

  lemma ApplyKeepsWF(t: Tree, e: Effect)
    requires WF(t) && Enabled(t, e)
    ensures WF(Apply(t, e))
    ensures forall k :: Get(Apply(t, e), k) == EffectOn(e, k, Get(t, k))
  {
    match e
    case Put(p, k, v) => ApplyPut(t, p, k, v);
    case Remove(p, k) => ApplyRemove(t, p, k);
    case SplitLeaf(n, p, q, key) => ApplySplitLeaf(t, n, p, q, key);
    case SplitRootLeaf(p, q, m, key) => ApplySplitRootLeaf(t, p, q, m, key);
    case SplitInner(n, c, d) => ApplySplitInner(t, n, c, d);
    case SplitRootInner(c, d, m) => ApplySplitRootInner(t, c, d, m);
  }
}
