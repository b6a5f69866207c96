/** Every effect keeps the tree well formed; a write changes the tree's map at one key and a split not at
    all. */
module TreeEffects {
  import opened Bytes
  import opened TreeShape

  // ---- one node ------------------------------------------------------------------------------------

  lemma InsertSorted(s: seq<Key>, j: nat, key: Key)
    requires Sorted(s) && j <= |s|
    requires j > 0 ==> Lt(s[j - 1], key)
    requires j < |s| ==> Lt(key, s[j])
    ensures Sorted(s[..j] + [key] + s[j..])
  {
    var s' := s[..j] + [key] + s[j..];
    forall a, b | 0 <= a < b < |s'| ensures Lt(s'[a], s'[b]) {
      if a < j && b == j {
        if a < j - 1 { LtTransitive(s[a], s[j - 1], key); }
      } else if a == j && b > j {
        if b - 1 > j { LtTransitive(key, s[j], s[b - 1]); }
      }
    }
  }

  /** Slot `i` of `n` and slot `i + d` of `n'` hold the same child over the same range. */
  predicate SameSlot(n: Inner, i: nat, n': Inner, d: int) {
    && i < |n.kids| == |n.seps| + 1 && 0 <= i + d < |n'.kids| == |n'.seps| + 1
    && n.kids[i] == n'.kids[i + d] && SlotLo(n, i) == SlotLo(n', i + d) && SlotHi(n, i) == SlotHi(n', i + d)
  }

  lemma InsertedAt<T>(s: seq<T>, j: nat, x: T, i: nat)
    requires j <= |s|
    ensures (s[..j] + [x] + s[j..])[j] == x
    ensures i < |s| ==> s[i] == (s[..j] + [x] + s[j..])[if i < j then i else i + 1]
  {
  }

  lemma InsertAtKeeps(n: Inner, j: nat, key: Key, kid: nat, i: nat)
    requires |n.kids| == |n.seps| + 1 && j <= |n.seps| && i < |n.kids| && i != j
    ensures SameSlot(n, i, InsertAt(n, j, key, kid), if i < j then 0 else 1)
  {
    InsertedAt(n.seps, j, key, i);
    InsertedAt(n.kids, j + 1, kid, i);
    if i > 0 { InsertedAt(n.seps, j, key, i - 1); }
  }

  lemma InsertAtCuts(n: Inner, j: nat, key: Key, kid: nat)
    requires |n.kids| == |n.seps| + 1 && j <= |n.seps|
    ensures var n' := InsertAt(n, j, key, kid);
      && |n'.kids| == |n.kids| + 1 == |n'.seps| + 1
      && n'.kids[j] == n.kids[j] && SlotLo(n', j) == SlotLo(n, j) && SlotHi(n', j) == At(key)
      && n'.kids[j + 1] == kid && SlotLo(n', j + 1) == key && SlotHi(n', j + 1) == SlotHi(n, j)
  {
    InsertedAt(n.seps, j, key, j);
    if j > 0 { InsertedAt(n.seps, j, key, j - 1); }
  }

  /** Inserting a separator leaves the slots it does not fall in alone ... */
  lemma InsertSepKeeps(n: Inner, key: Key, kid: nat, i: nat)
    requires InnerOk(n) && i < |n.kids| && i != Slot(n.seps, key)
    ensures SameSlot(n, i, InsertSep(n, key, kid), if i < Slot(n.seps, key) then 0 else 1)
  {
    InsertAtKeeps(n, Slot(n.seps, key), key, kid, i);
  }

  /** Every slot of the grown node other than the two cut ones is one of those. */
  lemma InsertSepOrigin(n: Inner, key: Key, kid: nat, i: nat) returns (o: nat)
    requires InnerOk(n) && i <= |n.kids| && i != Slot(n.seps, key) && i != Slot(n.seps, key) + 1
    ensures o < |n.kids| && o != Slot(n.seps, key) && SameSlot(n, o, InsertSep(n, key, kid), i - o)
  {
    o := if i < Slot(n.seps, key) then i else i - 1;
    InsertSepKeeps(n, key, kid, o);
  }

  /** ... and cuts the one it falls in. */
  lemma InsertSepCuts(n: Inner, key: Key, kid: nat)
    requires InnerOk(n)
    ensures var j, n' := Slot(n.seps, key), InsertSep(n, key, kid);
      && |n'.kids| == |n.kids| + 1 == |n'.seps| + 1
      && n'.kids[j] == n.kids[j] && SlotLo(n', j) == SlotLo(n, j) && SlotHi(n', j) == At(key)
      && n'.kids[j + 1] == kid && SlotLo(n', j + 1) == key && SlotHi(n', j + 1) == SlotHi(n, j)
  {
    InsertAtCuts(n, Slot(n.seps, key), key, kid);
  }

  lemma InsertInside(s: seq<Key>, j: nat, key: Key, lo: Key, hi: Bound)
    requires j <= |s| && Lt(lo, key) && Below(key, hi)
    requires forall i :: 0 <= i < |s| ==> Lt(lo, s[i]) && Below(s[i], hi)
    ensures var s' := s[..j] + [key] + s[j..]; forall i :: 0 <= i < |s'| ==> Lt(lo, s'[i]) && Below(s'[i], hi)
  {
  }

  lemma InsertAtOk(n: Inner, j: nat, key: Key, kid: nat)
    requires InnerOk(n) && Lt(n.lo, key) && Below(key, n.hi) && j <= |n.seps|
    requires Lt(SlotLo(n, j), key) && (j < |n.seps| ==> Lt(key, n.seps[j]))
    ensures InnerOk(InsertAt(n, j, key, kid))
  {
    InsertSorted(n.seps, j, key);
    InsertInside(n.seps, j, key, n.lo, n.hi);
  }

  lemma InsertSepOk(n: Inner, key: Key, kid: nat)
    requires InnerOk(n) && Lt(n.lo, key) && Below(key, n.hi)
    requires Lt(SlotLo(n, Slot(n.seps, key)), key)
    ensures InnerOk(InsertSep(n, key, kid))
  {
    InsertAtOk(n, Slot(n.seps, key), key, kid);
  }

  /** Halving a node shares its slots out, ranges unchanged. */
  lemma HalvesSlots(n: Inner)
    requires InnerOk(n) && CanSplit(n)
    ensures InnerOk(LeftHalf(n)) && InnerOk(RightHalf(n))
    ensures Lt(n.lo, SplitSep(n)) && Below(SplitSep(n), n.hi)
    ensures |LeftHalf(n).kids| == Keep(n) && |RightHalf(n).kids| == |n.kids| - Keep(n)
  {
  }

  lemma HalvesKeep(n: Inner, i: nat)
    requires InnerOk(n) && CanSplit(n) && i < |n.kids|
    ensures if i < Keep(n) then SameSlot(n, i, LeftHalf(n), 0) else SameSlot(n, i, RightHalf(n), 0 - Keep(n))
  {
  }

  /** For every key, choosing a half by the separator and searching it names the child the whole node
      named. */
  lemma HalvesRoute(n: Inner, k: Key)
    requires InnerOk(n) && CanSplit(n)
    ensures n.kids[Slot(n.seps, k)] ==
            (if Lt(k, SplitSep(n)) then LeftHalf(n).kids[Slot(LeftHalf(n).seps, k)]
             else RightHalf(n).kids[Slot(RightHalf(n).seps, k)])
  {
    if Lt(k, SplitSep(n)) {
      SlotUnique(n.seps, k, Slot(LeftHalf(n).seps, k));
    } else {
      SlotUnique(n.seps, k, Keep(n) + Slot(RightHalf(n).seps, k));
    }
  }

  // ---- writes --------------------------------------------------------------------------------------

  /** Writing inside one leaf keeps the shape of the tree. */
  lemma LeafWriteKeepsShape(t: Tree, p: nat, recs: map<Key, Value>)
    requires WF(t) && p in t.leaves
    requires forall k :: k in recs ==> Within(k, t.leaves[p].lo, t.leaves[p].hi)
    ensures WF(t.(leaves := t.leaves[p := t.leaves[p].(recs := recs)]))
  {
    var t' := t.(leaves := t.leaves[p := t.leaves[p].(recs := recs)]);
    assert InnersOk(t') && InnersApart(t') && LeavesApart(t') && LeavesOk(t');
    SameKids(t, t');
    SameParents(t, t');
  }

  lemma SameKids(t: Tree, t': Tree)
    requires InnersOk(t) && KidsOk(t) && t'.inners == t.inners && t'.leaves.Keys == t.leaves.Keys
    requires forall p :: p in t.leaves ==> t'.leaves[p].lo == t.leaves[p].lo && t'.leaves[p].hi == t.leaves[p].hi
    ensures KidsOk(t')
  {
    forall n, j | n in t'.inners && 0 <= j < |t'.inners[n].kids| ensures KidOk(t', t'.inners[n], j) {
      assert KidOk(t, t.inners[n], j);
    }
  }

  lemma SameParents(t: Tree, t': Tree)
    requires ParentsOk(t) && t'.inners == t.inners && t'.root == t.root && t'.leaves.Keys == t.leaves.Keys
    ensures ParentsOk(t')
  {
    forall r: Ref | HasParent(t, r) ensures HasParent(t', r) {
      var m, j :| KidAt(t, m, j, r);
      assert KidAt(t', m, j, r);
    }
  }

  lemma WriteReads(t: Tree, p: nat, recs: map<Key, Value>, k: Key)
    requires WF(t) && p in t.leaves
    requires WF(t.(leaves := t.leaves[p := t.leaves[p].(recs := recs)]))
    ensures var t' := t.(leaves := t.leaves[p := t.leaves[p].(recs := recs)]);
      Get(t', k) == if Within(k, t.leaves[p].lo, t.leaves[p].hi) then LeafGet(t'.leaves[p], k) else Get(t, k)
  {
    var t' := t.(leaves := t.leaves[p := t.leaves[p].(recs := recs)]);
    RouteOwns(t, k);
    OwnerReads(t', Route(t, t.root, k), k);
    if Within(k, t.leaves[p].lo, t.leaves[p].hi) { OwnerReads(t', p, k); }
  }

  lemma ApplyPut(t: Tree, p: nat, k: Key, v: Value)
    requires WF(t) && Enabled(t, Put(p, k, v))
    ensures WF(Apply(t, Put(p, k, v)))
    ensures forall x :: Get(Apply(t, Put(p, k, v)), x) == if x == k then Some(v) else Get(t, x)
  {
    var recs := t.leaves[p].recs[k := v];
    LeafWriteKeepsShape(t, p, recs);
    forall x ensures Get(Apply(t, Put(p, k, v)), x) == if x == k then Some(v) else Get(t, x) {
      WriteReads(t, p, recs, x);
      if Within(x, t.leaves[p].lo, t.leaves[p].hi) { OwnerReads(t, p, x); }
    }
  }

  lemma ApplyRemove(t: Tree, p: nat, k: Key)
    requires WF(t) && Enabled(t, Remove(p, k))
    ensures WF(Apply(t, Remove(p, k)))
    ensures forall x :: Get(Apply(t, Remove(p, k)), x) == if x == k then None else Get(t, x)
  {
    var recs := t.leaves[p].recs - {k};
    LeafWriteKeepsShape(t, p, recs);
    forall x ensures Get(Apply(t, Remove(p, k)), x) == if x == k then None else Get(t, x) {
      WriteReads(t, p, recs, x);
      if Within(x, t.leaves[p].lo, t.leaves[p].hi) { OwnerReads(t, p, x); }
    }
  }

  // ---- a node has one parent slot ------------------------------------------------------------------

  lemma SlotLoWithin(n: Inner, j: nat)
    requires InnerOk(n) && j < |n.kids|
    ensures Within(SlotLo(n, j), n.lo, n.hi)
  {
    LtTotal(n.lo, SlotLo(n, j));
  }

  lemma SlotLoDistinct(n: Inner, i: nat, j: nat)
    requires InnerOk(n) && i < j < |n.kids|
    ensures Lt(SlotLo(n, i), SlotLo(n, j)) && SlotLo(n, i) != SlotLo(n, j)
  {
    LtTotal(SlotLo(n, i), SlotLo(n, j));
  }

  lemma OneParent(t: Tree, m: nat, i: nat, n: nat, j: nat, r: Ref)
    requires WF(t) && KidAt(t, m, i, r) && KidAt(t, n, j, r)
    ensures m == n && i == j
  {
    var x, y := t.inners[m], t.inners[n];
    assert KidOk(t, x, i) && KidOk(t, y, j);
    assert x.height == y.height && SlotLo(x, i) == SlotLo(y, j);
    SlotLoWithin(x, i);
    SlotLoWithin(y, j);
    if m != n {
      var k := SlotLo(x, i);
      Order();
      assert false;
    }
    if i < j { SlotLoDistinct(x, i, j); }
    if j < i { SlotLoDistinct(x, j, i); }
  }
}
