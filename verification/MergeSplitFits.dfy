/** A merge that has to split a base page without a prefix always fits: with the split key chosen by weight and
    the gap the size classes leave, every record of the mini page finds room in its half. */
module MergeSplitFits {
  import opened Bytes
  import opened TreeShape
  import opened LeafCache
  import opened LeafImage
  import opened LeafImageProof
  import opened LeafFill
  import opened LeafSplit
  import opened LeafMerge
  import opened MergeSplitKey

  // ---- the sizes the split key is chosen by --------------------------------------------------------

  function SizeAt(p: Image, i: nat): nat
    requires i < |p.slots|
  {
    p.slots[i].keyLen + p.slots[i].valueLen + SLOT
  }

  /** All records of the base page below slot `b`, deleted ones included. */
  function BaseSized(p: Image, b: nat): seq<Sized>
    requires Laid(p) && First(p) <= b <= |p.slots|
  {
    if b == First(p) then [] else BaseSized(p, b - 1) + [Sized(Full(p, b - 1), SizeAt(p, b - 1))]
  }

  /** The dirty records of the mini page below slot `b`. */
  function MiniSized(p: Image, b: nat): seq<Sized>
    requires Laid(p) && !p.fenced && b <= |p.slots|
  {
    if b == 0 then []
    else MiniSized(p, b - 1) + if p.slots[b - 1].op.Dirty() then [Sized(Full(p, b - 1), SizeAt(p, b - 1))] else []
  }

  lemma FullsRise(p: Image, i: nat, j: nat)
    requires Ok(p) && First(p) <= i < j < |p.slots|
    ensures Lt(Full(p, i), Full(p, j))
  {
    LtCancel(Prefix(p), Tail(p, i), Tail(p, j));
  }

  lemma {:induction false} BaseSizedAt(p: Image, b: nat, t: nat)
    requires Laid(p) && First(p) <= b <= |p.slots| && t < b - First(p)
    ensures |BaseSized(p, b)| == b - First(p) && BaseSized(p, b)[t] == Sized(Full(p, First(p) + t), SizeAt(p, First(p) + t))
    decreases b
  {
    if t < b - 1 - First(p) { BaseSizedAt(p, b - 1, t); } else { BaseSizedLen(p, b - 1); }
  }

  lemma {:induction false} BaseSizedLen(p: Image, b: nat)
    requires Laid(p) && First(p) <= b <= |p.slots|
    ensures |BaseSized(p, b)| == b - First(p)
  {
    if b > First(p) { BaseSizedLen(p, b - 1); }
  }

  ghost predicate FullsSorted(p: Image)
    requires Laid(p)
  {
    forall i: nat, j: nat :: First(p) <= i < j < |p.slots| ==> Lt(Full(p, i), Full(p, j))
  }

  lemma BaseKeysRise(p: Image, b: nat)
    requires Laid(p) && First(p) <= b <= |p.slots| && FullsSorted(p)
    ensures Rising(BaseSized(p, b))
  {
    BaseSizedLen(p, b);
    var l := BaseSized(p, b);
    forall t, u | 0 <= t < u < |l| ensures Lt(l[t].key, l[u].key) {
      BaseSizedAt(p, b, t);
      BaseSizedAt(p, b, u);
    }
  }

  lemma BaseRising(p: Image, b: nat)
    requires Ok(p) && First(p) <= b <= |p.slots|
    ensures Rising(BaseSized(p, b))
  {
    forall i: nat, j: nat | First(p) <= i < j < |p.slots| ensures Lt(Full(p, i), Full(p, j)) { FullsRise(p, i, j); }
    BaseKeysRise(p, b);
  }

  lemma {:induction false} MiniSizedFrom(p: Image, b: nat, t: nat) returns (i: nat)
    requires Laid(p) && !p.fenced && b <= |p.slots| && t < |MiniSized(p, b)|
    ensures i < b && p.slots[i].op.Dirty() && MiniSized(p, b)[t] == Sized(Full(p, i), SizeAt(p, i))
    decreases b
  {
    if t < |MiniSized(p, b - 1)| { i := MiniSizedFrom(p, b - 1, t); } else { i := b - 1; }
  }

  lemma {:induction false} MiniSizedHas(p: Image, b: nat, i: nat)
    requires Laid(p) && !p.fenced && i < b <= |p.slots| && p.slots[i].op.Dirty()
    ensures Full(p, i) in Keys(MiniSized(p, b))
    decreases b
  {
    var l := MiniSized(p, b);
    if i == b - 1 {
      assert l[|l| - 1].key == Full(p, i);
    } else {
      MiniSizedHas(p, b - 1, i);
      var t :| 0 <= t < |MiniSized(p, b - 1)| && MiniSized(p, b - 1)[t].key == Full(p, i);
      assert l[t].key == Full(p, i);
    }
  }

  lemma {:induction false} MiniRising(p: Image, b: nat)
    requires Ok(p) && !p.fenced && b <= |p.slots|
    ensures Rising(MiniSized(p, b))
    decreases b
  {
    if b > 0 {
      MiniRising(p, b - 1);
      var l := MiniSized(p, b - 1);
      forall t | 0 <= t < |l| ensures Lt(l[t].key, Full(p, b - 1)) {
        var i := MiniSizedFrom(p, b - 1, t);
        FullsRise(p, i, b - 1);
      }
    }
  }

  /** The keys weighed for the mini page are its dirty keys. */
  lemma MiniKeysAreDirty(mini: Image, mm: Recs, k: Key)
    requires MiniPage(mini, mm)
    ensures k in Keys(MiniSized(mini, |mini.slots|)) <==> IsDirty(mm, k)
  {
    var l := MiniSized(mini, |mini.slots|);
    if k in Keys(l) {
      var t :| 0 <= t < |l| && l[t].key == k;
      var i := MiniSizedFrom(mini, |mini.slots|, t);
      MiniSlotInMap(mini, mm, i);
    }
    if IsDirty(mm, k) {
      var i := MiniMapInSlot(mini, mm, k);
      MiniSizedHas(mini, |mini.slots|, i);
    }
  }

  // ---- weights of one side -------------------------------------------------------------------------

  function SideWeight(l: seq<Sized>, key: Key, left: bool): int {
    if left then Weight(l, At(key)) else Weight(l, Inf) - Weight(l, At(key))
  }

  lemma SideAppend(a: seq<Sized>, b: seq<Sized>, key: Key, left: bool)
    ensures SideWeight(a + b, key, left) == SideWeight(a, key, left) + SideWeight(b, key, left)
  {
    WeightSplit(a, b, At(key));
    WeightSplit(a, b, Inf);
  }

  lemma SideOne(x: Sized, key: Key, left: bool)
    ensures SideWeight([x], key, left) == if Lt(x.key, key) == left then x.size else 0
    ensures SideWeight([], key, left) == 0
  {
    WeightCons(x, [], At(key));
    WeightCons(x, [], Inf);
    assert [x] + [] == [x];
  }

  lemma {:induction false} SideNonNegative(l: seq<Sized>, key: Key, left: bool)
    ensures SideWeight(l, key, left) >= 0
  {
    if l != [] {
      SideNonNegative(l[1..], key, left);
      SideAppend([l[0]], l[1..], key, left);
      SideOne(l[0], key, left);
      assert l == [l[0]] + l[1..];
    }
  }

  lemma Reassociate<T>(a: seq<T>, b: seq<T>, c: seq<T>)
    ensures a + (b + c) == (a + b) + c
  {
  }

  lemma {:induction false} UndupAppend(a: seq<Sized>, b: seq<Sized>, ks: set<Key>)
    ensures Undup(a + b, ks) == Undup(a, ks) + Undup(b, ks)
  {
    if a == [] {
      assert a + b == b;
    } else {
      UndupAppend(a[1..], b, ks);
      assert (a + b)[1..] == a[1..] + b;
      Reassociate(if a[0].key in ks then [] else [a[0]], Undup(a[1..], ks), Undup(b, ks));
    }
  }

  lemma UndupOne(x: Sized, ks: set<Key>)
    ensures Undup([x], ks) == if x.key in ks then [] else [x]
  {
    assert [x][1..] == [];
  }

  lemma {:induction false} UndupLighter(l: seq<Sized>, ks: set<Key>)
    ensures Weight(Undup(l, ks), Inf) <= Weight(l, Inf)
  {
    if l != [] {
      UndupLighter(l[1..], ks);
      if l[0].key !in ks { WeightCons(l[0], Undup(l[1..], ks), Inf); } else { assert [] + Undup(l[1..], ks) == Undup(l[1..], ks); }
    }
  }

  // ---- the replaced records, marked deleted --------------------------------------------------------

  /** `get_merge_split_key` marks the base records that the mini page replaces. */
  function MarkAll(p: Image, dups: set<nat>): Image {
    p.(slots := seq(|p.slots|, i requires 0 <= i < |p.slots| => if i in dups then p.slots[i].(op := Delete) else p.slots[i]))
  }

  lemma MarkAllReads(p: Image, dups: set<nat>, i: nat)
    requires Ok(p) && Laid(MarkAll(p, dups)) && First(p) <= i < |p.slots|
    ensures var q := MarkAll(p, dups);
      Tail(q, i) == Tail(p, i) && ValueAt(q, i) == ValueAt(p, i) && q.slots[i].op == if i in dups then Delete else p.slots[i].op
  {
    assert Placed(p, i);
  }

  lemma MarkAllLaid(p: Image, dups: set<nat>)
    requires Ok(p)
    ensures Ok(MarkAll(p, dups))
  {
    var q := MarkAll(p, dups);
    forall i | 0 <= i < |p.slots| ensures Placed(q, i) { assert Placed(p, i); }
    forall i, j | 0 <= i < |p.slots| && 0 <= j < |p.slots| ensures Clear(q, i, j) { assert Clear(p, i, j); }
    forall i | First(p) <= i < |p.slots| ensures Tail(q, i) == Tail(p, i) && PreviewOk(q, i) {
      MarkAllReads(p, dups, i);
      assert PreviewOk(p, i);
    }
  }

  lemma MarkAllFrame(p: Image, dups: set<nat>, low: Key, high: Key)
    requires Ok(p) && HasFences(p, low, high) && Accounted(p) && forall i :: i in dups ==> First(p) <= i
    ensures var q := MarkAll(p, dups);
      Ok(q) && HasFences(q, low, high) && Prefix(q) == Prefix(p) && Accounted(q) && q.base == p.base
  {
    MarkAllLaid(p, dups);
    var q := MarkAll(p, dups);
    assert p.bytes == Splice(p.bytes, 0, []);
    FenceSame(p, q, 0, [], low, high);
    PrefixShared(p, low, high);
    PrefixShared(q, low, high);
    MarkAllSum(p, dups, |p.slots|);
    assert p.slots[First(p)..|p.slots|] == p.slots[First(p)..] && q.slots[First(p)..|p.slots|] == q.slots[First(p)..];
  }

  lemma {:induction false} MarkAllSum(p: Image, dups: set<nat>, b: nat)
    requires First(p) <= b <= |p.slots|
    ensures Sum(MarkAll(p, dups).slots[First(p)..b], p.prefixLen) == Sum(p.slots[First(p)..b], p.prefixLen)
  {
    if b > First(p) {
      MarkAllSum(p, dups, b - 1);
      SumLast(p.slots, First(p), b, p.prefixLen);
      SumLast(MarkAll(p, dups).slots, First(p), b, p.prefixLen);
    } else {
      assert MarkAll(p, dups).slots[First(p)..b] == [] && p.slots[First(p)..b] == [];
    }
  }

  /** The base map with the replaced records marked. */
  function MarkedMap(m: Recs, ks: set<Key>): Recs { map k | k in m :: if k in ks then m[k].(op := Delete) else m[k] }

  /** The duplicates are the base slots whose keys the mini page has. */
  ghost predicate AreDups(p: Image, ks: set<Key>, dups: set<nat>)
    requires Laid(p)
  {
    forall i: nat :: i in dups <==> First(p) <= i < |p.slots| && Full(p, i) in ks
  }

  lemma MarkAllFind(p: Image, low: Key, high: Key, m: Recs, ks: set<Key>, dups: set<nat>, k: Key)
    requires BasePage(p, low, high, m) && AreDups(p, ks, dups) && Ok(MarkAll(p, dups)) && HasPrefix(p, k)
    ensures Find(MarkAll(p, dups), k[p.prefixLen..]) == Lookup(MarkedMap(m, ks), k)
  {
    var q, tail := MarkAll(p, dups), k[p.prefixLen..];
    assert Find(p, tail) == Lookup(m, k);
    PrefixLength(p, k);
    assert k == Prefix(p) + tail;
    if k in m {
      var i := LowerBound(p, tail);
      MarkAllReads(p, dups, i);
      FoundAt(q, i);
    } else {
      forall i | First(q) <= i < |q.slots| ensures Tail(q, i) != tail {
        MarkAllReads(p, dups, i);
        FoundAt(p, i);
      }
      NotFound(q, tail);
    }
  }

  lemma MarkAllHolds(p: Image, low: Key, high: Key, m: Recs, ks: set<Key>, dups: set<nat>)
    requires BasePage(p, low, high, m) && AreDups(p, ks, dups)
    ensures BasePage(MarkAll(p, dups), low, high, MarkedMap(m, ks))
  {
    MarkAllFrame(p, dups, low, high);
    var q := MarkAll(p, dups);
    forall k | HasPrefix(q, k) ensures Find(q, k[q.prefixLen..]) == Lookup(MarkedMap(m, ks), k) {
      MarkAllFind(p, low, high, m, ks, dups, k);
    }
  }

  // ---- cost of a half against its weight -----------------------------------------------------------

  lemma BaseSizedStep(p: Image, b: nat, ks: set<Key>, key: Key, left: bool)
    requires Laid(p) && First(p) < b <= |p.slots|
    ensures SideWeight(Undup(BaseSized(p, b), ks), key, left) == SideWeight(Undup(BaseSized(p, b - 1), ks), key, left) +
      if Full(p, b - 1) !in ks && Lt(Full(p, b - 1), key) == left then SizeAt(p, b - 1) else 0
  {
    var x := Sized(Full(p, b - 1), SizeAt(p, b - 1));
    UndupAppend(BaseSized(p, b - 1), [x], ks);
    UndupOne(x, ks);
    SideAppend(Undup(BaseSized(p, b - 1), ks), Undup([x], ks), key, left);
    SideOne(x, key, left);
  }

  /** A record the half takes is one that stays, and costs no more than its size. */
  lemma TakenStays(p: Image, q: Image, ks: set<Key>, dups: set<nat>, i: nat, n: nat)
    requires Ok(p) && q == MarkAll(p, dups) && Ok(q) && Prefix(q) == Prefix(p) && |Prefix(p)| == p.prefixLen && AreDups(p, ks, dups)
    requires First(p) <= i < |p.slots| && Picks(LiveOnly, q.slots[i].op)
    ensures Full(q, i) == Full(p, i) && Full(p, i) !in ks
    ensures ItemCost(Item(Full(q, i), ValueAt(q, i), Insert), n, true) <= SizeAt(p, i)
  {
    MarkAllReads(p, dups, i);
    assert Placed(p, i);
  }

  lemma CollectedStep(q: Image, a: nat, b: nat, n: nat)
    requires Laid(q) && First(q) <= a < b <= |q.slots|
    ensures Cost(Collected(q, a, b, LiveOnly), n, true) == Cost(Collected(q, a, b - 1, LiveOnly), n, true) +
      if Picks(LiveOnly, q.slots[b - 1].op) then ItemCost(Item(Full(q, b - 1), ValueAt(q, b - 1), Insert), n, true) else 0
  {
    var l := Collected(q, a, b - 1, LiveOnly);
    CostLast(l, Item(Full(q, b - 1), ValueAt(q, b - 1), Insert), n);
    assert l + [] == l;
  }

  /** What `TakenStays` says of a slot. */
  predicate Stays(p: Image, q: Image, ks: set<Key>, i: nat, n: nat)
    requires Laid(p) && Laid(q) && First(p) == First(q) <= i < |p.slots| == |q.slots|
  {
    Picks(LiveOnly, q.slots[i].op) ==>
      Full(p, i) !in ks && ItemCost(Item(Full(q, i), ValueAt(q, i), Insert), n, true) <= SizeAt(p, i)
  }

  lemma SlotCost(p: Image, q: Image, ks: set<Key>, key: Key, left: bool, a: nat, b: nat, n: nat)
    requires Laid(p) && Laid(q) && First(p) == First(q) <= a < b <= |p.slots| == |q.slots|
    requires Stays(p, q, ks, b - 1, n) && Lt(Full(p, b - 1), key) == left
    requires Cost(Collected(q, a, b - 1, LiveOnly), n, true) <= SideWeight(Undup(BaseSized(p, b - 1), ks), key, left)
    ensures Cost(Collected(q, a, b, LiveOnly), n, true) <= SideWeight(Undup(BaseSized(p, b), ks), key, left)
  {
    BaseSizedStep(p, b, ks, key, left);
    CollectedStep(q, a, b, n);
  }

  /** The live records a half takes from the base page weigh no more than that side of what stays. */
  lemma {:induction false} HalfCost(p: Image, q: Image, ks: set<Key>, dups: set<nat>, key: Key, left: bool, a: nat, b: nat, n: nat)
    requires Ok(p) && q == MarkAll(p, dups) && Ok(q) && Prefix(q) == Prefix(p) && |Prefix(p)| == p.prefixLen && AreDups(p, ks, dups)
    requires First(p) <= a <= b <= |p.slots| && forall i :: a <= i < b ==> Lt(Full(p, i), key) == left
    ensures Cost(Collected(q, a, b, LiveOnly), n, true) <= SideWeight(Undup(BaseSized(p, b), ks), key, left)
    decreases b
  {
    if a == b {
      SideNonNegative(Undup(BaseSized(p, b), ks), key, left);
    } else {
      HalfCost(p, q, ks, dups, key, left, a, b - 1, n);
      if Picks(LiveOnly, q.slots[b - 1].op) { TakenStays(p, q, ks, dups, b - 1, n); }
      SlotCost(p, q, ks, key, left, a, b, n);
    }
  }

  /** The dirty records that go to one side, in order. */
  function SideOnly(items: seq<Item>, key: Key, left: bool): seq<Item> {
    if items == [] then []
    else
      SideOnly(items[..|items| - 1], key, left) +
      if Lt(items[|items| - 1].key, key) == left then [items[|items| - 1]] else []
  }

  lemma SideOnlyStep(items: seq<Item>, x: Item, key: Key, left: bool)
    ensures SideOnly(items + [x], key, left) == SideOnly(items, key, left) + if Lt(x.key, key) == left then [x] else []
  {
    assert (items + [x])[..|items|] == items;
  }

  lemma PairStep(c: seq<Item>, x: Item, l: seq<Sized>, s: Sized, key: Key, left: bool, n: nat)
    requires x.key == s.key && ItemCost(x, n, true) <= s.size && Cost(SideOnly(c, key, left), n, true) <= SideWeight(l, key, left)
    ensures Cost(SideOnly(c + [x], key, left), n, true) <= SideWeight(l + [s], key, left)
  {
    SideOnlyStep(c, x, key, left);
    CostLast(SideOnly(c, key, left), x, n);
    SideAppend(l, [s], key, left);
    SideOne(s, key, left);
    assert SideOnly(c, key, left) + [] == SideOnly(c, key, left);
  }

  lemma DirtyStep(mini: Image, b: nat, key: Key, left: bool, n: nat)
    requires Laid(mini) && !mini.fenced && mini.prefixLen == 0 && b < |mini.slots| && mini.slots[b].op.Dirty()
    requires Cost(SideOnly(Collected(mini, 0, b, DirtyOnly), key, left), n, true) <= SideWeight(MiniSized(mini, b), key, left)
    ensures Cost(SideOnly(Collected(mini, 0, b + 1, DirtyOnly), key, left), n, true) <= SideWeight(MiniSized(mini, b + 1), key, left)
  {
    assert Placed(mini, b);
    var x := Item(Full(mini, b), ValueAt(mini, b), mini.slots[b].op);
    var s := Sized(Full(mini, b), SizeAt(mini, b));
    PairStep(Collected(mini, 0, b, DirtyOnly), x, MiniSized(mini, b), s, key, left, n);
  }

  lemma {:induction false} DirtyCost(mini: Image, b: nat, key: Key, left: bool, n: nat)
    requires Laid(mini) && !mini.fenced && mini.prefixLen == 0 && b <= |mini.slots|
    ensures Cost(SideOnly(Collected(mini, 0, b, DirtyOnly), key, left), n, true) <= SideWeight(MiniSized(mini, b), key, left)
  {
    if b > 0 {
      DirtyCost(mini, b - 1, key, left, n);
      if mini.slots[b - 1].op.Dirty() {
        DirtyStep(mini, b - 1, key, left, n);
      } else {
        var l, c := MiniSized(mini, b - 1), Collected(mini, 0, b - 1, DirtyOnly);
        assert l + [] == l && c + [] == c;
      }
    }
  }

  // ---- the whole weight ----------------------------------------------------------------------------

  lemma {:induction false} BaseWeight(p: Image, b: nat)
    requires Laid(p) && p.prefixLen == 0 && First(p) <= b <= |p.slots|
    ensures Weight(BaseSized(p, b), Inf) == Sum(p.slots[First(p)..b], 0) + SLOT * (b - First(p))
  {
    if b > First(p) {
      BaseWeight(p, b - 1);
      SumLast(p.slots, First(p), b, 0);
      var x := Sized(Full(p, b - 1), SizeAt(p, b - 1));
      WeightSplit(BaseSized(p, b - 1), [x], Inf);
      WeightCons(x, [], Inf);
      assert [x] + [] == [x];
    } else {
      assert p.slots[First(p)..b] == [];
    }
  }

  /** A base page that honours the fence reserve is light. */
  lemma ReservedIsLight(p: Image, low: Key, high: Key, m: Recs, maxFence: nat)
    requires BasePage(p, low, high, m) && p.prefixLen == 0 && Reserve(p, maxFence)
    ensures Weight(BaseSized(p, |p.slots|), Inf) + 2 * SLOT + maxFence <= |p.bytes|
  {
    BaseWeight(p, |p.slots|);
    assert p.slots[First(p)..|p.slots|] == p.slots[First(p)..];
  }

  /** The side weight in the merged order, split into what stays of the base page and the mini page. */
  lemma MergedSides(base: seq<Sized>, mini: seq<Sized>, key: Key, left: bool)
    requires Rising(base) && Rising(mini)
    ensures SideWeight(MergedOrder(base, mini), key, left) == SideWeight(Undup(base, Keys(mini)), key, left) + SideWeight(mini, key, left)
    ensures Weight(MergedOrder(base, mini), Inf) <= Weight(base, Inf) + Weight(mini, Inf)
  {
    MergeWeight(base, mini, At(key));
    MergeWeight(base, mini, Inf);
    UndupLighter(base, Keys(mini));
  }

  /** The gap between the last two size classes (C3 of the source): the arithmetic of the fit. */
  lemma HalfIsLight(bytes: nat, maxFence: nat, maxRecord: nat, base: nat, mini: nat, total: nat, side: int)
    requires base + 2 * SLOT + maxFence <= bytes
    requires mini + maxRecord + maxFence + 2 * SLOT <= bytes
    requires total <= base + mini && 2 * side <= total + maxRecord
    ensures side + 2 * SLOT + maxFence <= bytes
  {
  }

  // ---- both halves take everything -----------------------------------------------------------------

  lemma {:induction false} CostAppend(a: seq<Item>, b: seq<Item>, n: nat)
    ensures Cost(a + b, n, true) == Cost(a, n, true) + Cost(b, n, true)
    decreases |b|
  {
    if b == [] {
      assert a + b == a;
    } else {
      CostAppend(a, b[..|b| - 1], n);
      assert (a + b)[..|a + b| - 1] == a + b[..|b| - 1];
    }
  }

  /** A rebuilt half has what the records did not take, and takes the mini page's records beside the fence
      reserve. */
  lemma HalfTakes(junk: seq<byte>, lo: Key, hi: Key, items: seq<Item>, dirty: seq<Item>, maxFence: nat)
    requires Room(|junk|, lo, hi, true, items) && |lo| + |hi| <= maxFence
    requires forall i :: 0 <= i < |items| ==> PrefixLen(lo, hi) <= |items[i].key|
    requires forall i :: 0 <= i < |dirty| ==> PrefixLen(lo, hi) <= |dirty[i].key|
    requires Cost(items, PrefixLen(lo, hi), true) + Cost(dirty, PrefixLen(lo, hi), true) + 2 * SLOT + maxFence <= |junk|
    ensures var r := Rebuilt(junk, lo, hi, true, items);
      r.ok && Ok(r.page) && r.page.prefixLen == PrefixLen(lo, hi) && Fill(r.page, dirty, maxFence).ok
  {
    FencedOk(junk, lo, hi, true);
    FencedAccounted(junk, lo, hi, true);
    var p := Fenced(junk, lo, hi, true);
    FillFits(p, items, 0);
    FillFits(Rebuilt(junk, lo, hi, true, items).page, dirty, maxFence);
  }

  /** What the theorem needs of the configuration and of the two pages. */
  ghost predicate Mergeable(p: Image, low: Key, high: Key, bm: Recs, mini: Image, mm: Recs, maxFence: nat, maxRecord: nat) {
    && BasePage(p, low, high, bm) && p.prefixLen == 0 && Reserve(p, maxFence)
    && MiniPage(mini, mm) && (forall k :: k in mm ==> Within(k, low, HighOf(high)))
    && Weight(MiniSized(mini, |mini.slots|), Inf) + maxRecord + maxFence + 2 * SLOT <= |p.bytes|
  }

  /** The split key came out of `GetMergeSplitKey`: neither side outweighs half by more than half a record. */
  predicate EvenKey(p: Image, mini: Image, key: Key, maxRecord: nat)
    requires Laid(p) && Laid(mini) && !mini.fenced
  {
    var l := MergedOrder(BaseSized(p, |p.slots|), MiniSized(mini, |mini.slots|));
    2 * Weight(l, At(key)) <= Weight(l, Inf) + maxRecord && 2 * (Weight(l, Inf) - Weight(l, At(key))) <= Weight(l, Inf) + maxRecord
  }

  lemma SideIsLight(p: Image, low: Key, high: Key, bm: Recs, mini: Image, mm: Recs, key: Key, left: bool, maxFence: nat, maxRecord: nat)
    requires Mergeable(p, low, high, bm, mini, mm, maxFence, maxRecord) && EvenKey(p, mini, key, maxRecord)
    ensures var base, ms := BaseSized(p, |p.slots|), MiniSized(mini, |mini.slots|);
      SideWeight(Undup(base, Keys(ms)), key, left) + SideWeight(ms, key, left) + 2 * SLOT + maxFence <= |p.bytes|
  {
    var base, ms := BaseSized(p, |p.slots|), MiniSized(mini, |mini.slots|);
    ReservedIsLight(p, low, high, bm, maxFence);
    BaseRising(p, |p.slots|);
    MiniRising(mini, |mini.slots|);
    MergedSides(base, ms, key, left);
    HalfIsLight(|p.bytes|, maxFence, maxRecord, Weight(base, Inf), Weight(ms, Inf), Weight(MergedOrder(base, ms), Inf),
                SideWeight(MergedOrder(base, ms), key, left));
  }

  lemma {:induction false} SideOnlyKeys(items: seq<Item>, key: Key, left: bool, lo: Key, hi: Key)
    requires forall i :: 0 <= i < |items| ==> Within(items[i].key, lo, HighOf(hi))
    ensures forall i :: 0 <= i < |SideOnly(items, key, left)| ==>
      Within(SideOnly(items, key, left)[i].key, lo, HighOf(hi)) && Lt(SideOnly(items, key, left)[i].key, key) == left
  {
    if items != [] { SideOnlyKeys(items[..|items| - 1], key, left, lo, hi); }
  }

  /** For a key of its own side, the side's records do what all the records do. */
  lemma {:induction false} SideOnlyApplied(items: seq<Item>, key: Key, left: bool, k: Key, was: Option<Rec>)
    requires Lt(k, key) == left
    ensures Applied(SideOnly(items, key, left), k, was, true) == Applied(items, k, was, true)
  {
    if items != [] {
      var x := items[|items| - 1];
      var c := SideOnly(items[..|items| - 1], key, left);
      SideOnlyApplied(items[..|items| - 1], key, left, k, was);
      assert (c + [x])[..|c|] == c && c + [] == c;
    }
  }

  /** One merge that splits: the base page with its fences and map, the mini page with its map, the base
      slots it replaces, the split key, and the old bytes of the page each half is built on. */
  datatype Split = Split(p: Image, low: Key, high: Key, bm: Recs, mini: Image, mm: Recs, dups: set<nat>, key: Key, junk: seq<byte>)

  function Lo(c: Split, left: bool): Key { if left then c.low else c.key }

  function Hi(c: Split, left: bool): Key { if left then c.key else c.high }

  function Kept(c: Split, left: bool): seq<Item>
    requires Laid(MarkAll(c.p, c.dups)) && c.p.prefixLen <= |c.key|
  {
    SideItems(MarkAll(c.p, c.dups), c.key, left)
  }

  function DirtySide(c: Split, left: bool): seq<Item>
    requires Laid(c.mini) && !c.mini.fenced
  {
    SideOnly(DirtyItems(c.mini), c.key, left)
  }

  /** The two pages and the split key fit together. */
  ghost predicate SplitOk(c: Split, maxFence: nat) {
    && BasePage(c.p, c.low, c.high, c.bm) && MiniPage(c.mini, c.mm) && (forall k :: k in c.mm ==> Within(k, c.low, HighOf(c.high)))
    && AreDups(c.p, Keys(MiniSized(c.mini, |c.mini.slots|)), c.dups) && |c.junk| == |c.p.bytes|
    && Lt(c.low, c.key) && (c.high != [] ==> Lt(c.key, c.high))
    && |c.low| + |c.key| <= maxFence && |c.key| + |c.high| <= maxFence && maxFence + 2 * SLOT <= |c.p.bytes|
  }

  /** The records of a side are long enough for its prefix. */
  predicate SideLong(c: Split, left: bool)
    requires Laid(MarkAll(c.p, c.dups)) && c.p.prefixLen <= |c.key| && Laid(c.mini) && !c.mini.fenced
  {
    && (forall i :: 0 <= i < |Kept(c, left)| ==> PrefixLen(Lo(c, left), Hi(c, left)) <= |Kept(c, left)[i].key|)
    && (forall i :: 0 <= i < |DirtySide(c, left)| ==> PrefixLen(Lo(c, left), Hi(c, left)) <= |DirtySide(c, left)[i].key|)
  }

  /** The base map with the replaced records marked deleted. */
  function StayMap(c: Split): Recs
    requires Laid(c.mini) && !c.mini.fenced
  {
    MarkedMap(c.bm, Keys(MiniSized(c.mini, |c.mini.slots|)))
  }

  lemma SplitBase(c: Split, maxFence: nat)
    requires SplitOk(c, maxFence)
    ensures var q := MarkAll(c.p, c.dups);
      && BasePage(q, c.low, c.high, StayMap(c)) && HasPrefix(q, c.key) && c.key != [] && Le(c.low, c.key) && c.p.prefixLen <= |c.key|
  {
    MarkAllHolds(c.p, c.low, c.high, c.bm, Keys(MiniSized(c.mini, |c.mini.slots|)), c.dups);
    LtTotal(c.low, c.key);
    KeysCarryPrefix(MarkAll(c.p, c.dups), c.low, c.high, c.key);
  }

  predicate InSide(c: Split, left: bool, items: seq<Item>) {
    forall i :: 0 <= i < |items| ==> Within(items[i].key, Lo(c, left), HighOf(Hi(c, left)))
  }

  lemma SplitKept(c: Split, left: bool, maxFence: nat)
    requires SplitOk(c, maxFence)
    ensures Laid(MarkAll(c.p, c.dups)) && c.p.prefixLen <= |c.key|
    ensures Spells(Kept(c, left), Part(Live(StayMap(c)), c.key, left)) && InSide(c, left, Kept(c, left))
    ensures forall i :: 0 <= i < |Kept(c, left)| ==> Kept(c, left)[i].op.Insert?
  {
    SplitBase(c, maxFence);
    SideSpells(MarkAll(c.p, c.dups), c.low, c.high, StayMap(c), c.key, left);
    SideWithin(MarkAll(c.p, c.dups), c.low, c.high, StayMap(c), c.key, left);
  }

  lemma SplitDirty(c: Split, left: bool, maxFence: nat)
    requires SplitOk(c, maxFence)
    ensures InSide(c, left, DirtySide(c, left))
  {
    DirtyInRange(c.mini, c.mm, c.low, c.high);
    SideOnlyKeys(DirtyItems(c.mini), c.key, left, c.low, c.high);
  }

  lemma SplitShapes(c: Split, left: bool, maxFence: nat)
    requires SplitOk(c, maxFence)
    ensures Laid(MarkAll(c.p, c.dups)) && c.p.prefixLen <= |c.key|
    ensures Spells(Kept(c, left), Part(Live(StayMap(c)), c.key, left)) && InSide(c, left, Kept(c, left)) && InSide(c, left, DirtySide(c, left))
    ensures forall i :: 0 <= i < |Kept(c, left)| ==> Kept(c, left)[i].op.Insert?
    ensures SideLong(c, left)
  {
    SplitKept(c, left, maxFence);
    SplitDirty(c, left, maxFence);
    KeysLong(Lo(c, left), Hi(c, left), Kept(c, left));
    KeysLong(Lo(c, left), Hi(c, left), DirtySide(c, left));
  }

  /** A half: the side's live base records between the new fences, then the side's mini records, each of
      these inserts asking for the fence reserve. */
  ghost function HalfOf(c: Split, left: bool, maxFence: nat): Outcome
    requires SplitOk(c, maxFence)
  {
    SplitShapes(c, left, maxFence);
    FencedOk(c.junk, Lo(c, left), Hi(c, left), true);
    var r := Rebuilt(c.junk, Lo(c, left), Hi(c, left), true, Kept(c, left));
    if r.ok then Fill(r.page, DirtySide(c, left), maxFence) else r
  }

  lemma DirtyInRange(mini: Image, mm: Recs, low: Key, high: Key)
    requires MiniPage(mini, mm) && forall k :: k in mm ==> Within(k, low, HighOf(high))
    ensures forall t :: 0 <= t < |DirtyItems(mini)| ==> Within(DirtyItems(mini)[t].key, low, HighOf(high))
  {
    forall t | 0 <= t < |DirtyItems(mini)| ensures Within(DirtyItems(mini)[t].key, low, HighOf(high)) {
      var i := CollectedFrom(mini, 0, |mini.slots|, DirtyOnly, t);
      MiniSlotInMap(mini, mm, i);
    }
  }

  lemma SideCosts(p: Image, low: Key, high: Key, bm: Recs, mini: Image, mm: Recs, dups: set<nat>, key: Key, left: bool, n: nat)
    requires BasePage(p, low, high, bm) && p.prefixLen == 0 && MiniPage(mini, mm) && AreDups(p, Keys(MiniSized(mini, |mini.slots|)), dups)
    ensures var q, base, ms := MarkAll(p, dups), BaseSized(p, |p.slots|), MiniSized(mini, |mini.slots|);
      && Ok(q) && q.prefixLen == 0
      && Cost(SideItems(q, key, left), n, true) <= SideWeight(Undup(base, Keys(ms)), key, left)
      && Cost(SideOnly(DirtyItems(mini), key, left), n, true) <= SideWeight(ms, key, left)
  {
    var q, ks := MarkAll(p, dups), Keys(MiniSized(mini, |mini.slots|));
    MarkAllFrame(p, dups, low, high);
    PrefixShared(p, low, high);
    DirtyCost(mini, |mini.slots|, key, left, n);
    var c := CutAt(q, key);
    assert HasPrefix(q, key);
    forall i | First(p) <= i < |p.slots| ensures i < c <==> Lt(Full(p, i), key) {
      CutSides(q, low, high, key, i);
      MarkAllReads(p, dups, i);
    }
    if left {
      HalfCost(p, q, ks, dups, key, left, First(p), c, n);
      PartOfBase(p, c, ks, key);
    } else {
      HalfCost(p, q, ks, dups, key, left, c, |p.slots|, n);
    }
  }

  lemma {:induction false} PartOfBase(p: Image, c: nat, ks: set<Key>, key: Key)
    requires Laid(p) && First(p) <= c <= |p.slots|
    ensures SideWeight(Undup(BaseSized(p, c), ks), key, true) <= SideWeight(Undup(BaseSized(p, |p.slots|), ks), key, true)
  {
    BaseGrows(p, c, |p.slots|, ks, key);
  }

  lemma {:induction false} BaseGrows(p: Image, c: nat, d: nat, ks: set<Key>, key: Key)
    requires Laid(p) && First(p) <= c <= d <= |p.slots|
    ensures SideWeight(Undup(BaseSized(p, c), ks), key, true) <= SideWeight(Undup(BaseSized(p, d), ks), key, true)
    decreases d
  {
    if c < d {
      BaseGrows(p, c, d - 1, ks, key);
      BaseSizedStep(p, d, ks, key, true);
    }
  }

  lemma DirtyNonNegative(dirty: seq<Item>, n: nat)
    requires forall i :: 0 <= i < |dirty| ==> n <= |dirty[i].key|
    ensures Cost(dirty, n, true) >= 0
  {
    CostNonNegative(dirty, n, true);
  }

  lemma SideHasRoom(c: Split, left: bool, maxFence: nat, maxRecord: nat)
    requires SplitOk(c, maxFence) && Mergeable(c.p, c.low, c.high, c.bm, c.mini, c.mm, maxFence, maxRecord)
    requires EvenKey(c.p, c.mini, c.key, maxRecord)
    ensures Ok(MarkAll(c.p, c.dups)) && c.p.prefixLen <= |c.key|
    ensures var n := PrefixLen(Lo(c, left), Hi(c, left));
      Cost(Kept(c, left), n, true) + Cost(DirtySide(c, left), n, true) + 2 * SLOT + maxFence <= |c.p.bytes|
  {
    SideCosts(c.p, c.low, c.high, c.bm, c.mini, c.mm, c.dups, c.key, left, PrefixLen(Lo(c, left), Hi(c, left)));
    SideIsLight(c.p, c.low, c.high, c.bm, c.mini, c.mm, c.key, left, maxFence, maxRecord);
  }

  /** Merge-split always fits.  For a base page with an empty prefix that honours the fence reserve, a mini
      page no larger than the size classes allow, and the key `GetMergeSplitKey` chose, every insert into
      either half succeeds: the source's assertions on them never fire. */
  lemma HalfFits(c: Split, left: bool, maxFence: nat, maxRecord: nat)
    requires SplitOk(c, maxFence) && Mergeable(c.p, c.low, c.high, c.bm, c.mini, c.mm, maxFence, maxRecord)
    requires EvenKey(c.p, c.mini, c.key, maxRecord)
    ensures HalfOf(c, left, maxFence).ok
  {
    SplitShapes(c, left, maxFence);
    SideHasRoom(c, left, maxFence, maxRecord);
    DirtyNonNegative(DirtySide(c, left), PrefixLen(Lo(c, left), Hi(c, left)));
    HalfTakes(c.junk, Lo(c, left), Hi(c, left), Kept(c, left), DirtySide(c, left), maxFence);
  }

  // ---- the key that `GetMergeSplitKey` chose -------------------------------------------------------

  lemma {:induction false} MergedFrom(base: seq<Sized>, mini: seq<Sized>, t: nat)
    requires t < |MergedOrder(base, mini)|
    ensures MergedOrder(base, mini)[t] in base || MergedOrder(base, mini)[t] in mini
    decreases |base| + |mini|
  {
    if base != [] && mini != [] && t > 0 {
      if Lt(base[0].key, mini[0].key) {
        MergedFrom(base[1..], mini, t - 1);
      } else if base[0].key == mini[0].key {
        MergedFrom(base[1..], mini[1..], t - 1);
      } else {
        MergedFrom(base, mini[1..], t - 1);
      }
    }
  }

  lemma MergedInRange(p: Image, low: Key, high: Key, bm: Recs, mini: Image, mm: Recs, t: nat)
    requires BasePage(p, low, high, bm) && MiniPage(mini, mm) && forall k :: k in mm ==> Within(k, low, HighOf(high))
    requires t < |MergedOrder(BaseSized(p, |p.slots|), MiniSized(mini, |mini.slots|))|
    ensures Within(MergedOrder(BaseSized(p, |p.slots|), MiniSized(mini, |mini.slots|))[t].key, low, HighOf(high))
  {
    var base, ms := BaseSized(p, |p.slots|), MiniSized(mini, |mini.slots|);
    var x := MergedOrder(base, ms)[t];
    MergedFrom(base, ms, t);
    if x in base {
      var u :| 0 <= u < |base| && base[u] == x;
      BaseSizedLen(p, |p.slots|);
      BaseSizedAt(p, |p.slots|, u);
      SlotInMap(p, low, high, bm, First(p) + u);
    } else {
      var u :| 0 <= u < |ms| && ms[u] == x;
      var i := MiniSizedFrom(mini, |mini.slots|, u);
      MiniSlotInMap(mini, mm, i);
    }
  }

  /** The chosen key lies strictly between the fences, so it can be one. */
  lemma ChosenKeyBetween(p: Image, low: Key, high: Key, bm: Recs, mini: Image, mm: Recs, at: nat)
    requires BasePage(p, low, high, bm) && MiniPage(mini, mm) && forall k :: k in mm ==> Within(k, low, HighOf(high))
    requires 0 < at < |MergedOrder(BaseSized(p, |p.slots|), MiniSized(mini, |mini.slots|))|
    ensures var key := MergedOrder(BaseSized(p, |p.slots|), MiniSized(mini, |mini.slots|))[at].key;
      Lt(low, key) && (high != [] ==> Lt(key, high))
  {
    BaseRising(p, |p.slots|);
    MiniRising(mini, |mini.slots|);
    var l := MergedOrder(BaseSized(p, |p.slots|), MiniSized(mini, |mini.slots|));
    MergeRising(BaseSized(p, |p.slots|), MiniSized(mini, |mini.slots|));
    MergedInRange(p, low, high, bm, mini, mm, 0);
    MergedInRange(p, low, high, bm, mini, mm, at);
    NotLowFence(l, at, low);
  }

  // ---- what the halves hold ------------------------------------------------------------------------

  function ReadRec(r: Option<Rec>): Option<Value> { match r case None => None case Some(x) => AsOption(x) }

  /** One key after the mini page is absorbed into what stayed of the base page. */
  lemma AbsorbedReads(bm: Recs, mm: Recs, ks: set<Key>, key: Key, left: bool, k: Key)
    requires Lt(k, key) == left && (k in ks <==> IsDirty(mm, k))
    ensures ReadRec(Lookup(Absorb(Part(Live(MarkedMap(bm, ks)), key, left), mm), k)) ==
      if IsDirty(mm, k) then RecGet(mm, k) else RecGet(bm, k)
  {
  }

  lemma DirtyCarry(h: Image, lo: Key, hi: Key, dirty: seq<Item>)
    requires Laid(h) && HasFences(h, lo, hi) && forall t :: 0 <= t < |dirty| ==> Within(dirty[t].key, lo, HighOf(hi))
    ensures Fillable(h, dirty)
  {
    forall t | 0 <= t < |dirty| ensures HasPrefix(h, dirty[t].key) { KeysCarryPrefix(h, lo, hi, dirty[t].key); }
  }

  lemma FilledReads(c: Split, left: bool, maxFence: nat, h: Image, m: Recs, k: Key)
    requires SplitOk(c, maxFence) && Ok(h) && h.base && HasFences(h, Lo(c, left), Hi(c, left)) && Holds(h, Part(Live(m), c.key, left))
    requires m == StayMap(c) && Within(k, Lo(c, left), HighOf(Hi(c, left)))
    requires InSide(c, left, DirtySide(c, left))
    requires (forall i :: 0 <= i < |DirtySide(c, left)| ==> h.prefixLen <= |DirtySide(c, left)[i].key|) && Fill(h, DirtySide(c, left), maxFence).ok
    ensures var r := Fill(h, DirtySide(c, left), maxFence).page;
      && HasFences(r, Lo(c, left), Hi(c, left)) && HasPrefix(r, k)
      && ReadRec(Find(r, k[r.prefixLen..])) == if IsDirty(c.mm, k) then RecGet(c.mm, k) else RecGet(c.bm, k)
  {
    var part := Part(Live(m), c.key, left);
    DirtyCarry(h, Lo(c, left), Hi(c, left), DirtySide(c, left));
    FillKeepsFences(h, DirtySide(c, left), maxFence, Lo(c, left), Hi(c, left));
    KeysCarryPrefix(h, Lo(c, left), Hi(c, left), k);
    KeysCarryPrefix(Fill(h, DirtySide(c, left), maxFence).page, Lo(c, left), Hi(c, left), k);
    FillApplied(h, DirtySide(c, left), maxFence, k);
    LtTotal(c.low, c.key);
    SideOnlyApplied(DirtyItems(c.mini), c.key, left, k, Lookup(part, k));
    DirtyApplied(c.mini, c.mm, part, k);
    MiniKeysAreDirty(c.mini, c.mm, k);
    AbsorbedReads(c.bm, c.mm, Keys(MiniSized(c.mini, |c.mini.slots|)), c.key, left, k);
  }
}
