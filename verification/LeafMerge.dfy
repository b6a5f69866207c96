/** Splitting a base page at a key, and merging a mini page into its base page. */
module LeafMerge {
  import opened Bytes
  import opened TreeShape
  import opened LeafCache
  import opened LeafImage
  import opened LeafImageProof
  import opened LeafFill
  import opened LeafSplit

  // ---- the records of a page as a list -------------------------------------------------------------

  /** Which records are collected: live ones, as inserts; or dirty ones, as they are. */
  datatype Pick = LiveOnly | DirtyOnly

  predicate Picks(w: Pick, op: Op) { if w.LiveOnly? then !op.Delete? else op.Dirty() }

  function PickedOp(w: Pick, op: Op): Op { if w.LiveOnly? then Insert else op }

  function Full(p: Image, i: nat): Key
    requires Laid(p) && First(p) <= i < |p.slots|
  {
    Prefix(p) + Tail(p, i)
  }

  function Collected(p: Image, a: nat, b: nat, w: Pick): seq<Item>
    requires Laid(p) && First(p) <= a <= b <= |p.slots|
    decreases b
  {
    if a == b then []
    else
      Collected(p, a, b - 1, w) +
      if Picks(w, p.slots[b - 1].op) then [Item(Full(p, b - 1), ValueAt(p, b - 1), PickedOp(w, p.slots[b - 1].op))] else []
  }

  lemma {:induction false} CollectedFrom(p: Image, a: nat, b: nat, w: Pick, t: nat) returns (i: nat)
    requires Laid(p) && First(p) <= a <= b <= |p.slots| && t < |Collected(p, a, b, w)|
    ensures a <= i < b && Picks(w, p.slots[i].op)
    ensures Collected(p, a, b, w)[t] == Item(Full(p, i), ValueAt(p, i), PickedOp(w, p.slots[i].op))
    decreases b
  {
    if t < |Collected(p, a, b - 1, w)| { i := CollectedFrom(p, a, b - 1, w, t); } else { i := b - 1; }
  }

  lemma {:induction false} CollectedHas(p: Image, a: nat, b: nat, w: Pick, i: nat) returns (t: nat)
    requires Laid(p) && First(p) <= a <= i < b <= |p.slots| && Picks(w, p.slots[i].op)
    ensures t < |Collected(p, a, b, w)|
    ensures Collected(p, a, b, w)[t] == Item(Full(p, i), ValueAt(p, i), PickedOp(w, p.slots[i].op))
    decreases b
  {
    if i == b - 1 { t := |Collected(p, a, b, w)| - 1; } else { t := CollectedHas(p, a, b - 1, w, i); }
  }

  lemma FullsDiffer(p: Image, i: nat, j: nat)
    requires Ok(p) && First(p) <= i < j < |p.slots|
    ensures Full(p, i) != Full(p, j)
  {
    LtTotal(Tail(p, i), Tail(p, j));
    assert Full(p, i)[|Prefix(p)|..] == Tail(p, i) && Full(p, j)[|Prefix(p)|..] == Tail(p, j);
  }

  lemma {:induction false} CollectedDistinct(p: Image, a: nat, b: nat, w: Pick)
    requires Ok(p) && First(p) <= a <= b <= |p.slots|
    ensures Distinct(Collected(p, a, b, w))
    decreases b
  {
    if a < b {
      CollectedDistinct(p, a, b - 1, w);
      var items := Collected(p, a, b - 1, w);
      forall t | 0 <= t < |items| ensures items[t].key != Full(p, b - 1) {
        var i := CollectedFrom(p, a, b - 1, w, t);
        FullsDiffer(p, i, b - 1);
      }
    }
  }

  // ---- pages and full keys -------------------------------------------------------------------------

  /** A fenced page with room accounted for, holding the map `m` between its fences. */
  ghost predicate BasePage(p: Image, low: Key, high: Key, m: Recs) {
    && Ok(p) && Accounted(p) && p.base && HasFences(p, low, high) && Holds(p, m)
    && (forall k :: k in m ==> Within(k, low, HighOf(high)) && m[k].op.Dirty())
  }

  lemma FullHasPrefix(p: Image, low: Key, high: Key, i: nat)
    requires Ok(p) && HasFences(p, low, high) && First(p) <= i < |p.slots|
    ensures HasPrefix(p, Full(p, i)) && Full(p, i)[p.prefixLen..] == Tail(p, i)
  {
    PrefixShared(p, low, high);
  }

  /** The record in slot `i` is the map's record of its full key. */
  lemma SlotInMap(p: Image, low: Key, high: Key, m: Recs, i: nat)
    requires BasePage(p, low, high, m) && First(p) <= i < |p.slots|
    ensures Full(p, i) in m && m[Full(p, i)] == RecAt(p, i)
  {
    FullHasPrefix(p, low, high, i);
    FoundAt(p, i);
    assert Find(p, Full(p, i)[p.prefixLen..]) == Lookup(m, Full(p, i));
  }

  lemma MapInSlot(p: Image, low: Key, high: Key, m: Recs, k: Key) returns (i: nat)
    requires BasePage(p, low, high, m) && k in m
    ensures First(p) <= i < |p.slots| && Full(p, i) == k && RecAt(p, i) == m[k]
  {
    assert HasPrefix(p, k) && Find(p, k[p.prefixLen..]) == Some(m[k]);
    i := LowerBound(p, k[p.prefixLen..]);
    PrefixLength(p, k);
    assert k == Prefix(p) + k[p.prefixLen..];
  }

  // ---- split ---------------------------------------------------------------------------------------

  /** The first slot that goes to the right sibling. */
  function CutAt(p: Image, key: Key): nat
    requires Laid(p) && p.prefixLen <= |key|
  {
    LowerBound(p, key[p.prefixLen..])
  }

  lemma CutSides(p: Image, low: Key, high: Key, key: Key, i: nat)
    requires Ok(p) && HasFences(p, low, high) && HasPrefix(p, key) && First(p) <= i < |p.slots|
    ensures i < CutAt(p, key) <==> Lt(Full(p, i), key)
  {
    FullHasPrefix(p, low, high, i);
    PrefixLength(p, key);
    CompressionExact(Prefix(p), Full(p, i), key);
    var c := CutAt(p, key);
    if c <= i {
      LtTotal(Tail(p, c), key[p.prefixLen..]);
      if c < i && Lt(Tail(p, i), key[p.prefixLen..]) { LtTransitive(Tail(p, c), Tail(p, i), key[p.prefixLen..]); }
    }
  }

  function SideItems(p: Image, key: Key, left: bool): seq<Item>
    requires Laid(p) && p.prefixLen <= |key|
  {
    if left then Collected(p, First(p), CutAt(p, key), LiveOnly) else Collected(p, CutAt(p, key), |p.slots|, LiveOnly)
  }

  lemma SideSpells(p: Image, low: Key, high: Key, m: Recs, key: Key, left: bool)
    requires BasePage(p, low, high, m) && HasPrefix(p, key)
    ensures Spells(SideItems(p, key, left), Part(Live(m), key, left))
    ensures forall t :: 0 <= t < |SideItems(p, key, left)| ==> SideItems(p, key, left)[t].op.Insert?
  {
    var items, part := SideItems(p, key, left), Part(Live(m), key, left);
    var a, b := if left then First(p) else CutAt(p, key), if left then CutAt(p, key) else |p.slots|;
    CollectedDistinct(p, a, b, LiveOnly);
    forall t | 0 <= t < |items| ensures items[t].op.Insert? && items[t].key in part && part[items[t].key] == Rec(items[t].op, items[t].value) {
      var i := CollectedFrom(p, a, b, LiveOnly, t);
      SlotInMap(p, low, high, m, i);
      CutSides(p, low, high, key, i);
    }
    forall k | k in part ensures exists t :: 0 <= t < |items| && items[t].key == k {
      var i := MapInSlot(p, low, high, m, k);
      CutSides(p, low, high, key, i);
      var t := CollectedHas(p, a, b, LiveOnly, i);
      assert items[t].key == k;
    }
  }

  // ---- room for the halves -------------------------------------------------------------------------

  /** What client inserts leave free: enough for the longest pair of fences. */
  predicate Reserve(p: Image, maxFence: nat)
    requires First(p) <= |p.slots|
  {
    p.remaining + FenceLens(p) >= maxFence
  }

  lemma SlotCost(p: Image, i: nat, n: nat)
    requires Laid(p) && First(p) <= i < |p.slots| && p.prefixLen <= n && |Prefix(p)| == p.prefixLen
    ensures 0 <= Payload(p.slots[i], p.prefixLen)
    ensures ItemCost(Item(Full(p, i), ValueAt(p, i), Insert), n, true) <= Payload(p.slots[i], p.prefixLen) + SLOT
  {
    assert Placed(p, i);
  }

  /** Live records cost no more than their slots and payloads, and less under a longer prefix. */
  lemma {:induction false} CollectedCost(p: Image, a: nat, b: nat, n: nat)
    requires Laid(p) && First(p) <= a <= b <= |p.slots| && p.prefixLen <= n && |Prefix(p)| == p.prefixLen
    ensures Cost(Collected(p, a, b, LiveOnly), n, true) <= Sum(p.slots[a..b], p.prefixLen) + SLOT * (b - a)
    decreases b
  {
    if a < b {
      CollectedCost(p, a, b - 1, n);
      SlotCost(p, b - 1, n);
      SumLast(p.slots, a, b, p.prefixLen);
      CostLast(Collected(p, a, b - 1, LiveOnly), Item(Full(p, b - 1), ValueAt(p, b - 1), Insert), n);
    }
  }

  lemma SumLast(slots: seq<Slot>, a: nat, b: nat, n: nat)
    requires a < b <= |slots|
    ensures Sum(slots[a..b], n) == Sum(slots[a..b - 1], n) + Payload(slots[b - 1], n)
  {
    assert slots[a..b][..b - 1 - a] == slots[a..b - 1];
  }

  lemma CostLast(items: seq<Item>, x: Item, n: nat)
    ensures Cost(items + [x], n, true) == Cost(items, n, true) + ItemCost(x, n, true)
    ensures items + [] == items
  {
    assert (items + [x])[..|items|] == items;
  }

  lemma {:induction false} SumNonNegative(p: Image, a: nat, b: nat)
    requires Laid(p) && First(p) <= a <= b <= |p.slots|
    ensures Sum(p.slots[a..b], p.prefixLen) >= 0
    decreases b
  {
    if a < b {
      SumNonNegative(p, a, b - 1);
      assert Placed(p, b - 1);
      SumLast(p.slots, a, b, p.prefixLen);
    }
  }

  lemma SideCost(p: Image, key: Key, left: bool, n: nat)
    requires Ok(p) && Accounted(p) && p.prefixLen <= |key| && p.prefixLen <= n && |Prefix(p)| == p.prefixLen
    ensures Cost(SideItems(p, key, left), n, true) + SLOT * First(p) + p.remaining + FencePayload(p) <= |p.bytes|
  {
    var f, c, e := First(p), CutAt(p, key), |p.slots|;
    assert p.slots[f..] == p.slots[f..c] + p.slots[c..e];
    SumAppend(p.slots[f..c], p.slots[c..e], p.prefixLen);
    SumNonNegative(p, f, c);
    SumNonNegative(p, c, e);
    CollectedCost(p, f, c, n);
    CollectedCost(p, c, e, n);
  }

  lemma {:induction false} PrefixLenMax(a: Key, b: Key, n: nat)
    requires n <= |a| && n <= |b| && a[..n] == b[..n]
    ensures PrefixLen(a, b) >= n
    decreases n
  {
    if n > 0 {
      assert a[0] == a[..n][0] && b[0] == b[..n][0];
      assert a[1..][..n - 1] == a[..n][1..] && b[1..][..n - 1] == b[..n][1..];
      PrefixLenMax(a[1..], b[1..], n - 1);
    }
  }

  /** Narrower fences share at least as long a prefix. */
  lemma NarrowerPrefix(low: Key, high: Key, key: Key)
    requires Le(low, key) && (high != [] ==> Lt(key, high))
    ensures PrefixLen(low, key) >= PrefixLen(low, high) && PrefixLen(key, high) >= PrefixLen(low, high)
  {
    var n := PrefixLen(low, high);
    if high != [] { BetweenSharesPrefix(low, key, high, n); }
    PrefixLenMax(low, key, n);
    PrefixLenMax(key, high, n);
  }

  lemma SideRoom(p: Image, low: Key, high: Key, key: Key, left: bool, maxFence: nat)
    requires Ok(p) && Accounted(p) && HasFences(p, low, high) && Reserve(p, maxFence) && HasPrefix(p, key)
    requires Le(low, key) && (high != [] ==> Lt(key, high)) && |low| + |key| <= maxFence && |key| + |high| <= maxFence
    requires maxFence + 2 * SLOT <= |p.bytes|
    ensures Room(|p.bytes|, if left then low else key, if left then key else high, true, SideItems(p, key, left))
  {
    NarrowerPrefix(low, high, key);
    var n := if left then PrefixLen(low, key) else PrefixLen(key, high);
    PrefixLength(p, key);
    SideCost(p, key, left, n);
    FenceSlack(p, low, high);
  }

  lemma FenceSlack(p: Image, low: Key, high: Key)
    requires Laid(p) && HasFences(p, low, high)
    ensures FenceLens(p) <= FencePayload(p) + p.prefixLen
  {
  }

  /** One side of a split: initialize with the side's fences, insert its live records. */
  function SideOf(p: Image, junk: seq<byte>, low: Key, high: Key, key: Key, left: bool): Outcome
    requires Laid(p) && p.prefixLen <= |key|
    requires |low| + |key| + 2 * SLOT <= |junk| < INF_LOW && |key| + |high| + 2 * SLOT <= |junk|
    requires forall i :: 0 <= i < |SideItems(p, key, left)| ==>
      PrefixLen(if left then low else key, if left then key else high) <= |SideItems(p, key, left)[i].key|
  {
    Rebuilt(junk, if left then low else key, if left then key else high, true, SideItems(p, key, left))
  }

  lemma SideWithin(p: Image, low: Key, high: Key, m: Recs, key: Key, left: bool)
    requires BasePage(p, low, high, m) && HasPrefix(p, key) && Le(low, key) && key != [] && (high != [] ==> Lt(key, high))
    ensures forall i :: 0 <= i < |SideItems(p, key, left)| ==>
      Within(SideItems(p, key, left)[i].key, if left then low else key, HighOf(if left then key else high))
  {
    SideSpells(p, low, high, m, key, left);
    var items := SideItems(p, key, left);
    forall i | 0 <= i < |items| ensures Within(items[i].key, if left then low else key, HighOf(if left then key else high)) {
      assert items[i].key in Part(Live(m), key, left);
    }
  }

  /** Leaf split.  Given the fence reserve, both halves take all their records; each holds exactly the live
      records on its side of the split key -- nothing lost, nothing revived -- and the split key is the left
      half's high fence and the right half's low fence. */
  lemma SplitPreserves(p: Image, junk: seq<byte>, low: Key, high: Key, m: Recs, key: Key, left: bool, maxFence: nat)
    requires BasePage(p, low, high, m) && Reserve(p, maxFence) && |junk| == |p.bytes|
    requires Le(low, key) && key != [] && (high != [] ==> Lt(key, high))
    requires |low| + |key| <= maxFence && |key| + |high| <= maxFence && maxFence + 2 * SLOT <= |p.bytes|
    ensures p.prefixLen <= |key|
    ensures forall i :: 0 <= i < |SideItems(p, key, left)| ==>
      PrefixLen(if left then low else key, if left then key else high) <= |SideItems(p, key, left)[i].key|
    ensures var r := SideOf(p, junk, low, high, key, left);
      && r.ok && Ok(r.page) && Accounted(r.page)
      && HasFences(r.page, if left then low else key, if left then key else high)
      && Holds(r.page, Part(Live(m), key, left))
  {
    KeysCarryPrefix(p, low, high, key);
    SideSpells(p, low, high, m, key, left);
    SideWithin(p, low, high, m, key, left);
    SideRoom(p, low, high, key, left, maxFence);
    RebuiltHolds(junk, if left then low else key, if left then key else high, true, SideItems(p, key, left), Part(Live(m), key, left));
  }

  /** Consolidation is the split that keeps everything: the live records, the same fences. */
  lemma ConsolidatePreserves(p: Image, junk: seq<byte>, low: Key, high: Key, m: Recs, maxFence: nat)
    requires BasePage(p, low, high, m) && Reserve(p, maxFence) && |junk| == |p.bytes|
    requires |low| + |high| <= maxFence && maxFence + 2 * SLOT <= |p.bytes|
    ensures var items := Collected(p, First(p), |p.slots|, LiveOnly);
      && (forall i :: 0 <= i < |items| ==> PrefixLen(low, high) <= |items[i].key|)
      && var r := Rebuilt(junk, low, high, true, items);
      r.ok && Ok(r.page) && Accounted(r.page) && HasFences(r.page, low, high) && Holds(r.page, Live(m))
  {
    var items := Collected(p, First(p), |p.slots|, LiveOnly);
    AllSpell(p, low, high, m);
    AllRoom(p, low, high, maxFence);
    RebuiltHolds(junk, low, high, true, items, Live(m));
  }

  lemma AllSpell(p: Image, low: Key, high: Key, m: Recs)
    requires BasePage(p, low, high, m)
    ensures var items := Collected(p, First(p), |p.slots|, LiveOnly);
      && Spells(items, Live(m))
      && forall i :: 0 <= i < |items| ==> Within(items[i].key, low, HighOf(high)) && items[i].op.Insert?
  {
    var items := Collected(p, First(p), |p.slots|, LiveOnly);
    CollectedDistinct(p, First(p), |p.slots|, LiveOnly);
    forall t | 0 <= t < |items|
      ensures items[t].op.Insert? && items[t].key in Live(m) && Live(m)[items[t].key] == Rec(items[t].op, items[t].value)
    {
      var i := CollectedFrom(p, First(p), |p.slots|, LiveOnly, t);
      SlotInMap(p, low, high, m, i);
    }
    forall k | k in Live(m) ensures exists t :: 0 <= t < |items| && items[t].key == k {
      var i := MapInSlot(p, low, high, m, k);
      var t := CollectedHas(p, First(p), |p.slots|, LiveOnly, i);
      assert items[t].key == k;
    }
  }

  lemma AllRoom(p: Image, low: Key, high: Key, maxFence: nat)
    requires Ok(p) && Accounted(p) && HasFences(p, low, high) && Reserve(p, maxFence)
    requires |low| + |high| <= maxFence && maxFence + 2 * SLOT <= |p.bytes|
    ensures Room(|p.bytes|, low, high, true, Collected(p, First(p), |p.slots|, LiveOnly))
  {
    PrefixShared(p, low, high);
    assert p.slots[First(p)..|p.slots|] == p.slots[First(p)..];
    CollectedCost(p, First(p), |p.slots|, p.prefixLen);
    FenceSlack(p, low, high);
  }

  // ---- merging a mini page -------------------------------------------------------------------------

  /** `estimate_merge_size`, over the slots below `b`. */
  function Estimate(p: Image, b: nat): nat
    requires b <= |p.slots|
  {
    if b == 0 then 0
    else Estimate(p, b - 1) + if p.slots[b - 1].op.Insert? then p.slots[b - 1].keyLen + p.slots[b - 1].valueLen + SLOT else 0
  }

  /** A mini page: no fences, no prefix. */
  ghost predicate MiniPage(p: Image, m: Recs) {
    Ok(p) && !p.fenced && p.prefixLen == 0 && !p.base && Holds(p, m)
  }

  function DirtyItems(mini: Image): seq<Item>
    requires Laid(mini) && !mini.fenced
  {
    Collected(mini, 0, |mini.slots|, DirtyOnly)
  }

  /** `merge_mini_page`. */
  function MergeMini(p: Image, mini: Image, maxFence: nat): Outcome
    requires Ok(p) && Laid(mini) && !mini.fenced
    requires forall i :: 0 <= i < |DirtyItems(mini)| ==> p.prefixLen <= |DirtyItems(mini)[i].key|
  {
    if FullWithFences(p, Estimate(mini, |mini.slots|), maxFence) then Outcome(p, false) else Fill(p, DirtyItems(mini), 0)
  }

  lemma {:induction false} EstimateCovers(mini: Image, b: nat, n: nat)
    requires Ok(mini) && !mini.fenced && mini.prefixLen == 0 && b <= |mini.slots|
    ensures Cost(Collected(mini, 0, b, DirtyOnly), n, true) <= Estimate(mini, b)
  {
    if b > 0 {
      EstimateCovers(mini, b - 1, n);
      assert Placed(mini, b - 1);
      CostLast(Collected(mini, 0, b - 1, DirtyOnly), Item(Full(mini, b - 1), ValueAt(mini, b - 1), mini.slots[b - 1].op), n);
    }
  }

  lemma MiniSlotInMap(mini: Image, m: Recs, i: nat)
    requires MiniPage(mini, m) && i < |mini.slots|
    ensures Full(mini, i) in m && m[Full(mini, i)] == RecAt(mini, i)
  {
    FoundAt(mini, i);
    var k := Full(mini, i);
    assert k == Tail(mini, i) && k[0..] == k && HasPrefix(mini, k);
    assert Find(mini, k[0..]) == Lookup(m, k);
  }

  lemma MiniMapInSlot(mini: Image, m: Recs, k: Key) returns (i: nat)
    requires MiniPage(mini, m) && k in m
    ensures i < |mini.slots| && Full(mini, i) == k && RecAt(mini, i) == m[k]
  {
    assert HasPrefix(mini, k) && Find(mini, k[0..]) == Some(m[k]);
    assert k[0..] == k;
    i := LowerBound(mini, k[0..]);
  }

  // what the estimate is, on the mini page's map

  function InsertSize(k: Key, r: Rec): nat { if r.op.Insert? then |k| + |r.value| + 8 else 0 }

  /** Key, value and slot of every Insert record of a map. */
  ghost function InsertBytes(m: Recs): nat
    decreases |m|
  {
    if m == map[] then 0 else var k :| k in m; InsertSize(k, m[k]) + InsertBytes(m - {k})
  }

  lemma {:induction false} TakeOut(m: Recs, k: Key)
    requires k in m
    ensures InsertBytes(m) == InsertSize(k, m[k]) + InsertBytes(m - {k})
    decreases |m|
  {
    var first :| first in m && InsertBytes(m) == InsertSize(first, m[first]) + InsertBytes(m - {first});
    if first != k {
      TakeOut(m - {first}, k);
      TakeOut(m - {k}, first);
      assert m - {first} - {k} == m - {k} - {first};
    }
  }

  lemma PutIn(m: Recs, k: Key, r: Rec)
    requires k !in m
    ensures InsertBytes(m[k := r]) == InsertBytes(m) + InsertSize(k, r)
  {
    TakeOut(m[k := r], k);
    assert m[k := r] - {k} == m;
  }

  /** The records of the slots below `b`. */
  function SlotMap(p: Image, b: nat): Recs
    requires Laid(p) && !p.fenced && b <= |p.slots|
  {
    if b == 0 then map[] else SlotMap(p, b - 1)[Full(p, b - 1) := RecAt(p, b - 1)]
  }

  lemma {:induction false} SlotMapHas(p: Image, b: nat, k: Key)
    requires Laid(p) && !p.fenced && b <= |p.slots|
    ensures k in SlotMap(p, b) <==> exists i :: 0 <= i < b && Full(p, i) == k
  {
    if b > 0 { SlotMapHas(p, b - 1, k); }
  }

  lemma {:induction false} EstimateIs(mini: Image, b: nat)
    requires Laid(mini) && !mini.fenced && mini.prefixLen == 0 && b <= |mini.slots| && KeysDiffer(mini)
    ensures Estimate(mini, b) == InsertBytes(SlotMap(mini, b))
  {
    if b > 0 {
      EstimateIs(mini, b - 1);
      SlotMapHas(mini, b - 1, Full(mini, b - 1));
      PutIn(SlotMap(mini, b - 1), Full(mini, b - 1), RecAt(mini, b - 1));
      SlotBytes(mini, b - 1);
    }
  }

  predicate KeysDiffer(p: Image)
    requires Laid(p)
  {
    forall i, j :: First(p) <= i < j < |p.slots| ==> Full(p, i) != Full(p, j)
  }

  lemma AllKeysDiffer(p: Image)
    requires Ok(p)
    ensures KeysDiffer(p)
  {
    forall i, j | First(p) <= i < j < |p.slots| ensures Full(p, i) != Full(p, j) { FullsDiffer(p, i, j); }
  }

  lemma {:induction false} SlotMapIn(mini: Image, m: Recs, b: nat)
    requires MiniPage(mini, m) && b <= |mini.slots|
    ensures forall k :: k in SlotMap(mini, b) ==> k in m && SlotMap(mini, b)[k] == m[k]
  {
    if b > 0 {
      SlotMapIn(mini, m, b - 1);
      MiniSlotInMap(mini, m, b - 1);
    }
  }

  lemma SlotBytes(mini: Image, i: nat)
    requires Laid(mini) && !mini.fenced && mini.prefixLen == 0 && i < |mini.slots|
    ensures |Full(mini, i)| == mini.slots[i].keyLen && |RecAt(mini, i).value| == mini.slots[i].valueLen
  {
    assert Placed(mini, i);
  }

  /** `estimate_merge_size` is the size of the mini page's Insert records. */
  lemma EstimateIsInserts(mini: Image, m: Recs)
    requires MiniPage(mini, m)
    ensures Estimate(mini, |mini.slots|) == InsertBytes(m)
  {
    AllKeysDiffer(mini);
    EstimateIs(mini, |mini.slots|);
    SlotMapIn(mini, m, |mini.slots|);
    forall k | k in m ensures k in SlotMap(mini, |mini.slots|) {
      var i := MiniMapInSlot(mini, m, k);
      SlotMapHas(mini, |mini.slots|, k);
    }
    assert SlotMap(mini, |mini.slots|) == m;
  }

  /** What the dirty records of a mini page do to one key is what absorbing the mini page does. */
  lemma DirtyApplied(mini: Image, mm: Recs, bm: Recs, k: Key)
    requires MiniPage(mini, mm)
    ensures Applied(DirtyItems(mini), k, Lookup(bm, k), true) == Lookup(Absorb(bm, mm), k)
  {
    var items := DirtyItems(mini);
    CollectedDistinct(mini, 0, |mini.slots|, DirtyOnly);
    if IsDirty(mm, k) {
      var i := MiniMapInSlot(mini, mm, k);
      var t := CollectedHas(mini, 0, |mini.slots|, DirtyOnly, i);
      AppliedOnce(items, k, Lookup(bm, k), true, t);
    } else {
      forall t | 0 <= t < |items| ensures items[t].key != k {
        var i := CollectedFrom(mini, 0, |mini.slots|, DirtyOnly, t);
        MiniSlotInMap(mini, mm, i);
      }
      AppliedOnce(items, k, Lookup(bm, k), true, |items|);
    }
  }

  lemma DirtyFillable(p: Image, low: Key, high: Key, mini: Image, mm: Recs)
    requires Laid(p) && HasFences(p, low, high) && MiniPage(mini, mm) && forall k :: k in mm ==> Within(k, low, HighOf(high))
    ensures Fillable(p, DirtyItems(mini))
  {
    var items := DirtyItems(mini);
    forall t | 0 <= t < |items| ensures HasPrefix(p, items[t].key) {
      var i := CollectedFrom(mini, 0, |mini.slots|, DirtyOnly, t);
      MiniSlotInMap(mini, mm, i);
      KeysCarryPrefix(p, low, high, items[t].key);
    }
  }

  /** Mini-page merge is all or nothing: it refuses and leaves the base page as it was, or every dirty record
      goes in -- the asserted inserts never fail, growing duplicates included -- and the base page becomes
      the overlay.  The fence reserve survives. */
  lemma MergeAllOrNothing(p: Image, low: Key, high: Key, bm: Recs, mini: Image, mm: Recs, maxFence: nat)
    requires BasePage(p, low, high, bm) && MiniPage(mini, mm) && forall k :: k in mm ==> Within(k, low, HighOf(high))
    ensures forall i :: 0 <= i < |DirtyItems(mini)| ==> p.prefixLen <= |DirtyItems(mini)[i].key|
    ensures var r := MergeMini(p, mini, maxFence);
      && r.ok == !FullWithFences(p, InsertBytes(mm), maxFence)
      && (!r.ok ==> r.page == p)
      && (r.ok ==> BasePage(r.page, low, high, Absorb(bm, mm)) && Reserve(r.page, maxFence))
  {
    EstimateIsInserts(mini, mm);
    DirtyFillable(p, low, high, mini, mm);
    DirtyLong(p, DirtyItems(mini));
    if !FullWithFences(p, Estimate(mini, |mini.slots|), maxFence) { MergeTakesAll(p, low, high, bm, mini, mm, maxFence); }
  }

  lemma MergeTakesAll(p: Image, low: Key, high: Key, bm: Recs, mini: Image, mm: Recs, maxFence: nat)
    requires BasePage(p, low, high, bm) && MiniPage(mini, mm) && forall k :: k in mm ==> Within(k, low, HighOf(high))
    requires Fillable(p, DirtyItems(mini)) && !FullWithFences(p, Estimate(mini, |mini.slots|), maxFence)
    requires forall i :: 0 <= i < |DirtyItems(mini)| ==> p.prefixLen <= |DirtyItems(mini)[i].key|
    ensures var r := Fill(p, DirtyItems(mini), 0); r.ok && BasePage(r.page, low, high, Absorb(bm, mm)) && Reserve(r.page, maxFence)
  {
    MergeFits(p, mini, maxFence);
    FillKeepsFences(p, DirtyItems(mini), 0, low, high);
    MergedHolds(p, low, high, bm, mini, mm);
    AbsorbInRange(bm, mm, low, high);
  }

  lemma AbsorbInRange(bm: Recs, mm: Recs, low: Key, high: Key)
    requires forall k :: k in bm ==> Within(k, low, HighOf(high)) && bm[k].op.Dirty()
    requires forall k :: k in mm ==> Within(k, low, HighOf(high))
    ensures forall k :: k in Absorb(bm, mm) ==> Within(k, low, HighOf(high)) && Absorb(bm, mm)[k].op.Dirty()
  {
  }

  lemma DirtyLong(p: Image, items: seq<Item>)
    requires Laid(p) && Fillable(p, items)
    ensures forall i :: 0 <= i < |items| ==> p.prefixLen <= |items[i].key|
  {
    forall i | 0 <= i < |items| ensures p.prefixLen <= |items[i].key| { assert HasPrefix(p, items[i].key); }
  }

  lemma MergeFits(p: Image, mini: Image, maxFence: nat)
    requires Ok(p) && Accounted(p) && p.base && p.fenced && Ok(mini) && !mini.fenced && mini.prefixLen == 0
    requires forall i :: 0 <= i < |DirtyItems(mini)| ==> p.prefixLen <= |DirtyItems(mini)[i].key|
    requires !FullWithFences(p, Estimate(mini, |mini.slots|), maxFence)
    ensures var r := Fill(p, DirtyItems(mini), 0);
      r.ok && Accounted(r.page) && First(r.page) <= |r.page.slots| && Reserve(r.page, maxFence)
  {
    EstimateCovers(mini, |mini.slots|, p.prefixLen);
    FillFits(p, DirtyItems(mini), 0);
  }

  lemma MergedHolds(p: Image, low: Key, high: Key, bm: Recs, mini: Image, mm: Recs)
    requires BasePage(p, low, high, bm) && MiniPage(mini, mm) && forall k :: k in mm ==> Within(k, low, HighOf(high))
    requires Fillable(p, DirtyItems(mini)) && Fill(p, DirtyItems(mini), 0).ok
    requires HasFences(Fill(p, DirtyItems(mini), 0).page, low, high)
    ensures Holds(Fill(p, DirtyItems(mini), 0).page, Absorb(bm, mm))
  {
    var q := Fill(p, DirtyItems(mini), 0).page;
    PrefixShared(p, low, high);
    PrefixShared(q, low, high);
    forall k | k in Absorb(bm, mm) ensures HasPrefix(q, k) {
      KeysCarryPrefix(q, low, high, k);
    }
    forall k | HasPrefix(q, k) ensures Find(q, k[q.prefixLen..]) == Lookup(Absorb(bm, mm), k) {
      FillApplied(p, DirtyItems(mini), 0, k);
      DirtyApplied(mini, mm, bm, k);
    }
  }

  // ---- the fence reserve ---------------------------------------------------------------------------

  /** A client insert leaves the reserve exactly when it is not a duplicate whose value grew into it: that
      path checks only the free bytes. */
  lemma InsertKeepsReserve(p: Image, tail: Key, v: Value, op: Op, maxFence: nat)
    requires Ok(p) && p.fenced && Reserve(p, maxFence) && InsertInto(p, tail, v, op, maxFence).ok
    ensures var p' := InsertInto(p, tail, v, op, maxFence).page;
      First(p') <= |p'.slots| &&
      (Reserve(p', maxFence) <==>
        !(Hit(p, tail) && !op.Delete? && |v| > p.slots[LowerBound(p, tail)].valueLen &&
          p.remaining + FenceLens(p) < |tail| + |v| + maxFence))
  {
    var pos := LowerBound(p, tail);
    if !Hit(p, tail) && !op.Delete? && !FullWithFences(p, |tail| + |v| + SLOT, maxFence) {
      AddedFrame(p, pos, tail, v, op);
    }
  }

  predicate BreaksReserve(p: Image, tail: Key, v: Value, maxFence: nat) {
    && Ok(p) && p.fenced && Reserve(p, maxFence) && InsertInto(p, tail, v, Insert, maxFence).ok
    && var p' := InsertInto(p, tail, v, Insert, maxFence).page;
    First(p') <= |p'.slots| && !Reserve(p', maxFence)
  }

  /** The reserve can be lost: a 64-byte page, one record, its value grown from one byte to thirty. */
  lemma ReserveCanBreak()
    ensures exists p, v :: BreaksReserve(p, [1], v, 20)
  {
    var junk := seq(64, i => 0 as byte);
    var v := seq(30, i => 0 as byte);
    FencedOk(junk, [], [], true);
    var e := Fenced(junk, [], [], true);
    assert Find(e, [1]) == None && e.remaining == 48;
    InsertFinds(e, [1], [9], Insert, 20, [1]);
    InsertKeepsReserve(e, [1], [9], Insert, 20);
    var p := InsertInto(e, [1], [9], Insert, 20).page;
    assert Find(p, [1]) == Some(Rec(Insert, [9]));
    assert Hit(p, [1]) && p.remaining == 38 && FenceLens(p) == 0;
    var pos := LowerBound(p, [1]);
    assert ValueAt(p, pos) == [9];
    assert Placed(p, pos);
    assert p.slots[pos].valueLen == 1;
    InsertKeepsReserve(p, [1], v, Insert, 20);
    assert BreaksReserve(p, [1], v, 20);
  }
}
