/** When a merge that splits fits, exactly, for base pages with any prefix.

    The split key is chosen by the weight of whole keys, but a half stores its keys without the prefix its new
    fences share.  With an empty prefix the two agree well enough (`MergeSplitFits.HalfFits`); in general a half
    takes its records if and only if they fit as they are stored. */
module MergeSplitExact {
  import opened Bytes
  import opened TreeShape
  import opened LeafCache
  import opened LeafImage
  import opened LeafImageProof
  import opened LeafFill
  import opened LeafSplit
  import opened LeafMerge
  import opened MergeSplitKey
  import opened MergeSplitFits

  /** Records the page does not have. */
  predicate Absent(p: Image, items: seq<Item>)
    requires Ok(p)
  {
    && Fillable(p, items) && Distinct(items) && (forall i :: 0 <= i < |items| ==> items[i].op.Dirty())
    && forall i :: 0 <= i < |items| ==> Find(p, items[i].key[p.prefixLen..]) == None
  }

  ghost predicate Plain(p: Image) { Ok(p) && p.base && p.fenced && Accounted(p) }

  /** Room for `c` bytes of records, beside the reserve `f` when there are any. */
  predicate Fits(p: Image, c: int, f: nat)
    requires First(p) <= |p.slots|
  {
    c == 0 || (c <= p.remaining && c + f <= p.remaining + FenceLens(p))
  }

  lemma InsertExact(p: Image, x: Item, f: nat)
    requires Plain(p) && p.prefixLen <= |x.key| && Find(p, x.key[p.prefixLen..]) == None && x.op.Dirty()
    ensures var r := InsertInto(p, x.key[p.prefixLen..], x.value, x.op, f);
      && (r.ok <==> Fits(p, ItemCost(x, p.prefixLen, true), f))
      && (r.ok ==> r.page.remaining == p.remaining - ItemCost(x, p.prefixLen, true) && Plain(r.page) && SameFrame(p, r.page))
  {
    InsertFinds(p, x.key[p.prefixLen..], x.value, x.op, f, x.key[p.prefixLen..]);
    InsertAccounted(p, x.key[p.prefixLen..], x.value, x.op, f);
  }

  /** The last of a list of new records is still new when its turn comes. */
  lemma StillAbsent(p: Image, items: seq<Item>, f: nat)
    requires Ok(p) && Absent(p, items) && |items| > 0 && Fill(p, items[..|items| - 1], f).ok
    ensures Find(Fill(p, items[..|items| - 1], f).page, items[|items| - 1].key[p.prefixLen..]) == None
  {
    var front, x := items[..|items| - 1], items[|items| - 1];
    FillApplied(p, front, f, x.key);
    AppliedOnce(front, x.key, None, p.base, |front|);
  }

  /** A list of new records goes in if and only if their cost fits. */
  lemma {:induction false} FillExact(p: Image, items: seq<Item>, f: nat)
    requires Plain(p) && Absent(p, items)
    ensures var r, c := Fill(p, items, f), Cost(items, p.prefixLen, true);
      && (r.ok <==> Fits(p, c, f))
      && (r.ok ==> r.page.remaining == p.remaining - c && Plain(r.page) && SameFrame(p, r.page))
    decreases |items|
  {
    if items != [] {
      var front, x := items[..|items| - 1], items[|items| - 1];
      assert Absent(p, front);
      FillExact(p, front, f);
      CostNonNegative(front, p.prefixLen, true);
      var r := Fill(p, front, f);
      if r.ok {
        StillAbsent(p, items, f);
        InsertExact(r.page, x, f);
      }
    }
  }

  // ---- one half ------------------------------------------------------------------------------------

  /** What one half stores: its base records, and the mini records that go there. */
  ghost predicate SideFits(c: Split, left: bool, maxFence: nat)
    requires SplitOk(c, maxFence)
  {
    SplitShapes(c, left, maxFence);
    var lo, hi := Lo(c, left), Hi(c, left);
    var n := PrefixLen(lo, hi);
    var kept, dirty := Cost(Kept(c, left), n, true), Cost(DirtySide(c, left), n, true);
    && kept + 2 * SLOT + |lo| + |hi| <= |c.junk| + n
    && (dirty > 0 ==> kept + dirty + 2 * SLOT + maxFence <= |c.junk| + n)
  }

  lemma FreshPage(junk: seq<byte>, lo: Key, hi: Key)
    requires |lo| + |hi| + 2 * SLOT <= |junk| < INF_LOW
    ensures var p := Fenced(junk, lo, hi, true);
      && Plain(p) && p.prefixLen == PrefixLen(lo, hi) && (forall x :: Find(p, x) == None)
      && p.remaining == |junk| - 2 * SLOT - |lo| - |hi| + PrefixLen(lo, hi) && FenceLens(p) == |lo| + |hi|
  {
    FencedOk(junk, lo, hi, true);
    FencedAccounted(junk, lo, hi, true);
  }

  lemma NewIsAbsent(junk: seq<byte>, lo: Key, hi: Key, items: seq<Item>)
    requires |lo| + |hi| + 2 * SLOT <= |junk| < INF_LOW && Distinct(items)
    requires forall i :: 0 <= i < |items| ==> Within(items[i].key, lo, HighOf(hi)) && items[i].op.Dirty()
    ensures Ok(Fenced(junk, lo, hi, true)) && Absent(Fenced(junk, lo, hi, true), items)
  {
    FencedOk(junk, lo, hi, true);
    var p := Fenced(junk, lo, hi, true);
    forall i | 0 <= i < |items| ensures HasPrefix(p, items[i].key) { KeysCarryPrefix(p, lo, hi, items[i].key); }
  }

  /** The mini records of a half are not among the base records it kept: those were marked deleted. */
  lemma DirtyAbsent(c: Split, left: bool, maxFence: nat, h: Image)
    requires SplitOk(c, maxFence) && Ok(h) && HasFences(h, Lo(c, left), Hi(c, left)) && Holds(h, Part(Live(StayMap(c)), c.key, left))
    ensures Absent(h, DirtySide(c, left))
  {
    SplitDirty(c, left, maxFence);
    var items := DirtySide(c, left);
    SideOnlyDistinct(c, left);
    forall i | 0 <= i < |items| ensures HasPrefix(h, items[i].key) && Find(h, items[i].key[h.prefixLen..]) == None && items[i].op.Dirty() {
      KeysCarryPrefix(h, Lo(c, left), Hi(c, left), items[i].key);
      SideOnlyFrom(DirtyItems(c.mini), c.key, left, i);
      DirtyIsMarked(c, items[i]);
    }
  }

  lemma {:induction false} SideOnlyFrom(items: seq<Item>, key: Key, left: bool, i: nat)
    requires i < |SideOnly(items, key, left)|
    ensures exists j :: 0 <= j < |items| && items[j] == SideOnly(items, key, left)[i]
    decreases |items|
  {
    var front := items[..|items| - 1];
    if i < |SideOnly(front, key, left)| {
      SideOnlyFrom(front, key, left, i);
      var j :| 0 <= j < |front| && front[j] == SideOnly(front, key, left)[i];
      assert items[j] == SideOnly(items, key, left)[i];
    } else {
      assert items[|items| - 1] == SideOnly(items, key, left)[i];
    }
  }

  lemma DirtyIsMarked(c: Split, x: Item)
    requires Laid(c.mini) && !c.mini.fenced && exists j :: 0 <= j < |DirtyItems(c.mini)| && DirtyItems(c.mini)[j] == x
    ensures x.op.Dirty() && x.key !in Live(StayMap(c))
  {
    var j :| 0 <= j < |DirtyItems(c.mini)| && DirtyItems(c.mini)[j] == x;
    var i := CollectedFrom(c.mini, 0, |c.mini.slots|, DirtyOnly, j);
    MiniSizedHas(c.mini, |c.mini.slots|, i);
  }

  lemma SideOnlyDistinct(c: Split, left: bool)
    requires Ok(c.mini) && !c.mini.fenced
    ensures Distinct(DirtySide(c, left))
  {
    CollectedDistinct(c.mini, 0, |c.mini.slots|, DirtyOnly);
    DistinctPart(DirtyItems(c.mini), c.key, left);
  }

  lemma {:induction false} DistinctPart(items: seq<Item>, key: Key, left: bool)
    requires Distinct(items)
    ensures Distinct(SideOnly(items, key, left))
    decreases |items|
  {
    if items != [] {
      var front := items[..|items| - 1];
      DistinctPart(front, key, left);
      var l := SideOnly(front, key, left);
      forall i | 0 <= i < |l| ensures l[i].key != items[|items| - 1].key {
        SideOnlyFrom(front, key, left, i);
        var j :| 0 <= j < |front| && front[j] == l[i];
        assert items[j] == l[i];
      }
    }
  }

  /** Rebuilding a page, exactly. */
  lemma RebuiltExact(junk: seq<byte>, lo: Key, hi: Key, items: seq<Item>)
    requires |lo| + |hi| + 2 * SLOT <= |junk| < INF_LOW && Distinct(items)
    requires forall i :: 0 <= i < |items| ==> Within(items[i].key, lo, HighOf(hi)) && items[i].op.Dirty()
    ensures forall i :: 0 <= i < |items| ==> PrefixLen(lo, hi) <= |items[i].key|
    ensures var n, r := PrefixLen(lo, hi), Rebuilt(junk, lo, hi, true, items);
      && (r.ok <==> Cost(items, n, true) + 2 * SLOT + |lo| + |hi| <= |junk| + n)
      && (r.ok ==> Plain(r.page) && FenceLens(r.page) == |lo| + |hi| && r.page.prefixLen == n
                   && r.page.remaining == |junk| - 2 * SLOT - |lo| - |hi| + n - Cost(items, n, true))
  {
    KeysLong(lo, hi, items);
    NewIsAbsent(junk, lo, hi, items);
    FreshPage(junk, lo, hi);
    CostNonNegative(items, PrefixLen(lo, hi), true);
    FillExact(Fenced(junk, lo, hi, true), items, 0);
  }

  lemma DirtyExact(c: Split, left: bool, maxFence: nat, h: Image)
    requires SplitOk(c, maxFence) && Plain(h) && HasFences(h, Lo(c, left), Hi(c, left)) && Holds(h, Part(Live(StayMap(c)), c.key, left))
    ensures forall i :: 0 <= i < |DirtySide(c, left)| ==> h.prefixLen <= |DirtySide(c, left)[i].key|
    ensures Fill(h, DirtySide(c, left), maxFence).ok <==> Fits(h, Cost(DirtySide(c, left), h.prefixLen, true), maxFence)
  {
    DirtyAbsent(c, left, maxFence, h);
    FillExact(h, DirtySide(c, left), maxFence);
  }

  /** The base records of a side go in if and only if they fit, and leave the side's part of the map. */
  lemma KeptExact(c: Split, left: bool, maxFence: nat)
    requires SplitOk(c, maxFence)
    ensures Laid(MarkAll(c.p, c.dups)) && c.p.prefixLen <= |c.key| && SideLong(c, left)
    ensures var lo, hi := Lo(c, left), Hi(c, left);
      var n, r := PrefixLen(lo, hi), Rebuilt(c.junk, lo, hi, true, Kept(c, left));
      && (r.ok <==> Cost(Kept(c, left), n, true) + 2 * SLOT + |lo| + |hi| <= |c.junk| + n)
      && (r.ok ==> Plain(r.page) && FenceLens(r.page) == |lo| + |hi| && r.page.prefixLen == n && HasFences(r.page, lo, hi)
                   && r.page.remaining == |c.junk| - 2 * SLOT - |lo| - |hi| + n - Cost(Kept(c, left), n, true)
                   && Holds(r.page, Part(Live(StayMap(c)), c.key, left)))
  {
    var lo, hi := Lo(c, left), Hi(c, left);
    SplitShapes(c, left, maxFence);
    RebuiltExact(c.junk, lo, hi, Kept(c, left));
    if Rebuilt(c.junk, lo, hi, true, Kept(c, left)).ok {
      RebuiltHolds(c.junk, lo, hi, true, Kept(c, left), Part(Live(StayMap(c)), c.key, left));
    }
  }

  /** A half takes its base records and all its mini records if and only if they fit as it stores them. */
  lemma HalfExact(c: Split, left: bool, maxFence: nat)
    requires SplitOk(c, maxFence)
    ensures HalfOf(c, left, maxFence).ok <==> SideFits(c, left, maxFence)
  {
    KeptExact(c, left, maxFence);
    CostNonNegative(DirtySide(c, left), PrefixLen(Lo(c, left), Hi(c, left)), true);
    var r := Rebuilt(c.junk, Lo(c, left), Hi(c, left), true, Kept(c, left));
    if r.ok { DirtyExact(c, left, maxFence, r.page); }
  }

  /** Each half that takes its records reads, on its side, as the overlay did: the dirty mini record if there
      is one, else what the base page had. */
  lemma MergeSplitReads(c: Split, left: bool, maxFence: nat, k: Key)
    requires SplitOk(c, maxFence) && HalfOf(c, left, maxFence).ok && Within(k, Lo(c, left), HighOf(Hi(c, left)))
    ensures var r := HalfOf(c, left, maxFence).page;
      && Ok(r) && HasFences(r, Lo(c, left), Hi(c, left)) && HasPrefix(r, k)
      && ReadRec(Find(r, k[r.prefixLen..])) == if IsDirty(c.mm, k) then RecGet(c.mm, k) else RecGet(c.bm, k)
  {
    SplitDirty(c, left, maxFence);
    KeptExact(c, left, maxFence);
    var h := Rebuilt(c.junk, Lo(c, left), Hi(c, left), true, Kept(c, left)).page;
    FilledReads(c, left, maxFence, h, StayMap(c), k);
  }
}
