/** Merge and split as they run: loops over the slots of one page inserting into another. */
module LeafOps {
  import opened Bytes
  import opened TreeShape
  import opened LeafCache
  import opened LeafImage
  import opened LeafImageProof
  import opened LeafFill
  import opened LeafSplit
  import opened LeafMerge
  import opened LeafPage

  predicate Separate(a: LeafPage, b: LeafPage) { a != b && a.data != b.data }

  lemma FillNext(p: Image, items: seq<Item>, i: nat)
    requires Ok(p) && (forall t :: 0 <= t < |items| ==> p.prefixLen <= |items[t].key|) && i < |items|
    ensures var q := Fill(p, items[..i], 0);
      && Ok(q.page) && q.page.prefixLen == p.prefixLen
      && (q.ok ==> Fill(p, items[..i + 1], 0) == InsertInto(q.page, items[i].key[p.prefixLen..], items[i].value, items[i].op, 0))
  {
    assert items[..i + 1][..i] == items[..i];
  }

  lemma {:induction false} FillPrefixOk(p: Image, items: seq<Item>, i: nat)
    requires Ok(p) && (forall t :: 0 <= t < |items| ==> p.prefixLen <= |items[t].key|) && Fill(p, items, 0).ok && i <= |items|
    ensures Fill(p, items[..i], 0).ok
    decreases |items|
  {
    if i < |items| {
      FillPrefixOk(p, items[..|items| - 1], i);
      assert items[..|items| - 1][..i] == items[..i];
    } else {
      assert items[..i] == items;
    }
  }

  /** Insert a list of records; the assertion on each insert holds. */
  method InsertAll(page: LeafPage, items: seq<Item>)
    requires page.Valid() && forall t :: 0 <= t < |items| ==> page.prefixLen <= |items[t].key| && !items[t].op.Cache?
    requires Fill(page.View(), items, 0).ok
    modifies page, page.data
    ensures page.Valid() && page.View() == Fill(old(page.View()), items, 0).page
  {
    ghost var p := page.View();
    assert items[..0] == [];
    for i := 0 to |items|
      invariant page.Valid() && page.View() == Fill(p, items[..i], 0).page && Fill(p, items[..i], 0).ok
    {
      FillNext(p, items, i);
      FillPrefixOk(p, items, i + 1);
      var rt := page.InsertRecord(items[i].key, items[i].value, items[i].op, 0);
      assert rt;
    }
    assert items[..|items|] == items;
  }

  /** Collect the picked records of slots [a, b), as `consolidate_inner` and the merge loop do. */
  method Gather(page: LeafPage, a: nat, b: nat, w: Pick, prefix: Key) returns (items: seq<Item>)
    requires page.Valid() && First(page.View()) <= a <= b <= |page.slots| && prefix == Prefix(page.View())
    ensures items == Collected(page.View(), a, b, w)
  {
    items := [];
    for i := a to b
      invariant items == Collected(page.View(), a, i, w)
    {
      if Picks(w, page.slots[i].op) {
        var tail := page.KeyTail(i);
        var v := page.ValueOf(i);
        items := items + [Item(prefix + tail, v, PickedOp(w, page.slots[i].op))];
      }
    }
  }

  /** `estimate_merge_size`. */
  method EstimateOf(mini: LeafPage) returns (n: nat)
    ensures n == Estimate(mini.View(), |mini.slots|)
  {
    n := 0;
    for i := 0 to |mini.slots|
      invariant n == Estimate(mini.View(), i)
    {
      if mini.slots[i].op.Insert? { n := n + mini.slots[i].keyLen + mini.slots[i].valueLen + SLOT; }
    }
  }

  /** `merge_mini_page`: refused with the page untouched, or the page becomes the overlay. */
  method MergeMiniPage(page: LeafPage, mini: LeafPage, maxFence: nat, ghost low: Key, ghost high: Key, ghost bm: Recs, ghost mm: Recs)
    returns (ok: bool)
    requires BasePage(page.View(), low, high, bm) && MiniPage(mini.View(), mm) && Separate(page, mini)
    requires forall k :: k in mm ==> Within(k, low, HighOf(high))
    modifies page, page.data
    ensures !ok ==> page.View() == old(page.View())
    ensures ok ==> BasePage(page.View(), low, high, Absorb(bm, mm)) && Reserve(page.View(), maxFence)
    ensures ok <==> !FullWithFences(old(page.View()), InsertBytes(mm), maxFence)
  {
    var need := EstimateOf(mini);
    EstimateIsInserts(mini.View(), mm);
    if !page.HasRoom(need, maxFence) { return false; }
    MergeAllOrNothing(page.View(), low, high, bm, mini.View(), mm, maxFence);
    var items := Gather(mini, 0, |mini.slots|, DirtyOnly, []);
    DirtyOps(mini.View());
    InsertAll(page, items);
    ok := true;
  }

  lemma DirtyOps(mini: Image)
    requires Laid(mini) && !mini.fenced
    ensures forall t :: 0 <= t < |DirtyItems(mini)| ==> !DirtyItems(mini)[t].op.Cache?
  {
    forall t | 0 <= t < |DirtyItems(mini)| ensures !DirtyItems(mini)[t].op.Cache? {
      var i := CollectedFrom(mini, 0, |mini.slots|, DirtyOnly, t);
    }
  }

  /** Initialize a page with new fences and put the records in. */
  method RebuildInto(page: LeafPage, low: Key, high: Key, items: seq<Item>)
    requires |low| + |high| + 2 * SLOT <= page.data.Length < INF_LOW
    requires forall t :: 0 <= t < |items| ==> PrefixLen(low, high) <= |items[t].key| && !items[t].op.Cache?
    requires Rebuilt(page.data[..], low, high, true, items).ok
    modifies page, page.data
    ensures page.Valid() && page.View() == Rebuilt(old(page.data[..]), low, high, true, items).page
  {
    FencedOk(page.data[..], low, high, true);
    page.Initialize(low, high, true);
    InsertAll(page, items);
  }

  /** The facts about one side that the split needs. */
  lemma SideFacts(p: Image, junk: seq<byte>, low: Key, high: Key, m: Recs, key: Key, left: bool, maxFence: nat)
    requires BasePage(p, low, high, m) && Reserve(p, maxFence) && |junk| == |p.bytes|
    requires Le(low, key) && key != [] && (high != [] ==> Lt(key, high))
    requires |low| + |key| <= maxFence && |key| + |high| <= maxFence && maxFence + 2 * SLOT <= |p.bytes|
    ensures p.prefixLen <= |key|
    ensures var lo, hi, items := if left then low else key, if left then key else high, SideItems(p, key, left);
      && (forall t :: 0 <= t < |items| ==> PrefixLen(lo, hi) <= |items[t].key| && !items[t].op.Cache?)
      && var r := Rebuilt(junk, lo, hi, true, items);
      r.ok && Ok(r.page) && HasFences(r.page, lo, hi) && Holds(r.page, Part(Live(m), key, left))
  {
    SplitPreserves(p, junk, low, high, m, key, left, maxFence);
    KeysCarryPrefix(p, low, high, key);
    SideSpells(p, low, high, m, key, left);
  }

  /** When a page may be split at `key`: the fence reserve holds, and the new fences are no longer than it. */
  ghost predicate CanSplitAt(p: Image, low: Key, high: Key, m: Recs, key: Key, maxFence: nat) {
    && BasePage(p, low, high, m) && Reserve(p, maxFence)
    && Le(low, key) && key != [] && (high != [] ==> Lt(key, high))
    && |low| + |key| <= maxFence && |key| + |high| <= maxFence && maxFence + 2 * SLOT <= |p.bytes|
  }

  /** What each side of a split becomes. */
  ghost function SplitSide(p: Image, junk: seq<byte>, low: Key, high: Key, m: Recs, key: Key, left: bool, maxFence: nat): (r: Image)
    requires CanSplitAt(p, low, high, m, key, maxFence) && |junk| == |p.bytes|
    ensures Ok(r) && HasFences(r, if left then low else key, if left then key else high) && Holds(r, Part(Live(m), key, left))
  {
    SideFacts(p, junk, low, high, m, key, left, maxFence);
    SideOf(p, junk, low, high, key, left).page
  }

  /** The records from the split key on, copied to the sibling. */
  method MoveRight(page: LeafPage, sibling: LeafPage, low: Key, high: Key, key: Key, ghost m: Recs, ghost maxFence: nat)
    requires CanSplitAt(page.View(), low, high, m, key, maxFence)
    requires Separate(page, sibling) && sibling.data.Length == page.data.Length
    modifies sibling, sibling.data
    ensures sibling.Valid() && sibling.View() == SplitSide(page.View(), old(sibling.data[..]), low, high, m, key, false, maxFence)
  {
    SideFacts(page.View(), sibling.data[..], low, high, m, key, false, maxFence);
    PrefixShared(page.View(), low, high);
    var cut := page.LowerBoundOf(key);
    var right := Gather(page, cut, |page.slots|, LiveOnly, low[..page.prefixLen]);
    RebuildInto(sibling, key, high, right);
  }

  /** The records below the split key, consolidated under the new high fence. */
  method KeepLeft(page: LeafPage, low: Key, high: Key, key: Key, ghost m: Recs, ghost maxFence: nat)
    requires CanSplitAt(page.View(), low, high, m, key, maxFence)
    modifies page, page.data
    ensures page.Valid() && page.View() == SplitSide(old(page.View()), old(page.data[..]), low, high, m, key, true, maxFence)
  {
    SideFacts(page.View(), page.data[..], low, high, m, key, true, maxFence);
    PrefixShared(page.View(), low, high);
    var cut := page.LowerBoundOf(key);
    var left := Gather(page, First(page.View()), cut, LiveOnly, low[..page.prefixLen]);
    RebuildInto(page, low, key, left);
  }

  /** `split_with_key`. */
  method SplitWithKey(page: LeafPage, sibling: LeafPage, low: Key, high: Key, key: Key, ghost m: Recs, ghost maxFence: nat)
    requires CanSplitAt(page.View(), low, high, m, key, maxFence)
    requires Separate(page, sibling) && sibling.data.Length == page.data.Length
    modifies page, page.data, sibling, sibling.data
    ensures page.Valid() && HasFences(page.View(), low, key) && Holds(page.View(), Part(Live(m), key, true))
    ensures sibling.Valid() && HasFences(sibling.View(), key, high) && Holds(sibling.View(), Part(Live(m), key, false))
    ensures page.View() == SplitSide(old(page.View()), old(page.data[..]), low, high, m, key, true, maxFence)
    ensures sibling.View() == SplitSide(old(page.View()), old(sibling.data[..]), low, high, m, key, false, maxFence)
  {
    MoveRight(page, sibling, low, high, key, m, maxFence);
    KeepLeft(page, low, high, key, m, maxFence);
  }
}
