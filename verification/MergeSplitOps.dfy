/** The merge that splits, as it runs: weigh both pages, choose the split key, mark the base records that are
    replaced, split the base page, and insert every dirty mini record into its half. */
module MergeSplitOps {
  import opened Bytes
  import opened TreeShape
  import opened LeafCache
  import opened LeafImage
  import opened LeafImageProof
  import opened LeafFill
  import opened LeafSplit
  import opened LeafMerge
  import opened LeafPage
  import opened LeafOps
  import opened MergeSplitKey
  import opened MergeSplitFits
  import opened MergeSplitExact

  // ---- what the mini page weighs -------------------------------------------------------------------

  lemma {:induction false} MiniWeight(p: Image, b: nat)
    requires Laid(p) && !p.fenced && p.prefixLen == 0 && b <= |p.slots|
    ensures Weight(MiniSized(p, b), Inf) <= Sum(p.slots[0..b], 0) + SLOT * b
  {
    if b > 0 {
      MiniWeight(p, b - 1);
      SumLast(p.slots, 0, b, 0);
      assert Placed(p, b - 1);
      var x := Sized(Full(p, b - 1), SizeAt(p, b - 1));
      WeightSplit(MiniSized(p, b - 1), if p.slots[b - 1].op.Dirty() then [x] else [], Inf);
      WeightCons(x, [], Inf);
      assert [x] + [] == [x];
    } else {
      assert p.slots[0..b] == [];
    }
  }

  /** The dirty records of a mini page weigh no more than the page has bytes. */
  lemma MiniIsLight(mini: Image, mm: Recs)
    requires MiniPage(mini, mm) && Accounted(mini)
    ensures Weight(MiniSized(mini, |mini.slots|), Inf) <= |mini.bytes|
  {
    MiniWeight(mini, |mini.slots|);
    assert mini.slots[0..|mini.slots|] == mini.slots[First(mini)..];
  }

  // ---- the pieces ----------------------------------------------------------------------------------

  method BaseSizes(page: LeafPage, prefix: Key) returns (l: seq<Sized>)
    requires page.Valid() && prefix == Prefix(page.View()) && First(page.View()) <= |page.slots|
    ensures l == BaseSized(page.View(), |page.slots|)
  {
    l := [];
    for i := First(page.View()) to |page.slots|
      invariant l == BaseSized(page.View(), i)
    {
      var tail := page.KeyTail(i);
      l := l + [Sized(prefix + tail, page.slots[i].keyLen + page.slots[i].valueLen + SLOT)];
    }
  }

  method DirtySizes(mini: LeafPage) returns (l: seq<Sized>)
    requires mini.Valid() && !mini.fenced && mini.prefixLen == 0
    ensures l == MiniSized(mini.View(), |mini.slots|)
  {
    l := [];
    for i := 0 to |mini.slots|
      invariant l == MiniSized(mini.View(), i)
    {
      if mini.slots[i].op.Dirty() {
        var tail := mini.KeyTail(i);
        l := l + [Sized([] + tail, mini.slots[i].keyLen + mini.slots[i].valueLen + SLOT)];
      }
    }
  }

  method MarkReplaced(page: LeafPage, dups: set<nat>)
    modifies page`slots
    ensures page.View() == MarkAll(old(page.View()), dups)
  {
    for i := 0 to |page.slots|
      invariant |page.slots| == |old(page.slots)|
      invariant forall j :: 0 <= j < |page.slots| ==>
        page.slots[j] == if j < i && j in dups then old(page.slots)[j].(op := Delete) else old(page.slots)[j]
    {
      if i in dups { page.slots := page.slots[i := page.slots[i].(op := Delete)]; }
    }
  }

  /** Places in the list of base records, as slots. */
  function AsSlots(p: Image, places: set<nat>): set<nat> { set i | First(p) <= i < |p.slots| && PlaceOf(p, i) in places }

  function PlaceOf(p: Image, i: int): int { i - First(p) }

  lemma ReplacedAreDups(p: Image, ms: seq<Sized>, places: set<nat>)
    requires Ok(p) && Replaced(BaseSized(p, |p.slots|), ms, |BaseSized(p, |p.slots|)|, places)
    ensures AreDups(p, Keys(ms), AsSlots(p, places))
  {
    var base := BaseSized(p, |p.slots|);
    BaseSizedLen(p, |p.slots|);
    forall i: nat ensures i in AsSlots(p, places) <==> First(p) <= i < |p.slots| && Full(p, i) in Keys(ms) {
      if First(p) <= i < |p.slots| {
        BaseSizedAt(p, |p.slots|, i - First(p));
      }
    }
  }

  // ---- every mini record into its half -------------------------------------------------------------

  predicate Filling(h: Image, items: seq<Item>) {
    Ok(h) && forall i :: 0 <= i < |items| ==> h.prefixLen <= |items[i].key| && !items[i].op.Cache?
  }

  /** `q` is `h` after a list of inserts, all of which went in. */
  predicate After(h: Image, items: seq<Item>, f: nat, q: Image) {
    Filling(h, items) && Fill(h, items, f) == Outcome(q, true)
  }

  lemma OneMore(h: Image, l: seq<Item>, x: Item, f: nat)
    requires Filling(h, l + [x])
    ensures Filling(h, l) && h.prefixLen <= |x.key| && !x.op.Cache?
    ensures Fill(h, l + [x], f).ok ==> Fill(h, l, f).ok
    ensures Fill(h, l, f).ok ==> Fill(h, l + [x], f) == InsertInto(Fill(h, l, f).page, x.key[h.prefixLen..], x.value, x.op, f)
  {
    var l' := l + [x];
    assert l'[..|l'| - 1] == l && l'[|l'| - 1] == x;
    assert forall i :: 0 <= i < |l| ==> l[i] == l'[i];
  }

  /** A side after `t` records. */
  function Side(items: seq<Item>, t: nat, key: Key, left: bool): seq<Item>
    requires t <= |items|
  {
    SideOnly(items[..t], key, left)
  }

  lemma SideStep(items: seq<Item>, t: nat, key: Key, left: bool)
    requires t < |items|
    ensures Side(items, t + 1, key, left) == Side(items, t, key, left) + if Lt(items[t].key, key) == left then [items[t]] else []
  {
    assert items[..t + 1] == items[..t] + [items[t]];
    SideOnlyStep(items[..t], items[t], key, left);
  }

  /** Inserts that all go in went in up to any point. */
  lemma {:induction false} SideGoesIn(h: Image, items: seq<Item>, t: nat, key: Key, left: bool, f: nat)
    requires t <= |items| && Filling(h, SideOnly(items, key, left))
    ensures Filling(h, Side(items, t, key, left))
    ensures Fill(h, SideOnly(items, key, left), f).ok ==> Fill(h, Side(items, t, key, left), f).ok
    decreases |items| - t
  {
    if t < |items| {
      SideGoesIn(h, items, t + 1, key, left, f);
      SideStep(items, t, key, left);
      if Lt(items[t].key, key) == left {
        OneMore(h, Side(items, t, key, left), items[t], f);
      } else {
        assert Side(items, t, key, left) + [] == Side(items, t, key, left);
      }
    } else {
      assert items[..t] == items;
    }
  }

  lemma SideSkips(h: Image, items: seq<Item>, t: nat, key: Key, left: bool, f: nat, q: Image)
    requires t < |items| && After(h, Side(items, t, key, left), f, q) && Lt(items[t].key, key) != left
    ensures After(h, Side(items, t + 1, key, left), f, q)
  {
    SideStep(items, t, key, left);
    assert Side(items, t, key, left) + [] == Side(items, t, key, left);
  }

  method Place(page: LeafPage, items: seq<Item>, t: nat, key: Key, left: bool, maxFence: nat, ghost h: Image) returns (ok: bool)
    requires page.Valid() && t < |items| && Lt(items[t].key, key) == left
    requires After(h, Side(items, t, key, left), maxFence, page.View()) && Filling(h, Side(items, t + 1, key, left))
    modifies page, page.data
    ensures page.Valid() && (ok <==> Fill(h, Side(items, t + 1, key, left), maxFence).ok)
    ensures ok ==> After(h, Side(items, t + 1, key, left), maxFence, page.View())
  {
    SideStep(items, t, key, left);
    OneMore(h, Side(items, t, key, left), items[t], maxFence);
    ok := page.InsertRecord(items[t].key, items[t].value, items[t].op, maxFence);
  }

  /** A half after `t` records. */
  predicate Halfway(l: Image, q: Image, items: seq<Item>, t: nat, key: Key, left: bool, f: nat)
    requires t <= |items|
  {
    Filling(l, SideOnly(items, key, left)) && After(l, Side(items, t, key, left), f, q)
  }

  predicate AllGoIn(l: Image, items: seq<Item>, key: Key, left: bool, f: nat)
    requires Filling(l, SideOnly(items, key, left))
  {
    Fill(l, SideOnly(items, key, left), f).ok
  }

  /** One turn of the merge loop: the record goes to its side.  The source asserts that it went in. */
  method PlaceNext(page: LeafPage, sibling: LeafPage, items: seq<Item>, t: nat, key: Key, f: nat, ghost l: Image, ghost r: Image)
    returns (ok: bool)
    requires page.Valid() && sibling.Valid() && Separate(page, sibling) && t < |items|
    requires Halfway(l, page.View(), items, t, key, true, f) && Halfway(r, sibling.View(), items, t, key, false, f)
    modifies page, page.data, sibling, sibling.data
    ensures page.Valid() && sibling.Valid()
    ensures ok ==> Halfway(l, page.View(), items, t + 1, key, true, f) && Halfway(r, sibling.View(), items, t + 1, key, false, f)
    ensures !ok ==> !AllGoIn(l, items, key, true, f) || !AllGoIn(r, items, key, false, f)
  {
    if Lt(items[t].key, key) {
      SideSkips(r, items, t, key, false, f, sibling.View());
      SideGoesIn(l, items, t + 1, key, true, f);
      ok := Place(page, items, t, key, true, f, l);
    } else {
      SideSkips(l, items, t, key, true, f, page.View());
      SideGoesIn(r, items, t + 1, key, false, f);
      ok := Place(sibling, items, t, key, false, f, r);
    }
  }

  lemma HalfwayEnds(l: Image, q: Image, items: seq<Item>, key: Key, left: bool, f: nat)
    requires Filling(l, SideOnly(items, key, left))
    ensures Halfway(l, l, items, 0, key, left, f)
    ensures Halfway(l, q, items, |items|, key, left, f) ==> After(l, SideOnly(items, key, left), f, q)
  {
    assert items[..|items|] == items && items[..0] == [];
  }

  /** The merge loop, up to the first insert that is refused, where the source panics. */
  method Distribute(page: LeafPage, sibling: LeafPage, items: seq<Item>, key: Key, maxFence: nat) returns (ok: bool)
    requires page.Valid() && sibling.Valid() && Separate(page, sibling)
    requires Filling(page.View(), SideOnly(items, key, true)) && Filling(sibling.View(), SideOnly(items, key, false))
    modifies page, page.data, sibling, sibling.data
    ensures page.Valid() && sibling.Valid()
    ensures ok <==> AllGoIn(old(page.View()), items, key, true, maxFence) && AllGoIn(old(sibling.View()), items, key, false, maxFence)
    ensures ok ==> After(old(page.View()), SideOnly(items, key, true), maxFence, page.View())
    ensures ok ==> After(old(sibling.View()), SideOnly(items, key, false), maxFence, sibling.View())
  {
    ghost var l, r := page.View(), sibling.View();
    HalfwayEnds(l, l, items, key, true, maxFence);
    HalfwayEnds(r, r, items, key, false, maxFence);
    for t := 0 to |items|
      invariant page.Valid() && Halfway(l, page.View(), items, t, key, true, maxFence)
      invariant sibling.Valid() && Halfway(r, sibling.View(), items, t, key, false, maxFence)
    {
      ok := PlaceNext(page, sibling, items, t, key, maxFence, l, r);
      if !ok { return; }
    }
    HalfwayEnds(l, page.View(), items, key, true, maxFence);
    HalfwayEnds(r, sibling.View(), items, key, false, maxFence);
    ok := true;
  }

  // ---- the whole step ------------------------------------------------------------------------------

  /** The records of both pages in key order, a mini record replacing its base record. */
  function Merged(p: Image, mini: Image): seq<Sized>
    requires Laid(p) && First(p) <= |p.slots| && Laid(mini) && !mini.fenced
  {
    MergedOrder(BaseSized(p, |p.slots|), MiniSized(mini, |mini.slots|))
  }

  /** What the step needs: a base page that honours the fence reserve, a mini page from a size class that leaves
      the gap `CreateSizeClasses` promises, no key longer than half the fence reserve, no record above the
      largest, two distinct keys, and sizes that 16-bit differences can tell. */
  ghost predicate CanMergeSplit(p: Image, low: Key, high: Key, bm: Recs, mini: Image, mm: Recs, maxFence: nat, maxRecord: nat) {
    && BasePage(p, low, high, bm) && Reserve(p, maxFence)
    && MiniPage(mini, mm) && Accounted(mini) && (forall k :: k in mm ==> Within(k, low, HighOf(high)))
    && |mini.bytes| + maxRecord + maxFence + 2 * SLOT <= |p.bytes|
    && 2 * |low| <= maxFence && 2 * |high| <= maxFence
    && |Merged(p, mini)| >= 2 && Total(Merged(p, mini)) < 32768 && Within1(Merged(p, mini), maxRecord)
    && forall i :: 0 <= i < |Merged(p, mini)| ==> 2 * |Merged(p, mini)[i].key| <= maxFence
  }

  /** A page with fences `lo` and `hi` that reads there as the overlay of the two pages did. */
  ghost predicate ReadsAs(r: Image, lo: Key, hi: Key, bm: Recs, mm: Recs) {
    && Ok(r) && HasFences(r, lo, hi)
    && forall k :: Within(k, lo, HighOf(hi)) ==>
      HasPrefix(r, k) && ReadRec(Find(r, k[r.prefixLen..])) == if IsDirty(mm, k) then RecGet(mm, k) else RecGet(bm, k)
  }

  /** What weighing the pages settles: the key that splits the merged order most evenly, neither side too heavy,
      and the base slots that the mini page replaces. */
  ghost predicate Chosen(p: Image, mini: Image, key: Key, dups: set<nat>, maxRecord: nat)
    requires Laid(p) && First(p) <= |p.slots| && Laid(mini) && !mini.fenced
  {
    && (exists at :: Choice(Merged(p, mini), at, key))
    && AreDups(p, Keys(MiniSized(mini, |mini.slots|)), dups) && EvenKey(p, mini, key, maxRecord)
  }

  /** The split under way: what the steps below need. */
  ghost predicate Picked(c: Split, maxFence: nat) {
    SplitOk(c, maxFence) && CanSplitAt(MarkAll(c.p, c.dups), c.low, c.high, StayMap(c), c.key, maxFence)
  }

  lemma MarkedSplits(c: Split, maxFence: nat)
    requires SplitOk(c, maxFence) && Reserve(c.p, maxFence)
    ensures CanSplitAt(MarkAll(c.p, c.dups), c.low, c.high, StayMap(c), c.key, maxFence)
  {
    SplitBase(c, maxFence);
    var q := MarkAll(c.p, c.dups);
    assert q.slots[0].keyLen == c.p.slots[0].keyLen && q.slots[1].keyLen == c.p.slots[1].keyLen;
  }

  /** The chosen key lies between the fences, and is no longer than they may be. */
  lemma ChosenBetween(p: Image, low: Key, high: Key, bm: Recs, mini: Image, mm: Recs, key: Key, maxFence: nat, maxRecord: nat)
    requires CanMergeSplit(p, low, high, bm, mini, mm, maxFence, maxRecord) && exists at :: Choice(Merged(p, mini), at, key)
    ensures Lt(low, key) && (high != [] ==> Lt(key, high)) && 2 * |key| <= maxFence
  {
    var at :| Choice(Merged(p, mini), at, key);
    ChosenKeyBetween(p, low, high, bm, mini, mm, at);
  }

  lemma ChosenFits(c: Split, maxFence: nat, maxRecord: nat)
    requires CanMergeSplit(c.p, c.low, c.high, c.bm, c.mini, c.mm, maxFence, maxRecord) && |c.junk| == |c.p.bytes|
    requires Chosen(c.p, c.mini, c.key, c.dups, maxRecord)
    ensures Picked(c, maxFence)
  {
    ChosenBetween(c.p, c.low, c.high, c.bm, c.mini, c.mm, c.key, maxFence, maxRecord);
    assert SplitOk(c, maxFence);
    MarkedSplits(c, maxFence);
  }

  /** With an empty prefix the chosen key always fits. */
  lemma PlainFits(c: Split, left: bool, maxFence: nat, maxRecord: nat)
    requires CanMergeSplit(c.p, c.low, c.high, c.bm, c.mini, c.mm, maxFence, maxRecord) && c.p.prefixLen == 0
    requires SplitOk(c, maxFence) && EvenKey(c.p, c.mini, c.key, maxRecord)
    ensures SideFits(c, left, maxFence)
  {
    MiniIsLight(c.mini, c.mm);
    HalfFits(c, left, maxFence, maxRecord);
    HalfExact(c, left, maxFence);
  }

  /** A side of the split, before its mini records go in. */
  ghost function Bare(c: Split, left: bool, maxFence: nat): Image
    requires Picked(c, maxFence)
  {
    SplitSide(MarkAll(c.p, c.dups), c.junk, c.low, c.high, StayMap(c), c.key, left, maxFence)
  }

  /** Filling a side with its mini records makes the half. */
  lemma HalfIsFilled(c: Split, left: bool, maxFence: nat)
    requires Picked(c, maxFence)
    ensures Filling(Bare(c, left, maxFence), DirtySide(c, left))
    ensures Fill(Bare(c, left, maxFence), DirtySide(c, left), maxFence) == HalfOf(c, left, maxFence)
  {
    SplitShapes(c, left, maxFence);
    SideFacts(MarkAll(c.p, c.dups), c.junk, c.low, c.high, StayMap(c), c.key, left, maxFence);
    DirtyOps(c.mini);
    SideOnlyOps(DirtyItems(c.mini), c.key, left);
  }

  lemma {:induction false} SideOnlyOps(items: seq<Item>, key: Key, left: bool)
    requires forall i :: 0 <= i < |items| ==> !items[i].op.Cache?
    ensures forall i :: 0 <= i < |SideOnly(items, key, left)| ==> !SideOnly(items, key, left)[i].op.Cache?
    decreases |items|
  {
    if items != [] { SideOnlyOps(items[..|items| - 1], key, left); }
  }

  lemma HalfReadsAs(c: Split, left: bool, maxFence: nat)
    requires SplitOk(c, maxFence) && HalfOf(c, left, maxFence).ok
    ensures ReadsAs(HalfOf(c, left, maxFence).page, Lo(c, left), Hi(c, left), c.bm, c.mm)
  {
    LtTotal(c.low, c.key);
    LtTotal(Lo(c, left), Lo(c, left));
    MergeSplitReads(c, left, maxFence, Lo(c, left));
    forall k | Within(k, Lo(c, left), HighOf(Hi(c, left)))
      ensures HasPrefix(HalfOf(c, left, maxFence).page, k)
      ensures var r := HalfOf(c, left, maxFence).page;
        ReadRec(Find(r, k[r.prefixLen..])) == if IsDirty(c.mm, k) then RecGet(c.mm, k) else RecGet(c.bm, k)
    {
      MergeSplitReads(c, left, maxFence, k);
    }
  }

  method Weigh(page: LeafPage, mini: LeafPage, prefix: Key, ghost maxRecord: nat) returns (key: Key, dups: set<nat>)
    requires page.Valid() && prefix == Prefix(page.View()) && First(page.View()) <= |page.slots|
    requires mini.Valid() && !mini.fenced && mini.prefixLen == 0
    requires var l := Merged(page.View(), mini.View()); |l| >= 2 && Total(l) < 32768 && Within1(l, maxRecord)
    ensures Chosen(page.View(), mini.View(), key, dups, maxRecord)
  {
    BaseRising(page.View(), |page.slots|);
    MiniRising(mini.View(), |mini.slots|);
    var base := BaseSizes(page, prefix);
    var dirty := DirtySizes(mini);
    var places;
    key, places := GetMergeSplitKey(base, dirty, maxRecord);
    ReplacedAreDups(page.View(), dirty, places);
    dups := AsSlots(page.View(), places);
  }

  /** `get_merge_split_key` on the pages themselves: the replaced base records end up marked. */
  method Choose(page: LeafPage, mini: LeafPage, low: Key, ghost high: Key, ghost maxRecord: nat) returns (key: Key, ghost dups: set<nat>)
    requires page.Valid() && HasFences(page.View(), low, high) && mini.Valid() && !mini.fenced && mini.prefixLen == 0 && Separate(page, mini)
    requires var l := Merged(page.View(), mini.View()); |l| >= 2 && Total(l) < 32768 && Within1(l, maxRecord)
    modifies page`slots
    ensures page.View() == MarkAll(old(page.View()), dups)
    ensures Chosen(old(page.View()), mini.View(), key, dups, maxRecord)
  {
    PrefixShared(page.View(), low, high);
    var replaced;
    key, replaced := Weigh(page, mini, low[..page.prefixLen], maxRecord);
    dups := replaced;
    MarkReplaced(page, replaced);
  }

  method ChooseForMerge(page: LeafPage, mini: LeafPage, low: Key, ghost high: Key, ghost maxFence: nat,
                        ghost bm: Recs, ghost mm: Recs, ghost maxRecord: nat, ghost junk: seq<byte>)
    returns (key: Key, ghost l: Split)
    requires CanMergeSplit(page.View(), low, high, bm, mini.View(), mm, maxFence, maxRecord) && Separate(page, mini)
    requires |junk| == page.data.Length
    modifies page`slots
    ensures l == Split(old(page.View()), low, high, bm, mini.View(), mm, l.dups, key, old(page.View()).bytes)
    ensures Chosen(l.p, l.mini, key, l.dups, maxRecord)
    ensures Picked(l, maxFence) && Picked(l.(junk := junk), maxFence)
    ensures page.View() == MarkAll(l.p, l.dups)
  {
    ghost var p := page.View();
    ghost var dups;
    key, dups := Choose(page, mini, low, high, maxRecord);
    l := Split(p, low, high, bm, mini.View(), mm, dups, key, p.bytes);
    ChosenFits(l, maxFence, maxRecord);
    ChosenFits(l.(junk := junk), maxFence, maxRecord);
  }

  /** `split_with_key` on the marked page: the two sides before any mini record goes in. */
  method SplitMarked(page: LeafPage, sibling: LeafPage, low: Key, high: Key, key: Key, ghost l: Split, ghost r: Split, ghost maxFence: nat)
    requires Picked(l, maxFence) && Picked(r, maxFence) && low == l.low && high == l.high && key == l.key
    requires page.View() == MarkAll(l.p, l.dups) && l.junk == page.data[..] && r == l.(junk := sibling.data[..])
    requires Separate(page, sibling) && sibling.data.Length == page.data.Length
    modifies page, page.data, sibling, sibling.data
    ensures page.Valid() && page.View() == Bare(l, true, maxFence)
    ensures sibling.Valid() && sibling.View() == Bare(r, false, maxFence)
  {
    SplitWithKey(page, sibling, low, high, key, StayMap(l), maxFence);
  }

  /** Room in a half does not depend on what its page held before. */
  lemma SameRoom(c: Split, junk: seq<byte>, left: bool, maxFence: nat)
    requires SplitOk(c, maxFence) && |junk| == |c.junk|
    ensures SplitOk(c.(junk := junk), maxFence) && (SideFits(c.(junk := junk), left, maxFence) <==> SideFits(c, left, maxFence))
  {
  }

  method FillBoth(page: LeafPage, mini: LeafPage, sibling: LeafPage, key: Key, f: nat) returns (ok: bool)
    requires page.Valid() && sibling.Valid() && mini.Valid() && !mini.fenced && mini.prefixLen == 0
    requires Separate(page, mini) && Separate(page, sibling) && Separate(mini, sibling)
    requires Filling(page.View(), SideOnly(DirtyItems(mini.View()), key, true))
    requires Filling(sibling.View(), SideOnly(DirtyItems(mini.View()), key, false))
    modifies page, page.data, sibling, sibling.data
    ensures page.Valid() && sibling.Valid()
    ensures var items := DirtyItems(old(mini.View()));
      && (ok <==> AllGoIn(old(page.View()), items, key, true, f) && AllGoIn(old(sibling.View()), items, key, false, f))
      && (ok ==> page.View() == Fill(old(page.View()), SideOnly(items, key, true), f).page
                 && sibling.View() == Fill(old(sibling.View()), SideOnly(items, key, false), f).page)
  {
    var items := Gather(mini, 0, |mini.slots|, DirtyOnly, []);
    ok := Distribute(page, sibling, items, key, f);
  }

  /** Splitting the marked page and sending every mini record to its half. */
  method SplitAndFill(page: LeafPage, mini: LeafPage, sibling: LeafPage, low: Key, high: Key, key: Key, maxFence: nat, ghost l: Split, ghost r: Split)
    returns (ok: bool)
    requires Picked(l, maxFence) && Picked(r, maxFence) && low == l.low && high == l.high && key == l.key
    requires page.View() == MarkAll(l.p, l.dups) && l.junk == page.data[..] && r == l.(junk := sibling.data[..]) && mini.View() == l.mini
    requires Separate(page, mini) && Separate(page, sibling) && Separate(mini, sibling) && sibling.data.Length == page.data.Length
    modifies page, page.data, sibling, sibling.data
    ensures page.Valid() && sibling.Valid()
    ensures ok <==> HalfOf(l, true, maxFence).ok && HalfOf(r, false, maxFence).ok
    ensures ok ==> page.View() == HalfOf(l, true, maxFence).page && sibling.View() == HalfOf(r, false, maxFence).page
  {
    SplitMarked(page, sibling, low, high, key, l, r, maxFence);
    HalfIsFilled(l, true, maxFence);
    HalfIsFilled(r, false, maxFence);
    ok := FillBoth(page, mini, sibling, key, maxFence);
  }

  /** Both halves go well if and only if both have room. */
  lemma BothExact(c: Split, r: Split, maxFence: nat)
    requires SplitOk(c, maxFence) && SplitOk(r, maxFence) && r == c.(junk := r.junk)
    ensures HalfOf(c, true, maxFence).ok && HalfOf(r, false, maxFence).ok <==> SideFits(c, true, maxFence) && SideFits(c, false, maxFence)
  {
    HalfExact(c, true, maxFence);
    HalfExact(r, false, maxFence);
    SameRoom(c, r.junk, false, maxFence);
  }

  /** The step after `merge_mini_page` has refused.  With the most even key, every insert goes in if and only if
      both halves have room for what they are to store, as they always do when the base page has no prefix;
      both then lie between their new fences and read there as the mini page over the base page did. */
  method MergeSplit(page: LeafPage, mini: LeafPage, sibling: LeafPage, low: Key, high: Key, maxFence: nat,
                    ghost bm: Recs, ghost mm: Recs, ghost maxRecord: nat)
    returns (ok: bool, key: Key, ghost c: Split)
    requires CanMergeSplit(page.View(), low, high, bm, mini.View(), mm, maxFence, maxRecord)
    requires Separate(page, mini) && Separate(page, sibling) && Separate(mini, sibling) && sibling.data.Length == page.data.Length
    modifies page, page.data, sibling, sibling.data
    ensures c == Split(old(page.View()), low, high, bm, mini.View(), mm, c.dups, key, old(page.View()).bytes)
    ensures SplitOk(c, maxFence) && exists at :: Choice(Merged(c.p, c.mini), at, key)
    ensures ok <==> SideFits(c, true, maxFence) && SideFits(c, false, maxFence)
    ensures c.p.prefixLen == 0 ==> ok
    ensures ok ==> page.Valid() && ReadsAs(page.View(), low, key, bm, mm)
    ensures ok ==> sibling.Valid() && ReadsAs(sibling.View(), key, high, bm, mm)
  {
    ghost var junk := sibling.data[..];
    key, c := ChooseForMerge(page, mini, low, high, maxFence, bm, mm, maxRecord, junk);
    ghost var r := c.(junk := junk);
    ok := SplitAndFill(page, mini, sibling, low, high, key, maxFence, c, r);
    BothExact(c, r, maxFence);
    if c.p.prefixLen == 0 {
      PlainFits(c, true, maxFence, maxRecord);
      PlainFits(c, false, maxFence, maxRecord);
    }
    if ok {
      HalfReadsAs(c, true, maxFence);
      HalfReadsAs(r, false, maxFence);
    }
  }
}
