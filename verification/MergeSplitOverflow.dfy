/** With a prefix, a merge that splits may not fit: a half can need more room for its records than it has,
    although the base page honours the reserve, the mini page is of a size class that leaves the gap, and the
    split key is the most even one.  Weighing whole keys counts the prefix once per record on the side with many
    short records, and so leaves too much on the side with few long ones. */
module MergeSplitOverflow {
  import opened Bytes
  import opened TreeShape
  import opened LeafCache
  import opened LeafImage
  import opened LeafImageProof
  import opened LeafFill
  import opened LeafSplit
  import opened LeafMerge
  import opened MergeSplitKey
  import opened MergeSplitFits
  import opened MergeSplitExact
  import opened MergeSplitOps
  import Classes = SizeClasses

  // ---- pages filled in key order -------------------------------------------------------------------

  /** The record slots of the page are these records, in this order. */
  predicate Listed(p: Image, items: seq<Item>) {
    && Ok(p) && |p.slots| == First(p) + |items|
    && forall i :: 0 <= i < |items| ==> SlotIs(p, First(p) + i, items[i])
  }

  predicate SlotIs(p: Image, i: nat, x: Item)
    requires Ok(p) && First(p) <= i < |p.slots|
  {
    p.prefixLen <= |x.key| && Tail(p, i) == x.key[p.prefixLen..] && RecAt(p, i) == Rec(x.op, x.value)
  }

  predicate Climbing(items: seq<Item>, n: nat) {
    && (forall i :: 0 <= i < |items| ==> n <= |items[i].key| && items[i].op.Insert?)
    && forall i, j :: 0 <= i < j < |items| ==> Lt(items[i].key[n..], items[j].key[n..])
  }

  lemma AboveAllSlots(p: Image, items: seq<Item>, tail: Key)
    requires Listed(p, items) && forall i :: 0 <= i < |items| ==> Lt(items[i].key[p.prefixLen..], tail)
    ensures LowerBound(p, tail) == |p.slots|
  {
    forall j | First(p) <= j < |p.slots| ensures Lt(Tail(p, j), tail) { assert SlotIs(p, j, items[j - First(p)]); }
    LowerBoundIs(p, tail, |p.slots|);
  }

  lemma AppendIsAdded(p: Image, items: seq<Item>, tail: Key, value: seq<byte>, f: nat)
    requires Listed(p, items) && forall i :: 0 <= i < |items| ==> Lt(items[i].key[p.prefixLen..], tail)
    requires InsertInto(p, tail, value, Insert, f).ok
    ensures |tail| + |value| + SLOT <= p.remaining && InsertInto(p, tail, value, Insert, f).page == Added(p, |p.slots|, tail, value, Insert)
  {
    AboveAllSlots(p, items, tail);
  }

  lemma AddedLists(p: Image, items: seq<Item>, x: Item)
    requires Listed(p, items) && p.prefixLen <= |x.key| && |x.key[p.prefixLen..]| + |x.value| + SLOT <= p.remaining
    requires Ok(Added(p, |p.slots|, x.key[p.prefixLen..], x.value, x.op))
    ensures Listed(Added(p, |p.slots|, x.key[p.prefixLen..], x.value, x.op), items + [x])
  {
    var tail, n := x.key[p.prefixLen..], |p.slots|;
    var p' := Added(p, n, tail, x.value, x.op);
    forall i | 0 <= i < |items| + 1 ensures SlotIs(p', First(p') + i, (items + [x])[i]) {
      AddedReads(p, n, tail, x.value, x.op, First(p) + i);
      if i < |items| { assert SlotIs(p, First(p) + i, items[i]); }
    }
  }

  lemma ListMore(p: Image, items: seq<Item>, x: Item, f: nat)
    requires Listed(p, items) && p.prefixLen <= |x.key| && x.op.Insert?
    requires forall i :: 0 <= i < |items| ==> Lt(items[i].key[p.prefixLen..], x.key[p.prefixLen..])
    requires InsertInto(p, x.key[p.prefixLen..], x.value, x.op, f).ok
    ensures Listed(InsertInto(p, x.key[p.prefixLen..], x.value, x.op, f).page, items + [x])
  {
    var tail, n := x.key[p.prefixLen..], |p.slots|;
    AppendIsAdded(p, items, tail, x.value, f);
    InsertFinds(p, tail, x.value, x.op, f, tail);
    AddedLists(p, items, x);
  }

  lemma ClimbFront(items: seq<Item>, n: nat)
    requires Climbing(items, n) && items != []
    ensures Climbing(items[..|items| - 1], n)
  {
  }

  lemma FrontAndLast<T>(s: seq<T>)
    requires s != []
    ensures s == s[..|s| - 1] + [s[|s| - 1]]
  {
  }

  lemma FillLast(p: Image, items: seq<Item>, f: nat)
    requires Ok(p) && Climbing(items, p.prefixLen) && items != [] && Fill(p, items, f).ok
    requires Listed(Fill(p, items[..|items| - 1], f).page, items[..|items| - 1])
    ensures Listed(Fill(p, items, f).page, items)
  {
    FrontAndLast(items);
    ListMore(Fill(p, items[..|items| - 1], f).page, items[..|items| - 1], items[|items| - 1], f);
  }

  lemma {:induction false} FillLists(p: Image, items: seq<Item>, f: nat)
    requires Listed(p, []) && Climbing(items, p.prefixLen) && Fill(p, items, f).ok
    ensures Listed(Fill(p, items, f).page, items)
    decreases |items|
  {
    if items != [] {
      ClimbFront(items, p.prefixLen);
      FillLists(p, items[..|items| - 1], f);
      FillLast(p, items, f);
    }
  }

  /** The records a list of distinct keys spells. */
  function RecsOf(items: seq<Item>): Recs {
    if items == [] then map[]
    else RecsOf(items[..|items| - 1])[items[|items| - 1].key := Rec(items[|items| - 1].op, items[|items| - 1].value)]
  }

  lemma {:induction false} RecsSpelt(items: seq<Item>)
    requires Distinct(items)
    ensures Spells(items, RecsOf(items))
    decreases |items|
  {
    if items != [] {
      var front, x := items[..|items| - 1], items[|items| - 1];
      RecsSpelt(front);
      forall k | k in RecsOf(items) ensures exists i :: 0 <= i < |items| && items[i].key == k {
        if k == x.key {
          assert items[|items| - 1].key == k;
        } else {
          var i :| 0 <= i < |front| && front[i].key == k;
          assert items[i].key == k;
        }
      }
      forall i | 0 <= i < |items| ensures items[i].key in RecsOf(items) && RecsOf(items)[items[i].key] == Rec(items[i].op, items[i].value) {
        if i < |front| { assert front[i] == items[i]; }
      }
    }
  }

  ghost predicate Ready(size: nat, lo: Key, hi: Key, items: seq<Item>) {
    && Room(size, lo, hi, true, items) && Distinct(items) && Climbing(items, PrefixLen(lo, hi))
    && forall i :: 0 <= i < |items| ==> Within(items[i].key, lo, HighOf(hi))
  }

  /** A page rebuilt from records in key order lists them. */
  lemma RebuiltLists(junk: seq<byte>, lo: Key, hi: Key, items: seq<Item>)
    requires Ready(|junk|, lo, hi, items)
    ensures var p := Rebuilt(junk, lo, hi, true, items).page;
      && BasePage(p, lo, hi, RecsOf(items)) && |p.bytes| == |junk| && Listed(p, items) && Fillable(p, items)
  {
    RecsSpelt(items);
    RebuiltHolds(junk, lo, hi, true, items, RecsOf(items));
    FencedOk(junk, lo, hi, true);
    var p := Fenced(junk, lo, hi, true);
    assert Listed(p, []);
    FillLists(p, items, 0);
    RebuiltFrame(junk, lo, hi, items);
    var q := Rebuilt(junk, lo, hi, true, items).page;
    forall i | 0 <= i < |items| ensures HasPrefix(q, items[i].key) { KeysCarryPrefix(q, lo, hi, items[i].key); }
    forall k | k in RecsOf(items) ensures Within(k, lo, HighOf(hi)) && RecsOf(items)[k].op.Dirty() {
      var i :| 0 <= i < |items| && items[i].key == k;
    }
  }

  lemma RebuiltFrame(junk: seq<byte>, lo: Key, hi: Key, items: seq<Item>)
    requires Ready(|junk|, lo, hi, items)
    requires Rebuilt(junk, lo, hi, true, items).ok
    ensures var p := Rebuilt(junk, lo, hi, true, items).page; |p.bytes| == |junk| && p.base
  {
    FreshPage(junk, lo, hi);
    NewIsAbsent(junk, lo, hi, items);
    FillExact(Fenced(junk, lo, hi, true), items, 0);
  }

  lemma SlotSizes(p: Image, i: nat, x: Item)
    requires Ok(p) && First(p) <= i < |p.slots| && SlotIs(p, i, x) && HasPrefix(p, x.key)
    ensures Full(p, i) == x.key && SizeAt(p, i) == |x.key| + |x.value| + SLOT && ValueAt(p, i) == x.value && p.slots[i].op == x.op
  {
    assert Placed(p, i);
    PrefixLength(p, x.key);
    assert x.key == x.key[..p.prefixLen] + x.key[p.prefixLen..];
  }

  function SizeOf(x: Item): Sized { Sized(x.key, |x.key| + |x.value| + SLOT) }

  function Sizes(items: seq<Item>): seq<Sized> { seq(|items|, i requires 0 <= i < |items| => SizeOf(items[i])) }

  lemma SizesNext(items: seq<Item>, b: nat)
    requires 0 < b <= |items|
    ensures Sizes(items[..b]) == Sizes(items[..b - 1]) + [SizeOf(items[b - 1])]
  {
  }

  /** What a reader of a record slot gets. */
  predicate ShowsAt(p: Image, j: nat, x: Item)
    requires Laid(p) && First(p) <= j < |p.slots|
  {
    Full(p, j) == x.key && SizeAt(p, j) == SizeOf(x).size && ValueAt(p, j) == x.value && p.slots[j].op == x.op
  }

  predicate Shows(p: Image, items: seq<Item>) {
    && Laid(p) && First(p) <= |p.slots| == First(p) + |items|
    && forall i :: 0 <= i < |items| ==> ShowsAt(p, First(p) + i, items[i])
  }

  lemma ListedShows(p: Image, items: seq<Item>)
    requires Listed(p, items) && Fillable(p, items)
    ensures Shows(p, items)
  {
    forall i | 0 <= i < |items| ensures ShowsAt(p, First(p) + i, items[i]) {
      assert SlotIs(p, First(p) + i, items[i]) && HasPrefix(p, items[i].key);
      SlotSizes(p, First(p) + i, items[i]);
    }
  }

  lemma {:induction false} BaseSizedIs(p: Image, items: seq<Item>, b: nat)
    requires Shows(p, items) && b <= |items|
    ensures BaseSized(p, First(p) + b) == Sizes(items[..b])
  {
    if b > 0 {
      BaseSizedIs(p, items, b - 1);
      assert ShowsAt(p, First(p) + (b - 1), items[b - 1]);
      SizesNext(items, b);
    }
  }

  lemma TakeNext<T>(s: seq<T>, b: nat)
    requires 0 < b <= |s|
    ensures s[..b] == s[..b - 1] + [s[b - 1]]
  {
  }

  lemma {:induction false} CollectedIs(p: Image, items: seq<Item>, b: nat, w: Pick)
    requires Shows(p, items) && b <= |items| && forall i :: 0 <= i < |items| ==> items[i].op.Insert?
    ensures Collected(p, First(p), First(p) + b, w) == items[..b]
  {
    if b > 0 {
      CollectedIs(p, items, b - 1, w);
      assert ShowsAt(p, First(p) + (b - 1), items[b - 1]);
      TakeNext(items, b);
    }
  }

  // ---- the example ---------------------------------------------------------------------------------

  const KEYLEN := 500
  const FENCE := 2 * KEYLEN
  /** The largest record of the example with its slot, and the bytes of its leaf page and of its mini page. */
  const RECORD := KEYLEN + 850 + SLOT
  const BYTES := Classes.DISK_PAGE - Classes.HEADER
  const MINI := 1088

  /** A configuration the source accepts, with the mini page one of its classes. */
  lemma ExampleConfig()
    ensures Classes.ConfigOk(KEYLEN, RECORD - SLOT, Classes.DISK_PAGE, FENCE)
    ensures Classes.IsClass(KEYLEN, Classes.AlignDown(Classes.MaxMini(RECORD - SLOT, Classes.DISK_PAGE, FENCE)), Classes.DISK_PAGE, MINI)
  {
    assert Classes.Pow2(1) == 2 && Classes.ClassAt(KEYLEN, 1) == MINI;
  }

  function Zeros(n: nat): (s: seq<byte>)
    ensures |s| == n && forall i :: 0 <= i < n ==> s[i] == 0
  {
    seq(n, i => 0)
  }

  /** Keys share all but their last byte; the fences are the least and the greatest. */
  function K(t: byte): Key { Zeros(KEYLEN - 1) + [t] }

  /** `k` records with values of `v` bytes, their keys counting up from `t`. */
  function Many(t: nat, k: nat, v: nat): seq<Item>
    requires t + k <= 256
  {
    seq(k, i requires 0 <= i < k => Item(K(t + i), Zeros(v), Insert))
  }

  /** Four records of 859 stored bytes, then eleven of 10. */
  function BaseItems(): seq<Item> { Many(1, 4, 850) + Many(6, 11, 1) }

  /** One record that goes between. */
  function MiniItem(): Item { Item(K(5), Zeros(110), Insert) }

  lemma KeyOrder(a: byte, b: byte)
    ensures Lt(K(a), K(b)) <==> a < b
    ensures K(a) == K(b) <==> a == b
    ensures a != b ==> PrefixLen(K(a), K(b)) == KEYLEN - 1
  {
    LtCancel(Zeros(KEYLEN - 1), [a], [b]);
    assert K(a)[KEYLEN - 1] == a && K(b)[KEYLEN - 1] == b;
  }

  lemma TailOf(t: byte)
    ensures |K(t)| == KEYLEN && K(t)[KEYLEN - 1..] == [t]
  {
  }

  /** The last byte of the `i`-th key. */
  function Tag(i: nat): byte
    requires i < 15
  {
    if i < 4 then i + 1 else i + 2
  }

  lemma BaseAt(i: nat)
    requires i < 15
    ensures |BaseItems()| == 15
    ensures BaseItems()[i] == Item(K(Tag(i)), Zeros(if i < 4 then 850 else 1), Insert)
  {
  }

  lemma BaseClimbs()
    ensures Climbing(BaseItems(), KEYLEN - 1) && Distinct(BaseItems())
    ensures forall i :: 0 <= i < 15 ==> Within(BaseItems()[i].key, K(0), At(K(255)))
  {
    var items := BaseItems();
    forall i | 0 <= i < 15 ensures KEYLEN - 1 <= |items[i].key| && items[i].op.Insert? && Within(items[i].key, K(0), At(K(255))) {
      BaseAt(i);
      TailOf(Tag(i));
      KeyOrder(Tag(i), 0);
      KeyOrder(Tag(i), 255);
    }
    forall i, j | 0 <= i < j < 15 ensures items[i].key != items[j].key && Lt(items[i].key[KEYLEN - 1..], items[j].key[KEYLEN - 1..]) {
      BaseAt(i);
      BaseAt(j);
      KeyOrder(Tag(i), Tag(j));
      TailOf(Tag(i));
      TailOf(Tag(j));
    }
  }

  lemma {:induction false} ManyCost(t: nat, k: nat, v: nat, n: nat)
    requires t + k <= 256
    ensures Cost(Many(t, k, v), n, true) == k * (KEYLEN - n + v + SLOT)
  {
    if k > 0 {
      ManyCost(t, k - 1, v, n);
      assert k * (KEYLEN - n + v + SLOT) == (k - 1) * (KEYLEN - n + v + SLOT) + (KEYLEN - n + v + SLOT);
      assert Many(t, k, v)[..k - 1] == Many(t, k - 1, v);
      TailOf(t + (k - 1));
      assert Many(t, k, v)[k - 1] == Item(K(t + (k - 1)), Zeros(v), Insert);
    }
  }

  lemma BaseCosts()
    ensures Cost(BaseItems()[..4], KEYLEN - 1, true) == 3436 && Cost(BaseItems(), KEYLEN - 1, true) == 3546
  {
    ManyCost(1, 4, 850, KEYLEN - 1);
    ManyCost(6, 11, 1, KEYLEN - 1);
    CostAppend(Many(1, 4, 850), Many(6, 11, 1), KEYLEN - 1);
    assert BaseItems()[..4] == Many(1, 4, 850);
  }

  // the base page

  lemma ReadyFrom(size: nat, lo: Key, hi: Key, items: seq<Item>)
    requires Distinct(items) && Climbing(items, PrefixLen(lo, hi)) && hi != []
    requires forall i :: 0 <= i < |items| ==> Within(items[i].key, lo, At(hi))
    requires |lo| + |hi| + 2 * SLOT <= size < INF_LOW && Cost(items, PrefixLen(lo, hi), true) + 2 * SLOT + |lo| + |hi| <= size + PrefixLen(lo, hi)
    ensures Ready(size, lo, hi, items)
  {
  }

  lemma BaseReady()
    ensures Ready(BYTES, K(0), K(255), BaseItems()) && PrefixLen(K(0), K(255)) == KEYLEN - 1
  {
    BaseClimbs();
    BaseAt(0);
    KeyOrder(0, 255);
    TailOf(0);
    TailOf(255);
    BaseCosts();
    ReadyFrom(BYTES, K(0), K(255), BaseItems());
  }

  lemma BaseOf(junk: seq<byte>, lo: Key, hi: Key, items: seq<Item>) returns (p: Image)
    requires Ready(|junk|, lo, hi, items)
    ensures BasePage(p, lo, hi, RecsOf(items)) && |p.bytes| == |junk| && Listed(p, items) && Fillable(p, items)
    ensures p.prefixLen == PrefixLen(lo, hi)
    ensures p.remaining + FenceLens(p) == |junk| - 2 * SLOT + PrefixLen(lo, hi) - Cost(items, PrefixLen(lo, hi), true)
  {
    KeysLong(lo, hi, items);
    RebuiltLists(junk, lo, hi, items);
    RebuiltExact(junk, lo, hi, items);
    p := Rebuilt(junk, lo, hi, true, items).page;
  }

  // the mini page

  function EmptyMini(): Image { Image(Zeros(MINI - Classes.HEADER), [], MINI - Classes.HEADER, 0, false, false) }

  function MiniRecs(): Recs { map[K(5) := Rec(Insert, Zeros(110))] }

  lemma MiniOf() returns (p: Image)
    ensures MiniPage(p, MiniRecs()) && Accounted(p) && |p.bytes| == MINI - Classes.HEADER && Listed(p, [MiniItem()]) && Fillable(p, [MiniItem()])
  {
    var e := EmptyMini();
    assert Ok(e) && Listed(e, []) && Accounted(e);
    assert K(5)[0..] == K(5);
    InsertAccounted(e, K(5), Zeros(110), Insert, FENCE);
    ListMore(e, [], MiniItem(), FENCE);
    p := InsertInto(e, K(5), Zeros(110), Insert, FENCE).page;
    assert [] + [MiniItem()] == [MiniItem()];
    forall k ensures Find(p, k) == Lookup(MiniRecs(), k) { InsertFinds(e, K(5), Zeros(110), Insert, FENCE, k); }
    forall k ensures HasPrefix(p, k) && k[p.prefixLen..] == k { }
  }

  // the two together

  lemma {:induction false} MergeInto(b: seq<Sized>, x: Sized, k: nat)
    requires k < |b| && (forall i :: 0 <= i < k ==> Lt(b[i].key, x.key)) && !Lt(b[k].key, x.key) && b[k].key != x.key
    ensures MergedOrder(b, [x]) == b[..k] + [x] + b[k..]
    decreases k
  {
    if k == 0 {
      assert MergedOrder(b, []) == b;
    } else {
      MergeInto(b[1..], x, k - 1);
      assert [b[0]] + (b[1..][..k - 1] + [x] + b[1..][k - 1..]) == b[..k] + [x] + b[k..];
    }
  }

  /** Four records of 1358 bytes, one of 618, eleven of 509. */
  predicate SixteenSizes(l: seq<Sized>) {
    |l| == 16 && forall i :: 0 <= i < 16 ==> l[i].size == if i < 4 then RECORD else if i == 4 then 618 else 509
  }

  function Sum(a: nat): nat { if a <= 4 then RECORD * a else 4 * RECORD + 618 + 509 * (a - 5) }

  lemma {:induction false} Totals(l: seq<Sized>, a: nat)
    requires SixteenSizes(l) && a <= 16
    ensures Total(l[..a]) == Sum(a)
  {
    if a > 0 {
      Totals(l, a - 1);
      assert l[..a][..a - 1] == l[..a - 1];
    }
  }

  lemma Merging()
    ensures var l := MergedOrder(Sizes(BaseItems()), [SizeOf(MiniItem())]);
      SixteenSizes(l) && l[5].key == K(6) && forall i :: 0 <= i < 16 ==> |l[i].key| == KEYLEN
  {
    var b, x := Sizes(BaseItems()), SizeOf(MiniItem());
    forall i | 0 <= i < 15 ensures b[i] == Sized(K(Tag(i)), if i < 4 then RECORD else 509) { BaseAt(i); }
    forall i | 0 <= i < 4 ensures Lt(b[i].key, x.key) { KeyOrder(Tag(i), 5); }
    KeyOrder(6, 5);
    MergeInto(b, x, 4);
  }

  lemma FifthIsChosen(l: seq<Sized>)
    requires SixteenSizes(l)
    ensures OnlyChoice(l, 5, l[5].key) && Total(l) < 32768 && Within1(l, RECORD)
  {
    forall a | 0 <= a <= 16 ensures Total(l[..a]) == Sum(a) { Totals(l, a); }
    assert l[..16] == l;
    assert forall a :: 0 < a < 16 && a != 5 ==> Gap(Total(l[..5]), Total(l)) < Gap(Total(l[..a]), Total(l));
  }

  lemma MiniSizes(mini: Image, x: Item)
    requires Listed(mini, [x]) && Fillable(mini, [x]) && !mini.fenced && x.op.Insert?
    ensures MiniSized(mini, |mini.slots|) == [SizeOf(x)] && DirtyItems(mini) == [x]
  {
    ListedShows(mini, [x]);
    assert ShowsAt(mini, First(mini) + 0, [x][0]);
    CollectedIs(mini, [x], 1, DirtyOnly);
    assert MiniSized(mini, 0) == [];
    assert [x][..1] == [x];
  }

  lemma NoDups(p: Image, items: seq<Item>, x: Item)
    requires Listed(p, items) && Fillable(p, items) && forall i :: 0 <= i < |items| ==> items[i].key != x.key
    ensures AreDups(p, Keys([SizeOf(x)]), {})
  {
    ListedShows(p, items);
    forall i | First(p) <= i < |p.slots| ensures Full(p, i) !in Keys([SizeOf(x)]) {
      assert ShowsAt(p, First(p) + (i - First(p)), items[i - First(p)]);
    }
  }

  lemma CutIs(p: Image, items: seq<Item>, b: nat)
    requires Listed(p, items) && Climbing(items, p.prefixLen) && b < |items|
    ensures p.prefixLen <= |items[b].key| && CutAt(p, items[b].key) == First(p) + b
  {
    var tail := items[b].key[p.prefixLen..];
    assert SlotIs(p, First(p) + b, items[b]);
    forall j | First(p) <= j < First(p) + b ensures Lt(Tail(p, j), tail) {
      assert SlotIs(p, First(p) + (j - First(p)), items[j - First(p)]);
    }
    LtTotal(tail, tail);
    LowerBoundIs(p, tail, First(p) + b);
  }

  lemma MarkNone(p: Image)
    ensures MarkAll(p, {}) == p
  {
    assert MarkAll(p, {}).slots == p.slots;
  }

  /** Cutting a page that lists its records, with none marked, keeps those before the cut on the left. */
  lemma KeptLeft(c: Split, items: seq<Item>, b: nat)
    requires Listed(c.p, items) && Fillable(c.p, items) && Climbing(items, c.p.prefixLen) && c.dups == {}
    requires b < |items| && c.key == items[b].key
    ensures MarkAll(c.p, c.dups) == c.p && c.p.prefixLen <= |c.key| && Kept(c, true) == items[..b]
  {
    MarkNone(c.p);
    CutIs(c.p, items, b);
    ListedShows(c.p, items);
    CollectedIs(c.p, items, b, LiveOnly);
  }

  /** The chooser takes the key at `at` and no other. */
  ghost predicate OnlyChoice(l: seq<Sized>, at: nat, key: Key) {
    Choice(l, at, key) && forall a, k :: Choice(l, a, k) ==> a == at && k == key
  }

  /** A base page that lists `items` and a mini page that lists `x`, none of whose keys meet. */
  ghost predicate Built(c: Split, items: seq<Item>, x: Item) {
    && BasePage(c.p, c.low, c.high, c.bm) && Listed(c.p, items) && Fillable(c.p, items) && Climbing(items, c.p.prefixLen)
    && MiniPage(c.mini, c.mm) && Listed(c.mini, [x]) && Fillable(c.mini, [x]) && x.op.Insert? && c.mm.Keys == {x.key}
    && c.dups == {} && |c.junk| == |c.p.bytes| && forall i :: 0 <= i < |items| ==> items[i].key != x.key
  }

  lemma BuiltMerged(c: Split, items: seq<Item>, x: Item)
    requires Built(c, items, x)
    ensures Merged(c.p, c.mini) == MergedOrder(Sizes(items), [SizeOf(x)])
  {
    ListedShows(c.p, items);
    BaseSizedIs(c.p, items, |items|);
    assert items[..|items|] == items;
    MiniSizes(c.mini, x);
  }

  lemma BuiltDups(c: Split, items: seq<Item>, x: Item)
    requires Built(c, items, x)
    ensures Laid(c.mini) && !c.mini.fenced && Laid(c.p) && AreDups(c.p, Keys(MiniSized(c.mini, |c.mini.slots|)), c.dups)
  {
    MiniSizes(c.mini, x);
    NoDups(c.p, items, x);
  }

  lemma SplitFrom(c: Split, k: Key, maxFence: nat)
    requires BasePage(c.p, c.low, c.high, c.bm) && MiniPage(c.mini, c.mm) && c.mm.Keys == {k} && |c.junk| == |c.p.bytes|
    requires AreDups(c.p, Keys(MiniSized(c.mini, |c.mini.slots|)), c.dups)
    requires Within(k, c.low, HighOf(c.high)) && Lt(c.low, c.key) && (c.high != [] ==> Lt(c.key, c.high))
    requires |c.low| + |c.key| <= maxFence && |c.key| + |c.high| <= maxFence && maxFence + 2 * SLOT <= |c.p.bytes|
    ensures SplitOk(c, maxFence)
  {
  }

  lemma BuiltOk(c: Split, items: seq<Item>, x: Item, maxFence: nat)
    requires Built(c, items, x) && Within(x.key, c.low, HighOf(c.high)) && Lt(c.low, c.key) && (c.high != [] ==> Lt(c.key, c.high))
    requires |c.low| + |c.key| <= maxFence && |c.key| + |c.high| <= maxFence && maxFence + 2 * SLOT <= |c.p.bytes|
    ensures SplitOk(c, maxFence)
  {
    BuiltDups(c, items, x);
    SplitFrom(c, x.key, maxFence);
  }

  lemma BuiltSides(c: Split, items: seq<Item>, x: Item, b: nat, maxFence: nat)
    requires Built(c, items, x) && SplitOk(c, maxFence) && b < |items| && c.key == items[b].key && Lt(x.key, c.key)
    ensures Laid(MarkAll(c.p, c.dups)) && c.p.prefixLen <= |c.key| && Laid(c.mini) && !c.mini.fenced
    ensures Kept(c, true) == items[..b] && DirtySide(c, true) == [x]
  {
    KeptLeft(c, items, b);
    MiniSizes(c.mini, x);
    SideOnlyStep([], x, c.key, true);
    assert [] + [x] == [x];
  }

  /** Too little room for the records before the cut and the mini record. */
  lemma BuiltOverflows(c: Split, items: seq<Item>, x: Item, b: nat, maxFence: nat, n: nat)
    requires Built(c, items, x) && SplitOk(c, maxFence) && b < |items| && c.key == items[b].key && Lt(x.key, c.key)
    requires n == PrefixLen(c.low, c.key) && ItemCost(x, n, true) > 0
    requires Cost(items[..b], n, true) + ItemCost(x, n, true) + 2 * SLOT + maxFence > |c.junk| + n
    ensures !HalfOf(c, true, maxFence).ok
  {
    BuiltSides(c, items, x, b, maxFence);
    assert [x][..0] == [] && Cost([x], n, true) == ItemCost(x, n, true);
    HalfExact(c, true, maxFence);
  }

  /** The two pages, for a base page between `lo` and `hi` filled with `items`. */
  lemma Build(items: seq<Item>, lo: Key, hi: Key, key: Key) returns (c: Split)
    requires Ready(BYTES, lo, hi, items) && forall i :: 0 <= i < |items| ==> items[i].key != MiniItem().key
    ensures Built(c, items, MiniItem()) && c.low == lo && c.high == hi && c.key == key
    ensures |c.p.bytes| == BYTES && Accounted(c.mini) && |c.mini.bytes| == MINI - Classes.HEADER
    ensures c.p.remaining + FenceLens(c.p) == BYTES - 2 * SLOT + PrefixLen(lo, hi) - Cost(items, PrefixLen(lo, hi), true)
  {
    var mini := MiniOf();
    var p := BaseOf(Zeros(BYTES), lo, hi, items);
    c := Split(p, lo, hi, RecsOf(items), mini, MiniRecs(), {}, key, Zeros(BYTES));
  }

  lemma NotInBase()
    ensures forall i :: 0 <= i < |BaseItems()| ==> BaseItems()[i].key != K(5)
  {
    BaseAt(0);
    forall i | 0 <= i < 15 ensures BaseItems()[i].key != K(5) {
      BaseAt(i);
      KeyOrder(Tag(i), 5);
    }
  }

  lemma ExampleOrder()
    ensures Within(K(5), K(0), At(K(255))) && Lt(K(5), K(6)) && Lt(K(0), K(6)) && Lt(K(6), K(255)) && PrefixLen(K(0), K(6)) == KEYLEN - 1
  {
    KeyOrder(5, 0); KeyOrder(5, 255); KeyOrder(5, 6); KeyOrder(0, 6); KeyOrder(6, 255);
  }

  /** Sizes the chooser takes, of which the one at `at` is its only choice. */
  ghost predicate Chosen(l: seq<Sized>, at: nat, key: Key) {
    && OnlyChoice(l, at, key) && Total(l) < 32768 && Within1(l, RECORD)
    && forall i :: 0 <= i < |l| ==> 2 * |l[i].key| <= FENCE
  }

  lemma Overflow(items: seq<Item>, l: seq<Sized>, lo: Key, hi: Key, b: nat, at: nat, n: nat) returns (c: Split)
    requires Ready(BYTES, lo, hi, items) && (forall i :: 0 <= i < |items| ==> items[i].key != MiniItem().key) && b < |items|
    requires var key := items[b].key;
      && Within(MiniItem().key, lo, HighOf(hi)) && Lt(MiniItem().key, key) && Lt(lo, key) && Lt(key, hi) && n == PrefixLen(lo, key)
      && 2 * |lo| <= FENCE && 2 * |hi| <= FENCE && Chosen(l, at, key)
    requires l == MergedOrder(Sizes(items), [SizeOf(MiniItem())])
    requires Cost(items, PrefixLen(lo, hi), true) + FENCE + 2 * SLOT <= BYTES + PrefixLen(lo, hi)
    requires ItemCost(MiniItem(), n, true) > 0 && Cost(items[..b], n, true) + ItemCost(MiniItem(), n, true) + 2 * SLOT + FENCE > BYTES + n
    ensures SplitOk(c, FENCE) && CanMergeSplit(c.p, c.low, c.high, c.bm, c.mini, c.mm, FENCE, RECORD)
    ensures OnlyChoice(Merged(c.p, c.mini), at, c.key) && !HalfOf(c, true, FENCE).ok
    ensures |c.p.bytes| == BYTES && |c.mini.bytes| == MINI - Classes.HEADER
  {
    c := Build(items, lo, hi, items[b].key);
    BuiltOk(c, items, MiniItem(), FENCE);
    BuiltMerged(c, items, MiniItem());
    BuiltOverflows(c, items, MiniItem(), b, FENCE, n);
  }

  /** Without the condition on the prefix the step can fail, for a configuration that is accepted: the chooser has
      one choice, and its left half does not take its records. */
  lemma PrefixCanOverflow() returns (c: Split)
    ensures SplitOk(c, FENCE) && CanMergeSplit(c.p, c.low, c.high, c.bm, c.mini, c.mm, FENCE, RECORD)
    ensures OnlyChoice(Merged(c.p, c.mini), 5, c.key) && !HalfOf(c, true, FENCE).ok
    ensures |c.p.bytes| == Classes.DISK_PAGE - Classes.HEADER && |c.mini.bytes| == MINI - Classes.HEADER
    ensures Classes.ConfigOk(KEYLEN, RECORD - SLOT, Classes.DISK_PAGE, FENCE)
    ensures Classes.IsClass(KEYLEN, Classes.AlignDown(Classes.MaxMini(RECORD - SLOT, Classes.DISK_PAGE, FENCE)), Classes.DISK_PAGE, MINI)
  {
    ExampleConfig();
    BaseReady();
    BaseCosts();
    BaseAt(4);
    NotInBase();
    ExampleOrder();
    Merging();
    var l := MergedOrder(Sizes(BaseItems()), [SizeOf(MiniItem())]);
    FifthIsChosen(l);
    c := Overflow(BaseItems(), l, K(0), K(255), 4, 5, KEYLEN - 1);
  }
}
