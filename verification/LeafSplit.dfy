/** Split, consolidate and merge on slotted pages, and the maps they stand for.

    All three collect records and insert them one by one into a page; the inserts ask for no fence reserve
    and must all succeed.  They do, given the reserve that client inserts leave. */
module LeafSplit {
  import opened Bytes
  import opened TreeShape
  import opened LeafCache
  import opened LeafImage
  import opened LeafImageProof
  import opened LeafFill

  datatype Item = Item(key: Key, value: Value, op: Op)

  predicate HasPrefix(p: Image, k: Key)
    requires Laid(p)
  {
    p.prefixLen <= |k| && k[..p.prefixLen] == Prefix(p)
  }

  function Lookup(m: Recs, k: Key): Option<Rec> { if k in m then Some(m[k]) else None }

  /** The page holds exactly the records of `m`, under their full keys. */
  ghost predicate Holds(p: Image, m: Recs)
    requires Laid(p)
  {
    && (forall k :: k in m ==> HasPrefix(p, k))
    && (forall k :: HasPrefix(p, k) ==> Find(p, k[p.prefixLen..]) == Lookup(m, k))
  }

  // ---- inserting a list of records -----------------------------------------------------------------

  lemma InsertKeepsShape(p: Image, tail: Key, v: Value, op: Op, maxFence: nat)
    requires Ok(p)
    ensures Ok(InsertInto(p, tail, v, op, maxFence).page)
    ensures InsertInto(p, tail, v, op, maxFence).page.prefixLen == p.prefixLen
    ensures InsertInto(p, tail, v, op, maxFence).page.base == p.base
  {
    InsertFinds(p, tail, v, op, maxFence, tail);
  }

  function Fill(p: Image, items: seq<Item>, f: nat): Outcome
    requires Ok(p) && forall i :: 0 <= i < |items| ==> p.prefixLen <= |items[i].key|
    ensures Ok(Fill(p, items, f).page) && Fill(p, items, f).page.prefixLen == p.prefixLen && Fill(p, items, f).page.base == p.base
    decreases |items|
  {
    if items == [] then Outcome(p, true)
    else
      var r := Fill(p, items[..|items| - 1], f);
      var x := items[|items| - 1];
      if !r.ok then r
      else
        InsertKeepsShape(r.page, x.key[p.prefixLen..], x.value, x.op, f);
        InsertInto(r.page, x.key[p.prefixLen..], x.value, x.op, f)
  }

  function ItemCost(x: Item, n: nat, base: bool): int {
    if x.op.Delete? && base then 0 else |x.key| - n + |x.value| + SLOT
  }

  function Cost(items: seq<Item>, n: nat, base: bool): int {
    if items == [] then 0 else Cost(items[..|items| - 1], n, base) + ItemCost(items[|items| - 1], n, base)
  }

  /** If the records' own bytes fit beside the reserve `f` that each insert asks for, every insert succeeds. */
  lemma {:induction false} FillFits(p: Image, items: seq<Item>, f: nat)
    requires Ok(p) && Accounted(p) && forall i :: 0 <= i < |items| ==> p.prefixLen <= |items[i].key|
    requires Cost(items, p.prefixLen, p.base) <= p.remaining
    requires p.fenced ==> Cost(items, p.prefixLen, p.base) + f <= p.remaining + FenceLens(p)
    ensures Fill(p, items, f).ok && Accounted(Fill(p, items, f).page) && SameFrame(p, Fill(p, items, f).page)
    ensures Fill(p, items, f).page.remaining >= p.remaining - Cost(items, p.prefixLen, p.base)
    decreases |items|
  {
    if items != [] {
      var x := items[|items| - 1];
      CostNonNegative(items[..|items| - 1], p.prefixLen, p.base);
      FillFits(p, items[..|items| - 1], f);
      var q := Fill(p, items[..|items| - 1], f).page;
      RoomIsEnough(q, x.key[p.prefixLen..], x.value, x.op, f);
      InsertAccounted(q, x.key[p.prefixLen..], x.value, x.op, f);
    }
  }

  lemma {:induction false} CostNonNegative(items: seq<Item>, n: nat, base: bool)
    requires forall i :: 0 <= i < |items| ==> n <= |items[i].key|
    ensures Cost(items, n, base) >= 0
  {
    if items != [] { CostNonNegative(items[..|items| - 1], n, base); }
  }

  lemma {:induction false} FillKeepsFences(p: Image, items: seq<Item>, f: nat, low: Key, high: Key)
    requires Ok(p) && HasFences(p, low, high) && forall i :: 0 <= i < |items| ==> p.prefixLen <= |items[i].key|
    ensures HasFences(Fill(p, items, f).page, low, high)
    decreases |items|
  {
    if items != [] {
      FillKeepsFences(p, items[..|items| - 1], f, low, high);
      var r, x := Fill(p, items[..|items| - 1], f), items[|items| - 1];
      if r.ok { InsertKeepsFences(r.page, x.key[p.prefixLen..], x.value, x.op, f, low, high); }
    }
  }

  /** A list of records written one after another over what was there for one key. */
  function Applied(items: seq<Item>, k: Key, was: Option<Rec>, base: bool): Option<Rec> {
    if items == [] then was
    else
      var w := Applied(items[..|items| - 1], k, was, base);
      var x := items[|items| - 1];
      if x.key == k then WriteOne(w, x.value, x.op, base) else w
  }

  lemma {:induction false} FillApplied(p: Image, items: seq<Item>, f: nat, k: Key)
    requires Ok(p) && Fillable(p, items) && HasPrefix(p, k) && Fill(p, items, f).ok
    ensures Find(Fill(p, items, f).page, k[p.prefixLen..]) == Applied(items, k, Find(p, k[p.prefixLen..]), p.base)
    decreases |items|
  {
    if items != [] {
      var x := items[|items| - 1];
      FillApplied(p, items[..|items| - 1], f, k);
      var q := Fill(p, items[..|items| - 1], f).page;
      InsertFinds(q, x.key[p.prefixLen..], x.value, x.op, f, k[p.prefixLen..]);
      assert HasPrefix(p, x.key);
      CompressionExact(Prefix(p), x.key, k);
      PrefixLength(p, k);
    }
  }

  predicate Fillable(p: Image, items: seq<Item>)
    requires Laid(p)
  {
    forall i :: 0 <= i < |items| ==> HasPrefix(p, items[i].key)
  }

  lemma PrefixLength(p: Image, k: Key)
    requires Laid(p) && HasPrefix(p, k)
    ensures |Prefix(p)| == p.prefixLen
  {
  }

  predicate Distinct(items: seq<Item>) { forall i, j :: 0 <= i < j < |items| ==> items[i].key != items[j].key }

  /** With distinct keys each key is written at most once. */
  lemma {:induction false} AppliedOnce(items: seq<Item>, k: Key, was: Option<Rec>, base: bool, i: nat)
    requires Distinct(items) && i <= |items|
    requires i < |items| ==> items[i].key == k
    requires i == |items| ==> forall j :: 0 <= j < |items| ==> items[j].key != k
    ensures Applied(items, k, was, base) == if i == |items| then was else WriteOne(was, items[i].value, items[i].op, base)
    decreases |items|
  {
    if items != [] {
      var n := |items| - 1;
      AppliedOnce(items[..n], k, was, base, if i <= n then i else n);
    }
  }

  /** The list holds exactly the records of `m`, each once. */
  ghost predicate Spells(items: seq<Item>, m: Recs) {
    && Distinct(items)
    && (forall i :: 0 <= i < |items| ==> items[i].key in m && m[items[i].key] == Rec(items[i].op, items[i].value))
    && (forall k :: k in m ==> exists i :: 0 <= i < |items| && items[i].key == k)
  }

  // ---- rebuilding a page between new fences --------------------------------------------------------

  /** The prefix two fences share, carried by every key between them. */
  lemma KeysCarryPrefix(p: Image, low: Key, high: Key, k: Key)
    requires Laid(p) && HasFences(p, low, high) && Le(low, k) && (high != [] ==> Lt(k, high))
    ensures HasPrefix(p, k)
  {
    PrefixShared(p, low, high);
    if high != [] { BetweenSharesPrefix(low, k, high, p.prefixLen); }
  }

  function HighOf(high: Key): Bound { if high == [] then Inf else At(high) }

  /** Initialize with fences and insert a list of live records. */
  function Rebuilt(junk: seq<byte>, low: Key, high: Key, base: bool, items: seq<Item>): Outcome
    requires |low| + |high| + 2 * SLOT <= |junk| < INF_LOW
    requires forall i :: 0 <= i < |items| ==> PrefixLen(low, high) <= |items[i].key|
  {
    FencedOk(junk, low, high, base);
    Fill(Fenced(junk, low, high, base), items, 0)
  }

  predicate Room(size: nat, low: Key, high: Key, base: bool, items: seq<Item>) {
    |low| + |high| + 2 * SLOT <= size < INF_LOW &&
    Cost(items, PrefixLen(low, high), base) + 2 * SLOT + |low| + |high| - PrefixLen(low, high) <= size
  }

  lemma KeysLong(low: Key, high: Key, items: seq<Item>)
    requires forall i :: 0 <= i < |items| ==> Within(items[i].key, low, HighOf(high))
    ensures forall i :: 0 <= i < |items| ==> PrefixLen(low, high) <= |items[i].key|
  {
    forall i | 0 <= i < |items| ensures PrefixLen(low, high) <= |items[i].key| {
      if high != [] { BetweenSharesPrefix(low, items[i].key, high, PrefixLen(low, high)); }
    }
  }

  /** Given room, the rebuilt page holds exactly the listed records between the new fences. */
  lemma RebuiltHolds(junk: seq<byte>, low: Key, high: Key, base: bool, items: seq<Item>, m: Recs)
    requires Room(|junk|, low, high, base, items) && Spells(items, m)
    requires forall i :: 0 <= i < |items| ==> Within(items[i].key, low, HighOf(high)) && items[i].op.Insert?
    ensures forall i :: 0 <= i < |items| ==> PrefixLen(low, high) <= |items[i].key|
    ensures var r := Rebuilt(junk, low, high, base, items);
      r.ok && Ok(r.page) && Accounted(r.page) && HasFences(r.page, low, high) && Holds(r.page, m)
  {
    KeysLong(low, high, items);
    FencedOk(junk, low, high, base);
    FencedAccounted(junk, low, high, base);
    var p := Fenced(junk, low, high, base);
    FillFits(p, items, 0);
    FillKeepsFences(p, items, 0, low, high);
    var q := Fill(p, items, 0).page;
    PrefixShared(p, low, high);
    PrefixShared(q, low, high);
    forall k | k in m ensures HasPrefix(q, k) {
      var i :| 0 <= i < |items| && items[i].key == k;
      KeysCarryPrefix(q, low, high, k);
    }
    forall i | 0 <= i < |items| ensures HasPrefix(p, items[i].key) { KeysCarryPrefix(p, low, high, items[i].key); }
    forall k | HasPrefix(q, k) ensures Find(q, k[q.prefixLen..]) == Lookup(m, k) { RebuiltFinds(p, items, m, k); }
  }

  lemma RebuiltFinds(p: Image, items: seq<Item>, m: Recs, k: Key)
    requires Ok(p) && Fillable(p, items) && HasPrefix(p, k) && Fill(p, items, 0).ok && Spells(items, m)
    requires (forall x :: Find(p, x) == None) && forall i :: 0 <= i < |items| ==> items[i].op.Insert?
    ensures Find(Fill(p, items, 0).page, k[p.prefixLen..]) == Lookup(m, k)
  {
    FillApplied(p, items, 0, k);
    if k in m {
      var i :| 0 <= i < |items| && items[i].key == k;
      AppliedOnce(items, k, None, p.base, i);
    } else {
      AppliedOnce(items, k, None, p.base, |items|);
    }
  }
}
