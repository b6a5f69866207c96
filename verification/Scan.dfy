/** What a range scan has returned so far, and how it goes on: row by row through a leaf, then to the leaf at
    the high fence. */
module Scan {
  import opened Bytes
  import opened TreeShape
  import opened LeafCache

  datatype Row = Row(key: Key, rec: Rec)

  /** A locked leaf: its range and its records in order, deleted ones included. */
  datatype View = View(lo: Key, hi: Bound, rows: seq<Row>)

  predicate RowsRise(rows: seq<Row>) { forall i, j :: 0 <= i < j < |rows| ==> Lt(rows[i].key, rows[j].key) }

  function Lookup(live: map<Key, Value>, k: Key): Option<Value> { if k in live then Some(live[k]) else None }

  /** Within its range the leaf has exactly the live records. */
  ghost predicate ViewOk(live: map<Key, Value>, v: View) {
    && RowsRise(v.rows) && (forall i :: 0 <= i < |v.rows| ==> Within(v.rows[i].key, v.lo, v.hi))
    && (forall i :: 0 <= i < |v.rows| ==> AsOption(v.rows[i].rec) == Lookup(live, v.rows[i].key))
    && (forall k :: k in live && Within(k, v.lo, v.hi) ==> exists i :: 0 <= i < |v.rows| && v.rows[i].key == k)
  }

  /** The view a well-formed tree gives for a key, whatever page the leaf is stored in. */
  lemma ViewFromTree(t: Tree, live: map<Key, Value>, key: Key, page: Page, rows: seq<Row>)
    requires WF(t) && forall k {:trigger Get(t, k)} :: Get(t, k) == Lookup(live, k)
    requires var p := Route(t, t.root, key);
      (forall k :: Look(page, k) == LeafGet(t.leaves[p], k)) && RowsRise(rows) &&
      (forall i :: 0 <= i < |rows| ==> Within(rows[i].key, t.leaves[p].lo, t.leaves[p].hi) && AsOption(rows[i].rec) == Look(page, rows[i].key)) &&
      (forall k :: Look(page, k).Some? ==> exists i :: 0 <= i < |rows| && rows[i].key == k)
    ensures var p := Route(t, t.root, key);
      var v := View(t.leaves[p].lo, t.leaves[p].hi, rows);
      ViewOk(live, v) && Within(key, v.lo, v.hi)
  {
    RouteOwns(t, key);
    var p := Route(t, t.root, key);
    forall k | Within(k, t.leaves[p].lo, t.leaves[p].hi) ensures Look(page, k) == Lookup(live, k) { OwnerReads(t, p, k); }
  }

  // ---- what has been returned ----------------------------------------------------------------------

  datatype Pair = Pair(key: Key, value: Value)

  predicate PairsRise(out: seq<Pair>) { forall i, j :: 0 <= i < j < |out| ==> Lt(out[i].key, out[j].key) }

  /** `out` lists exactly the live records from `start` up to the frontier, in order. */
  ghost predicate Listed(live: map<Key, Value>, start: Key, frontier: Bound, out: seq<Pair>) {
    && PairsRise(out)
    && (forall i :: 0 <= i < |out| ==> out[i].key in live && live[out[i].key] == out[i].value && Le(start, out[i].key) && Below(out[i].key, frontier))
    && (forall k :: k in live && Le(start, k) && Below(k, frontier) ==> exists i :: 0 <= i < |out| && out[i].key == k)
  }

  function Frontier(v: View, pos: nat): Bound { if pos < |v.rows| then At(v.rows[pos].key) else v.hi }

  predicate AtLeast(b: Bound, c: Bound) { c == Inf || (b != Inf && Le(b.key, c.key)) }

  /** No live record lies from the frontier `f` up to `g`: the list is the same for both. */
  lemma FrontierMoves(live: map<Key, Value>, start: Key, f: Bound, g: Bound, out: seq<Pair>)
    requires Listed(live, start, f, out) && AtLeast(f, g)
    requires forall k :: k in live && Below(k, g) ==> Below(k, f)
    ensures Listed(live, start, g, out)
  {
    forall i | 0 <= i < |out| ensures Below(out[i].key, g) {
      if g != Inf {
        LtTotal(f.key, g.key);
        if Lt(f.key, g.key) { LtTransitive(out[i].key, f.key, g.key); }
      }
    }
  }

  /** The record at the frontier joins the list. */
  lemma FrontierTaken(live: map<Key, Value>, start: Key, k: Key, g: Bound, out: seq<Pair>)
    requires Listed(live, start, At(k), out) && k in live && Le(start, k) && Below(k, g)
    requires forall x :: x in live && Below(x, g) ==> Lt(x, k) || x == k
    ensures Listed(live, start, g, out + [Pair(k, live[k])])
  {
    TakenBelow(live, start, k, g, out);
    TakenComplete(live, start, k, g, out);
  }

  lemma TakenBelow(live: map<Key, Value>, start: Key, k: Key, g: Bound, out: seq<Pair>)
    requires Listed(live, start, At(k), out) && Below(k, g)
    ensures forall i :: 0 <= i < |out| ==> Below(out[i].key, g)
  {
    forall i | 0 <= i < |out| ensures Below(out[i].key, g) {
      if g != Inf { LtTransitive(out[i].key, k, g.key); }
    }
  }

  lemma TakenComplete(live: map<Key, Value>, start: Key, k: Key, g: Bound, out: seq<Pair>)
    requires Listed(live, start, At(k), out) && k in live
    requires forall x :: x in live && Below(x, g) ==> Lt(x, k) || x == k
    ensures var out' := out + [Pair(k, live[k])];
      forall x :: x in live && Le(start, x) && Below(x, g) ==> exists i :: 0 <= i < |out'| && out'[i].key == x
  {
    var out' := out + [Pair(k, live[k])];
    forall x | x in live && Le(start, x) && Below(x, g) ensures exists i :: 0 <= i < |out'| && out'[i].key == x {
      if x == k {
        assert out'[|out|].key == x;
      } else {
        var i :| 0 <= i < |out| && out[i].key == x;
        assert out'[i].key == x;
      }
    }
  }

  /** Past row `pos` there is nothing live before the next row. */
  lemma NothingBetween(live: map<Key, Value>, v: View, pos: nat, k: Key)
    requires ViewOk(live, v) && pos < |v.rows| && k in live && Below(k, Frontier(v, pos + 1))
    ensures Lt(k, v.rows[pos].key) || k == v.rows[pos].key
  {
    LtTotal(k, v.rows[pos].key);
    if Lt(v.rows[pos].key, k) { BetweenRows(live, v, pos, k); }
  }

  lemma BetweenRows(live: map<Key, Value>, v: View, pos: nat, k: Key)
    requires ViewOk(live, v) && pos < |v.rows| && Below(k, Frontier(v, pos + 1)) && Lt(v.rows[pos].key, k)
    ensures k !in live
  {
    Order();
    assert Within(v.rows[pos].key, v.lo, v.hi);
    assert pos + 1 < |v.rows| ==> Within(v.rows[pos + 1].key, v.lo, v.hi);
    assert Within(k, v.lo, v.hi);
    forall i | 0 <= i < |v.rows| ensures v.rows[i].key != k {
      assert i < pos || i == pos || i == pos + 1 || pos + 1 < i;
    }
  }

  lemma FrontierRises(v: View, pos: nat)
    requires RowsRise(v.rows) && pos < |v.rows| && Within(v.rows[pos].key, v.lo, v.hi)
    ensures Below(v.rows[pos].key, Frontier(v, pos + 1))
  {
  }

  // ---- the iterator --------------------------------------------------------------------------------

  datatype Yield = Found(key: Key, value: Value) | Finished | GoTo(key: Key)

  /** Everything live from the start key up to the cursor has been returned, in order, and nothing else. */
  ghost predicate ScanOk(live: map<Key, Value>, start: Key, limit: nat, endKey: Option<Key>, count: nat, view: View, pos: nat, out: seq<Pair>) {
    && ViewOk(live, view) && pos <= |view.rows| && Listed(live, start, Frontier(view, pos), out)
    && (forall i :: pos <= i < |view.rows| ==> Le(start, view.rows[i].key)) && (view.hi != Inf ==> Le(start, view.hi.key))
    && (endKey.None? ==> |out| + count == limit)
    && (endKey.Some? ==> forall i :: 0 <= i < |out| ==> Le(out[i].key, endKey.value))
  }

  lemma SkipOk(live: map<Key, Value>, start: Key, limit: nat, endKey: Option<Key>, count: nat, view: View, pos: nat, out: seq<Pair>)
    requires ScanOk(live, start, limit, endKey, count, view, pos, out) && pos < |view.rows| && view.rows[pos].rec.op.Absent()
    ensures ScanOk(live, start, limit, endKey, count, view, pos + 1, out)
  {
    SkipRow(live, view, start, pos, out);
  }

  lemma TakeOk(live: map<Key, Value>, start: Key, limit: nat, endKey: Option<Key>, count: nat, view: View, pos: nat, out: seq<Pair>)
    requires ScanOk(live, start, limit, endKey, count, view, pos, out) && pos < |view.rows| && !view.rows[pos].rec.op.Absent()
    requires (endKey.None? ==> count > 0) && (endKey.Some? ==> Le(view.rows[pos].key, endKey.value))
    ensures ScanOk(live, start, limit, endKey, if count > 0 then count - 1 else 0, view, pos + 1,
                   out + [Pair(view.rows[pos].key, view.rows[pos].rec.value)])
  {
    TakeRow(live, view, start, pos, out);
  }

  lemma HighRises(start: Key, key: Key, hi: Bound)
    requires Le(start, key) && Below(key, hi)
    ensures hi != Inf ==> Le(start, hi.key)
  {
    if hi != Inf { Order(); }
  }

  /** The cursor of a scan that has just landed: at the first row not below the key. */
  predicate Landed(rows: seq<Row>, key: Key, p: nat) {
    p <= |rows| && (forall i :: 0 <= i < p ==> Lt(rows[i].key, key)) && forall i :: p <= i < |rows| ==> Le(key, rows[i].key)
  }

  /** `lower_bound` on the rows. */
  method RowAtLeast(rows: seq<Row>, key: Key) returns (p: nat)
    requires RowsRise(rows)
    ensures Landed(rows, key, p)
  {
    p := 0;
    while p < |rows| && Lt(rows[p].key, key)
      invariant p <= |rows| && forall i :: 0 <= i < p ==> Lt(rows[i].key, key)
    {
      p := p + 1;
    }
    forall i | p <= i < |rows| ensures Le(key, rows[i].key) { Order(); }
  }

  /** Nothing live lies between the key a scan lands on and its first row. */
  lemma LandingGap(live: map<Key, Value>, v: View, key: Key, p: nat, k: Key)
    requires ViewOk(live, v) && Within(key, v.lo, v.hi) && Landed(v.rows, key, p)
    requires k in live && Below(k, Frontier(v, p))
    ensures Lt(k, key)
  {
    Order();
    if Le(key, k) {
      assert p < |v.rows| ==> Within(v.rows[p].key, v.lo, v.hi);
      assert Within(k, v.lo, v.hi);
    }
  }

  lemma LandingFrontier(live: map<Key, Value>, v: View, key: Key, p: nat)
    requires ViewOk(live, v) && Within(key, v.lo, v.hi) && Landed(v.rows, key, p)
    ensures Listed(live, key, Frontier(v, p), [])
  {
    forall k | k in live && Below(k, Frontier(v, p)) ensures Lt(k, key) { LandingGap(live, v, key, p, k); }
  }

  lemma LandingMoves(live: map<Key, Value>, start: Key, v: View, key: Key, p: nat, out: seq<Pair>)
    requires Listed(live, start, At(key), out) && ViewOk(live, v) && Within(key, v.lo, v.hi) && Landed(v.rows, key, p) && Le(start, key)
    ensures Listed(live, start, Frontier(v, p), out) && forall i :: p <= i < |v.rows| ==> Le(start, v.rows[i].key)
  {
    forall k | k in live && Below(k, Frontier(v, p)) ensures Lt(k, key) { LandingGap(live, v, key, p, k); }
    if Frontier(v, p) != Inf { LtTotal(key, Frontier(v, p).key); }
    FrontierMoves(live, start, At(key), Frontier(v, p), out);
    forall i | p <= i < |v.rows| ensures Le(start, v.rows[i].key) { Order(); }
  }

  lemma SkipRow(live: map<Key, Value>, v: View, start: Key, pos: nat, out: seq<Pair>)
    requires ViewOk(live, v) && pos < |v.rows| && v.rows[pos].rec.op.Absent() && Listed(live, start, Frontier(v, pos), out)
    ensures Listed(live, start, Frontier(v, pos + 1), out)
  {
    FrontierRises(v, pos);
    forall k | k in live && Below(k, Frontier(v, pos + 1)) ensures Lt(k, v.rows[pos].key) { NothingBetween(live, v, pos, k); }
    if Frontier(v, pos + 1) != Inf { LtTotal(v.rows[pos].key, Frontier(v, pos + 1).key); }
    FrontierMoves(live, start, At(v.rows[pos].key), Frontier(v, pos + 1), out);
  }

  lemma TakeRow(live: map<Key, Value>, v: View, start: Key, pos: nat, out: seq<Pair>)
    requires ViewOk(live, v) && pos < |v.rows| && !v.rows[pos].rec.op.Absent() && Listed(live, start, Frontier(v, pos), out)
    requires Le(start, v.rows[pos].key)
    ensures Listed(live, start, Frontier(v, pos + 1), out + [Pair(v.rows[pos].key, v.rows[pos].rec.value)])
  {
    FrontierRises(v, pos);
    var k := v.rows[pos].key;
    assert AsOption(v.rows[pos].rec) == Lookup(live, k);
    forall x | x in live && Below(x, Frontier(v, pos + 1)) ensures Lt(x, k) || x == k { NothingBetween(live, v, pos, x); }
    FrontierTaken(live, start, k, Frontier(v, pos + 1), out);
  }

  /** The end key lies below the frontier, so nothing up to it is missing. */
  lemma PastTheEnd(live: map<Key, Value>, start: Key, f: Key, end: Key, out: seq<Pair>)
    requires Listed(live, start, At(f), out) && Lt(end, f)
    ensures forall k :: k in live && Le(start, k) && Le(k, end) ==> exists i :: 0 <= i < |out| && out[i].key == k
  {
    forall k | k in live && Le(start, k) && Le(k, end) ensures exists i :: 0 <= i < |out| && out[i].key == k {
      Order();
      assert Lt(k, f);
    }
  }

  // ---- what a finished scan is ---------------------------------------------------------------------

  predicate Has(out: seq<Pair>, k: Key) { exists i :: 0 <= i < |out| && out[i].key == k }

  /** Everything asked for: every live record from the start key, up to the end key if one was given. */
  ghost predicate AllOf(live: map<Key, Value>, start: Key, endKey: Option<Key>, out: seq<Pair>) {
    forall k :: k in live && Le(start, k) && (endKey.Some? ==> Le(k, endKey.value)) <==> Has(out, k)
  }

  /** The least live records from the start key: nothing that was left out comes before anything listed. */
  ghost predicate LeastOf(live: map<Key, Value>, start: Key, out: seq<Pair>) {
    && PairsRise(out) && (forall i :: 0 <= i < |out| ==> out[i].key in live && live[out[i].key] == out[i].value && Le(start, out[i].key))
    && forall k, i :: k in live && Le(start, k) && !Has(out, k) && 0 <= i < |out| ==> Lt(out[i].key, k)
  }

  lemma ListedIsLeast(live: map<Key, Value>, start: Key, f: Bound, out: seq<Pair>)
    requires Listed(live, start, f, out)
    ensures LeastOf(live, start, out)
  {
    forall k, i | k in live && Le(start, k) && !Has(out, k) && 0 <= i < |out| ensures Lt(out[i].key, k) {
      assert !Below(k, f);
      Order();
    }
  }

  /** No more pairs than live records. */
  lemma {:induction false} PairsFit(live: map<Key, Value>, out: seq<Pair>)
    requires PairsRise(out) && forall i :: 0 <= i < |out| ==> out[i].key in live
    ensures |out| <= |live|
    decreases |out|
  {
    if out != [] {
      var last := out[|out| - 1].key;
      LtTotal(last, last);
      PairsFit(live - {last}, out[..|out| - 1]);
      assert live.Keys == (live - {last}).Keys + {last};
    }
  }

  /** At the end of the last leaf everything has been returned. */
  lemma LastLeaf(live: map<Key, Value>, start: Key, limit: nat, endKey: Option<Key>, count: nat, view: View, pos: nat, out: seq<Pair>)
    requires ScanOk(live, start, limit, endKey, count, view, pos, out) && pos == |view.rows| && view.hi == Inf
    ensures AllOf(live, start, endKey, out)
  {
  }

  /** Past the end key everything asked for has been returned. */
  lemma EndPassed(live: map<Key, Value>, start: Key, limit: nat, endKey: Option<Key>, count: nat, view: View, pos: nat, out: seq<Pair>)
    requires ScanOk(live, start, limit, endKey, count, view, pos, out) && pos < |view.rows|
    requires endKey.Some? && Lt(endKey.value, view.rows[pos].key)
    ensures AllOf(live, start, endKey, out)
  {
    PastTheEnd(live, start, view.rows[pos].key, endKey.value, out);
  }

  /** A scan starts with nothing returned. */
  lemma StartOk(live: map<Key, Value>, key: Key, n: nat, endKey: Option<Key>, view: View, pos: nat)
    requires ViewOk(live, view) && Within(key, view.lo, view.hi) && Landed(view.rows, key, pos)
    ensures ScanOk(live, key, n, endKey, n, view, pos, [])
  {
    LandingFrontier(live, view, key, pos);
    LtTotal(key, key);
    HighRises(key, key, view.hi);
  }

  /** It goes on from the old high fence in whatever leaf now owns it. */
  lemma LandOk(live: map<Key, Value>, start: Key, limit: nat, endKey: Option<Key>, count: nat, view: View, pos: nat, out: seq<Pair>,
               key: Key, v: View, p: nat)
    requires ScanOk(live, start, limit, endKey, count, view, pos, out) && pos == |view.rows| && view.hi == At(key)
    requires ViewOk(live, v) && Within(key, v.lo, v.hi) && Landed(v.rows, key, p)
    ensures ScanOk(live, start, limit, endKey, count, v, p, out)
  {
    LandingMoves(live, start, v, key, p, out);
    HighRises(start, key, v.hi);
  }
}
