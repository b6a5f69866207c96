/** Range scans over the stored tree.

    Going to the next leaf is a descent of the tree as it then stands.  On the way, and on arrival, the scan
    reorganises pages: evictions when the buffer is full, splits of inner nodes, the merge of a mini page --
    with a split of the leaf when it does not fit, after which the descent starts over -- and promotion to a
    full page.  Which of these happen is left open (`*`); no other writer is about. */
module ScanTree {
  import opened Bytes
  import opened TreeShape
  import opened LeafCache
  import opened Snapshot
  import opened Scan
  import opened ScanStore

  /** The tree with its pages, as the scan finds and leaves it. */
  class StoredTree {
    ghost const live: map<Key, Value>
    const gv: nat
    var st: Store

    ghost predicate Valid()
      reads this
    {
      Holds(st, gv, live)
    }

    constructor (store: Store, version: nat, ghost records: map<Key, Value>)
      requires Holds(store, version, records)
      ensures Valid() && st == store && live == records
    {
      live, gv, st := records, version, store;
    }

    method Tidy(p: nat, how: Reorg, ghost b: Bound)
      requires Valid() && p in st.pages && st.now.root != LeafRef(p) && CanReorg(st.pages[p], how)
      modifies this
      ensures Valid() && st == Tidied(old(st), p, how)
      ensures Work(st, b) <= old(Work(st, b)) && |Minis(st)| <= old(|Minis(st)|)
    {
      TidyHolds(st, gv, live, p, how, b);
      Fewer(Minis(Tidied(st, p, how)), Minis(st));
      st := Tidied(st, p, how);
    }

    /** Anything that may happen to pages and inner nodes elsewhere: an eviction, a move, a write-back, a split
        of an inner node. */
    method Tinker(ghost b: Bound)
      requires Valid()
      modifies this
      ensures Valid() && Work(st, b) <= old(Work(st, b)) && |Minis(st)| <= old(|Minis(st)|)
    {
      var p: nat, how: Reorg, e: Effect := *, *, *;
      if p in st.pages && st.now.root != LeafRef(p) && CanReorg(st.pages[p], how) {
        Tidy(p, how, b);
      } else if (e.SplitInner? || e.SplitRootInner?) && Enabled(st.now, e) && CanStore(Resting(gv), st, e, Split) {
        InnerCutHolds(st, gv, live, e, b);
        st := Stored(Resting(gv), st, e, Split);
      }
    }

    /** Any number of times. */
    method Churn(ghost b: Bound)
      requires Valid()
      modifies this
      ensures Valid() && Work(st, b) <= old(Work(st, b)) && |Minis(st)| <= old(|Minis(st)|)
    {
      var n: nat :| n >= 0;
      for i := 0 to n
        invariant Valid() && Work(st, b) <= old(Work(st, b)) && |Minis(st)| <= old(|Minis(st)|)
      {
        Tinker(b);
      }
    }

    /** The merge of a mini page: into the base page, or with a split of the leaf.  False when it has split. */
    method MergeMini(p: nat, ghost b: Bound) returns (ok: bool)
      requires Valid() && p in st.pages && st.pages[p].loc.AtMini?
      modifies this
      ensures Valid() && Work(st, b) <= old(Work(st, b))
      ensures ok ==> st.now == old(st.now) && p in st.pages && !st.pages[p].loc.AtMini?
      ensures !ok ==> |Minis(st)| < old(|Minis(st)|)
    {
      var n: nat, at: Key := *, *;
      if Enabled(st.now, SplitLeaf(n, p, st.next, at)) && CanStore(Resting(gv), st, SplitLeaf(n, p, st.next, at), Split) {
        LeafCutHolds(st, gv, live, n, p, at, b);
        st := Stored(Resting(gv), st, SplitLeaf(n, p, st.next, at), Split);
        return false;
      }
      Tidy(p, Merge, b);
      ok := true;
    }

    /** `promote_or_merge_mini_page` and the choice before it. */
    method Prepare(p: nat, ghost b: Bound) returns (ok: bool)
      requires Valid() && p in st.pages
      modifies this
      ensures Valid() && Work(st, b) <= old(Work(st, b))
      ensures ok ==> st.now == old(st.now) && p in st.pages && !st.pages[p].loc.AtMini?
      ensures !ok ==> |Minis(st)| < old(|Minis(st)|)
    {
      ok := true;
      if st.pages[p].loc.AtMini? { ok := MergeMini(p, b); }
      var promote: bool, size: nat := *, *;
      if ok && promote && st.pages[p].loc.AtBase? && st.now.root != LeafRef(p) { Tidy(p, Promote(size), b); }
    }

    /** One descent; true when the leaf that owns the key is ready for reading. */
    method Attempt(key: Key) returns (ready: bool, p: nat)
      requires Valid()
      modifies this
      ensures Valid() && Work(st, At(key)) <= old(Work(st, At(key)))
      ensures ready ==> p == Route(st.now, st.now.root, key) && p in st.pages && !st.pages[p].loc.AtMini?
      ensures !ready ==> |Minis(st)| < old(|Minis(st)|)
    {
      Churn(At(key));
      p := Route(st.now, st.now.root, key);
      ready := Prepare(p, At(key));
    }

    /** The descent with its retries. */
    method Descend(key: Key) returns (p: nat)
      requires Valid()
      modifies this
      ensures Valid() && Work(st, At(key)) <= old(Work(st, At(key)))
      ensures p == Route(st.now, st.now.root, key) && p in st.pages && !st.pages[p].loc.AtMini?
    {
      var ready;
      ready, p := Attempt(key);
      while !ready
        invariant Valid() && Work(st, At(key)) <= old(Work(st, At(key)))
        invariant ready ==> p == Route(st.now, st.now.root, key) && p in st.pages && !st.pages[p].loc.AtMini?
        decreases !ready, |Minis(st)|
      {
        ready, p := Attempt(key);
      }
    }

    /** `move_cursor_to_leaf`: the view of that leaf, and the place of the first record not below the key. */
    method Settle(key: Key) returns (view: View, pos: nat)
      requires Valid()
      modifies this
      ensures Valid() && ViewOk(live, view) && Within(key, view.lo, view.hi) && Landed(view.rows, key, pos)
      ensures Work(st, view.hi) < old(Work(st, At(key)))
    {
      var p := Descend(key);
      var rows := SlotsOf(Shown(st.pages[p]));
      SettledView(st, gv, live, key, rows);
      LandingWorks(st, gv, key);
      view := View(st.now.leaves[p].lo, st.now.leaves[p].hi, rows);
      pos := RowAtLeast(rows, key);
    }
  }

  class ScanIter {
    const tree: StoredTree
    ghost const start: Key
    ghost const limit: nat
    const endKey: Option<Key>
    var count: nat
    var view: View
    var pos: nat
    ghost var out: seq<Pair>

    /** Everything live from the start key up to the cursor has been returned, in order, and nothing else. */
    ghost predicate CursorOk()
      reads this
    {
      ScanOk(tree.live, start, limit, endKey, count, view, pos, out)
    }

    ghost predicate Valid()
      reads this, tree
    {
      tree.Valid() && CursorOk()
    }

    /** All that the scan was asked for, and nothing else. */
    ghost predicate Complete()
      reads this
    {
      AllOf(tree.live, start, endKey, out)
    }

    /** `new_with_scan_count` and `new_with_end_key`. */
    constructor (t: StoredTree, key: Key, n: nat, end: Option<Key>)
      requires t.Valid()
      modifies t
      ensures Valid() && tree == t && start == key && limit == n && endKey == end && out == []
    {
      var v, p := t.Settle(key);
      StartOk(t.live, key, n, end, v, p);
      tree, start, limit, endKey := t, key, n, end;
      count, view, pos, out := n, v, p, [];
    }

    // ---- one leaf ----------------------------------------------------------------------------------

    /** Deleted records are passed over. */
    method PassDeleted()
      requires CursorOk()
      modifies this`pos
      ensures CursorOk() && old(pos) <= pos && (pos < |view.rows| ==> !view.rows[pos].rec.op.Absent())
    {
      while pos < |view.rows| && view.rows[pos].rec.op.Absent()
        invariant CursorOk() && old(pos) <= pos
        decreases |view.rows| - pos
      {
        SkipOk(tree.live, start, limit, endKey, count, view, pos, out);
        pos := pos + 1;
      }
    }

    /** The live record at the cursor is returned. */
    method Take() returns (r: Yield)
      requires CursorOk() && pos < |view.rows| && !view.rows[pos].rec.op.Absent() && (endKey.None? ==> count > 0)
      requires endKey.Some? ==> Le(view.rows[pos].key, endKey.value)
      modifies this`pos, this`count, this`out
      ensures CursorOk() && r.Found? && out == old(out) + [Pair(r.key, r.value)]
    {
      TakeOk(tree.live, start, limit, endKey, count, view, pos, out);
      r := Found(view.rows[pos].key, view.rows[pos].rec.value);
      out := out + [Pair(r.key, r.value)];
      pos := pos + 1;
      count := if count > 0 then count - 1 else 0;
    }

    /** `next` as far as the current leaf goes; at its end it names the key to continue from. */
    method Step() returns (r: Yield)
      requires CursorOk()
      modifies this`pos, this`count, this`out
      ensures CursorOk()
      ensures r.Found? ==> out == old(out) + [Pair(r.key, r.value)]
      ensures !r.Found? ==> out == old(out)
      ensures r.Finished? ==> (endKey.None? && |out| == limit) || Complete()
      ensures r.GoTo? ==> pos == |view.rows| && view.hi == At(r.key)
    {
      if count == 0 && endKey.None? { return Finished; }
      PassDeleted();
      if pos == |view.rows| {
        if view.hi != Inf { return GoTo(view.hi.key); }
        LastLeaf(tree.live, start, limit, endKey, count, view, pos, out);
        if endKey.Some? { count := 0; }
        return Finished;
      }
      if endKey.Some? && Lt(endKey.value, view.rows[pos].key) {
        EndPassed(tree.live, start, limit, endKey, count, view, pos, out);
        count := 0;
        return Finished;
      }
      r := Take();
    }

    // ---- from leaf to leaf -------------------------------------------------------------------------

    /** On to the leaf that now owns the old high fence. */
    method Land(key: Key)
      requires tree.Valid() && CursorOk() && pos == |view.rows| && view.hi == At(key)
      modifies this`view, this`pos, tree
      ensures tree.Valid() && CursorOk() && Work(tree.st, view.hi) < old(Work(tree.st, view.hi))
    {
      var v, p := tree.Settle(key);
      Arrive(key, v, p);
    }

    method Arrive(key: Key, v: View, p: nat)
      requires CursorOk() && pos == |view.rows| && view.hi == At(key)
      requires ViewOk(tree.live, v) && Within(key, v.lo, v.hi) && Landed(v.rows, key, p)
      modifies this`view, this`pos
      ensures CursorOk() && view == v
    {
      LandOk(tree.live, start, limit, endKey, count, view, pos, out, key, v, p);
      view, pos := v, p;
    }

    /** `next`: through as many leaves as it takes. */
    method Next() returns (r: Yield)
      requires Valid()
      modifies this, tree
      ensures Valid() && !r.GoTo?
      ensures r.Found? ==> out == old(out) + [Pair(r.key, r.value)]
      ensures r.Finished? ==> out == old(out) && ((endKey.None? && |out| == limit) || Complete())
    {
      r := Step();
      while r.GoTo?
        invariant Valid()
        invariant r.Found? ==> out == old(out) + [Pair(r.key, r.value)]
        invariant !r.Found? ==> out == old(out)
        invariant r.Finished? ==> (endKey.None? && |out| == limit) || Complete()
        invariant r.GoTo? ==> pos == |view.rows| && view.hi == At(r.key)
        decreases r.GoTo?, Work(tree.st, view.hi)
      {
        Land(r.key);
        r := Step();
      }
    }
  }

  /** A scan from beginning to end.  Whatever it merges, promotes or splits on its way, it returns the least
      live records from the start key in order: as many as were asked for, or all there are up to the end
      key. */
  method ScanAll(t: StoredTree, key: Key, n: nat, end: Option<Key>) returns (all: seq<Pair>)
    requires t.Valid()
    modifies t
    ensures t.Valid() && LeastOf(t.live, key, all)
    ensures (end.None? && |all| == n) || AllOf(t.live, key, end, all)
    ensures end.None? ==> |all| <= n
  {
    var it := new ScanIter(t, key, n, end);
    all := [];
    var more := true;
    while more
      invariant fresh(it) && it.tree == t && it.start == key && it.limit == n && it.endKey == end && it.out == all && it.Valid()
      invariant |all| <= |t.live| && (!more ==> (end.None? && |all| == n) || AllOf(t.live, key, end, all))
      decreases more, |t.live| - |all|
    {
      var r := it.Next();
      if r.Found? { all := all + [Pair(r.key, r.value)]; } else { more := false; }
      PairsFit(t.live, all);
    }
    ListedIsLeast(t.live, key, Frontier(it.view, it.pos), all);
  }
}
