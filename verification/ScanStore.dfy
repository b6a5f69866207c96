/** What a scan does to the stored tree on its way: evictions and moves, merges, promotions, splits.  All of it
    keeps every read, and none of it makes the scan longer than the work it takes away. */
module ScanStore {
  import opened Bytes
  import opened TreeShape
  import opened TreeSplits
  import opened EffectFrames
  import opened LeafCache
  import opened Snapshot
  import opened SnapshotStore
  import opened SnapshotRuns
  import opened Scan
  import H = Handshake

  // ---- records lie in the range of their leaf ------------------------------------------------------

  predicate KeysWithin(recs: Recs, lo: Key, hi: Bound) { forall k :: k in recs ==> Within(k, lo, hi) }

  /** Deletion marks included, unlike what reads can tell. */
  predicate PageWithin(p: Page, lo: Key, hi: Bound) {
    KeysWithin(p.base.recs, lo, hi) && (!p.loc.AtBase? ==> KeysWithin(p.loc.c.recs, lo, hi))
  }

  predicate Ranged(st: Store)
    requires Keyed(st)
  {
    forall p :: p in st.pages ==> PageWithin(st.pages[p], st.now.leaves[p].lo, st.now.leaves[p].hi)
  }

  /** The stored tree holds exactly the live records. */
  ghost predicate Holds(st: Store, gv: nat, live: map<Key, Value>) {
    StoreOk(st, gv) && Ranged(st) && forall k {:trigger Get(st.now, k)} :: Get(st.now, k) == Lookup(live, k)
  }

  lemma ReorgWithin(p: Page, how: Reorg, lo: Key, hi: Bound)
    requires PageWithin(p, lo, hi) && CanReorg(p, how)
    ensures PageWithin(Reorganise(p, how), lo, hi)
  {
  }

  lemma HalfWithin(p: Page, key: Key, left: bool, version: nat, lo: Key, hi: Bound)
    requires PageWithin(p, lo, hi) && !p.loc.AtFull?
    ensures PageWithin(Half(p, key, left, version), if left then lo else key, if left then At(key) else hi)
  {
  }

  // ---- how much is left to do ----------------------------------------------------------------------

  function Minis(st: Store): set<nat> { set p | p in st.pages && st.pages[p].loc.AtMini? }

  predicate Above(b: Bound, c: Bound) { b != Inf && (c == Inf || Lt(b.key, c.key)) }

  /** Leaves that end beyond `b`. */
  function Ahead(st: Store, b: Bound): set<nat> { set p | p in st.now.leaves && Above(b, st.now.leaves[p].hi) }

  /** A split adds a leaf and uses up a mini page. */
  function Work(st: Store, b: Bound): nat { |Ahead(st, b)| + |Minis(st)| }

  lemma Fewer<T>(a: set<T>, b: set<T>)
    requires a <= b
    ensures |a| <= |b| && (forall x :: x in b && x !in a ==> |a| < |b|)
  {
    assert b == a + (b - a);
  }

  // ---- the steps -----------------------------------------------------------------------------------

  /** The guard of an operation outside any snapshot. */
  function Resting(gv: nat): H.Stamp { H.Stamp(H.Rest, gv) }

  function Tidied(st: Store, p: nat, how: Reorg): Store
    requires p in st.pages && CanReorg(st.pages[p], how)
  {
    st.(pages := st.pages[p := Reorganise(st.pages[p], how)])
  }

  /** A reorganisation: the same tree, no more mini pages, and one fewer if it was a merge. */
  lemma TidyHolds(st: Store, gv: nat, live: map<Key, Value>, p: nat, how: Reorg, b: Bound)
    requires Holds(st, gv, live) && p in st.pages && st.now.root != LeafRef(p) && CanReorg(st.pages[p], how)
    ensures Holds(Tidied(st, p, how), gv, live) && Work(Tidied(st, p, how), b) <= Work(st, b)
    ensures Minis(Tidied(st, p, how)) <= Minis(st)
  {
    TidyKeepsStore(st, gv, p, how);
    ReorgWithin(st.pages[p], how, st.now.leaves[p].lo, st.now.leaves[p].hi);
    Fewer(Minis(Tidied(st, p, how)), Minis(st));
    assert Ahead(Tidied(st, p, how), b) == Ahead(st, b);
  }

  /** Splits of inner nodes on the way down. */
  lemma InnerCutHolds(st: Store, gv: nat, live: map<Key, Value>, e: Effect, b: Bound)
    requires Holds(st, gv, live) && (e.SplitInner? || e.SplitRootInner?) && Enabled(st.now, e) && CanStore(Resting(gv), st, e, Split)
    ensures var st' := Stored(Resting(gv), st, e, Split);
      Holds(st', gv, live) && Work(st', b) == Work(st, b) && Minis(st') == Minis(st)
  {
    CommitKeepsStore(Resting(gv), gv, st, e, Split);
    InnerCutFrame(st, gv, e);
    SameLeavesHold(st, Stored(Resting(gv), st, e, Split), gv, live, b);
  }

  lemma SameLeavesHold(st: Store, st': Store, gv: nat, live: map<Key, Value>, b: Bound)
    requires Holds(st, gv, live) && StoreOk(st', gv) && st'.now.leaves == st.now.leaves && st'.pages == st.pages
    ensures Holds(st', gv, live) && Work(st', b) == Work(st, b) && Minis(st') == Minis(st)
  {
    assert Ahead(st', b) == Ahead(st, b) && Minis(st') == Minis(st);
    forall k ensures Get(st'.now, k) == Get(st.now, k) { SameLeavesRead(st.now, st'.now, k); }
  }

  lemma InnerCutFrame(st: Store, gv: nat, e: Effect)
    requires (e.SplitInner? || e.SplitRootInner?) && Enabled(st.now, e) && CanStore(Resting(gv), st, e, Split)
    ensures var st' := Stored(Resting(gv), st, e, Split); st'.now.leaves == st.now.leaves && st'.pages == st.pages
  {
  }

  /** The merge that splits: one more leaf, one mini page fewer. */
  lemma LeafCutHolds(st: Store, gv: nat, live: map<Key, Value>, n: nat, p: nat, at: Key, b: Bound)
    requires var e := SplitLeaf(n, p, st.next, at);
      Holds(st, gv, live) && Enabled(st.now, e) && CanStore(Resting(gv), st, e, Split)
    ensures var st' := Stored(Resting(gv), st, SplitLeaf(n, p, st.next, at), Split);
      Holds(st', gv, live) && Work(st', b) <= Work(st, b) && |Minis(st')| < |Minis(st)|
  {
    var e := SplitLeaf(n, p, st.next, at);
    var st' := Stored(Resting(gv), st, e, Split);
    CommitKeepsStore(Resting(gv), gv, st, e, Split);
    ApplyKeepsWF(st.now, e);
    LeafCutRanged(st, gv, n, p, at);
    LeafCutWork(st, gv, n, p, at, b);
  }

  lemma LeafCutRanged(st: Store, gv: nat, n: nat, p: nat, at: Key)
    requires var e := SplitLeaf(n, p, st.next, at);
      Keyed(st) && Ranged(st) && Enabled(st.now, e) && CanStore(Resting(gv), st, e, Split) && Keyed(Stored(Resting(gv), st, e, Split))
    ensures Ranged(Stored(Resting(gv), st, SplitLeaf(n, p, st.next, at), Split))
  {
    var l := st.now.leaves[p];
    HalfWithin(st.pages[p], at, true, gv, l.lo, l.hi);
    HalfWithin(st.pages[p], at, false, gv, l.lo, l.hi);
  }

  lemma LeafCutWork(st: Store, gv: nat, n: nat, p: nat, at: Key, b: Bound)
    requires var e := SplitLeaf(n, p, st.next, at); Keyed(st) && Enabled(st.now, e) && CanStore(Resting(gv), st, e, Split)
    ensures var st' := Stored(Resting(gv), st, SplitLeaf(n, p, st.next, at), Split);
      Work(st', b) <= Work(st, b) && |Minis(st')| < |Minis(st)|
  {
    var st' := Stored(Resting(gv), st, SplitLeaf(n, p, st.next, at), Split);
    assert Minis(st') == Minis(st) - {p};
    forall x | x in Ahead(st', b) ensures x in Ahead(st, b) + {st.next} {
      if x == p && b != Inf && st.now.leaves[p].hi != Inf { LtTransitive(b.key, at, st.now.leaves[p].hi.key); }
    }
    Fewer(Ahead(st', b), Ahead(st, b) + {st.next});
  }

  // ---- the view of a settled leaf ------------------------------------------------------------------

  /** The page's own records: a scan never reads a mini page over a base page. */
  function Shown(p: Page): Recs { if p.loc.AtFull? then p.loc.c.recs else p.base.recs }

  /** `rows` are the records of the keys `ks`, in key order. */
  predicate Lists(recs: Recs, ks: set<Key>, rows: seq<Row>) {
    && RowsRise(rows) && (forall i :: 0 <= i < |rows| ==> rows[i].key in ks && rows[i].key in recs && rows[i].rec == recs[rows[i].key])
    && forall k :: k in ks ==> exists i :: 0 <= i < |rows| && rows[i].key == k
  }

  lemma RowFits(rows: seq<Row>, row: Row, at: nat)
    requires RowsRise(rows) && at <= |rows|
    requires (forall i :: 0 <= i < at ==> Lt(rows[i].key, row.key)) && forall i :: at <= i < |rows| ==> Lt(row.key, rows[i].key)
    ensures RowsRise(rows[..at] + [row] + rows[at..])
  {
  }

  lemma ListOneMore(recs: Recs, ks: set<Key>, rows: seq<Row>, k: Key, at: nat)
    requires Lists(recs, ks, rows) && k in recs && k !in ks && Landed(rows, k, at)
    ensures Lists(recs, ks + {k}, rows[..at] + [Row(k, recs[k])] + rows[at..])
  {
    var rows' := rows[..at] + [Row(k, recs[k])] + rows[at..];
    forall i | at <= i < |rows| ensures Lt(k, rows[i].key) { LtTotal(k, rows[i].key); }
    RowFits(rows, Row(k, recs[k]), at);
    forall x | x in ks + {k} ensures exists i :: 0 <= i < |rows'| && rows'[i].key == x {
      if x == k {
        assert rows'[at].key == x;
      } else {
        var i :| 0 <= i < |rows| && rows[i].key == x;
        assert rows'[if i < at then i else i + 1].key == x;
      }
    }
  }

  /** A page's records as its slots have them, in key order. */
  method SlotsOf(recs: Recs) returns (rows: seq<Row>)
    ensures Lists(recs, recs.Keys, rows)
  {
    rows := [];
    var rest := recs.Keys;
    while rest != {}
      invariant rest <= recs.Keys && Lists(recs, recs.Keys - rest, rows)
      decreases |rest|
    {
      var k :| k in rest;
      var at := RowAtLeast(rows, k);
      ListOneMore(recs, recs.Keys - rest, rows, k, at);
      assert recs.Keys - (rest - {k}) == recs.Keys - rest + {k};
      rows := rows[..at] + [Row(k, recs[k])] + rows[at..];
      rest := rest - {k};
    }
    assert recs.Keys - {} == recs.Keys;
  }

  /** A settled leaf gives a faithful view of its range. */
  lemma SettledView(st: Store, gv: nat, live: map<Key, Value>, key: Key, rows: seq<Row>)
    requires Holds(st, gv, live)
    requires var p := Route(st.now, st.now.root, key);
      p in st.pages && !st.pages[p].loc.AtMini? && Lists(Shown(st.pages[p]), Shown(st.pages[p]).Keys, rows)
    ensures var l := st.now.leaves[Route(st.now, st.now.root, key)];
      ViewOk(live, View(l.lo, l.hi, rows)) && Within(key, l.lo, l.hi)
  {
    var p := Route(st.now, st.now.root, key);
    var page := st.pages[p];
    assert Shows(page, st.now.leaves[p]) && PageWithin(page, st.now.leaves[p].lo, st.now.leaves[p].hi);
    forall k ensures Look(page, k) == RecGet(Shown(page), k) { }
    ViewFromTree(st.now, live, key, page, rows);
  }

  /** The leaf that owns a key is ahead of it, and not ahead of its own end. */
  lemma LandingWorks(st: Store, gv: nat, key: Key)
    requires StoreOk(st, gv)
    ensures Work(st, st.now.leaves[Route(st.now, st.now.root, key)].hi) < Work(st, At(key))
  {
    RouteOwns(st.now, key);
    var p := Route(st.now, st.now.root, key);
    var hi := st.now.leaves[p].hi;
    if hi != Inf { LtTotal(hi.key, hi.key); }
    forall x | x in Ahead(st, hi) ensures x in Ahead(st, At(key)) {
      if st.now.leaves[x].hi != Inf { LtTransitive(key, hi.key, st.now.leaves[x].hi.key); }
    }
    assert p in Ahead(st, At(key)) && p !in Ahead(st, hi);
    Fewer(Ahead(st, hi), Ahead(st, At(key)));
  }
}
