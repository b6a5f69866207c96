/** De-duplicating the captured images when a snapshot is finalized.

    Each worker slot has its own lists of captured pages, the sweep has one more of each kind; the first
    image of a page wins, workers before the sweep.  The protocol's maps of captures stand for these lists;
    `SnapshotLogs` follows the lists along a run. */
module SnapshotFinalize {
  import opened TreeShape
  import opened LeafCache
  import opened Snapshot
  import opened SnapshotTheorems

  datatype Entry<T> = Entry(id: nat, image: T)

  /** The lists hold exactly the images of `m`. */
  ghost predicate Spells<T>(lists: seq<seq<Entry<T>>>, m: map<nat, T>) {
    && (forall i, a :: 0 <= i < |lists| && 0 <= a < |lists[i]| ==> lists[i][a].id in m && m[lists[i][a].id] == lists[i][a].image)
    && (forall id :: id in m ==> exists i, a :: 0 <= i < |lists| && 0 <= a < |lists[i]| && lists[i][a].id == id)
  }

  /** The first loop of finalize: the workers' lists, slot by slot. */
  method Collect<T>(lists: seq<seq<Entry<T>>>, ghost m: map<nat, T>) returns (unique: map<nat, T>)
    requires Spells(lists, m)
    ensures unique == m
  {
    unique := map[];
    for i := 0 to |lists|
      invariant forall id :: id in unique ==> id in m && unique[id] == m[id]
      invariant forall j, a :: 0 <= j < i && 0 <= a < |lists[j]| ==> lists[j][a].id in unique
    {
      for a := 0 to |lists[i]|
        invariant forall id :: id in unique ==> id in m && unique[id] == m[id]
        invariant forall j, b :: 0 <= j < i && 0 <= b < |lists[j]| ==> lists[j][b].id in unique
        invariant forall b :: 0 <= b < a ==> lists[i][b].id in unique
      {
        if lists[i][a].id !in unique { unique := unique[lists[i][a].id := lists[i][a].image]; }
      }
    }
    assert unique.Keys == m.Keys;
  }

  /** The second loop: a sweep entry counts only where no worker captured the page. */
  method AddSwept<T>(unique: map<nat, T>, list: seq<Entry<T>>, ghost m: map<nat, T>) returns (all: map<nat, T>)
    requires Spells([list], m)
    ensures all == m + unique
  {
    all := unique;
    for a := 0 to |list|
      invariant unique.Keys <= all.Keys
      invariant forall id :: id in all ==> id in m + unique && all[id] == (m + unique)[id]
      invariant forall b :: 0 <= b < a ==> list[b].id in all
    {
      assert [list][0][a].id in m && m[list[a].id] == list[a].image;
      if list[a].id !in all { all := all[list[a].id := list[a].image]; }
    }
    forall id | id in m ensures id in all {
      var i, a :| 0 <= i < |[list]| && 0 <= a < |[list][i]| && [list][i][a].id == id;
      assert list[a].id == id;
    }
    assert all.Keys == (m + unique).Keys;
  }

  function Minis(shots: map<nat, Shot>): map<nat, Cached> {
    map p | p in shots && shots[p].mini.Some? :: shots[p].mini.value
  }

  function Bases(shots: map<nat, Shot>): map<nat, Node> {
    map p | p in shots :: shots[p].base
  }

  /** The mini page and base page maps, de-duplicated apart from each other, give each leaf the image the
      consistent-cut theorem speaks of; and every mini page kept has a base page kept. */
  lemma FinalMaps(sn: Snap, p: nat)
    requires p in sn.workL || p in sn.sweptL
    ensures var mini, base := Minis(sn.sweptL) + Minis(sn.workL), Bases(sn.sweptL) + Bases(sn.workL);
      && p in base && base[p] == FinalShot(sn, p).base
      && (p in mini <==> FinalShot(sn, p).mini.Some?) && (p in mini ==> mini[p] == FinalShot(sn, p).mini.value)
      && mini.Keys <= base.Keys
  {
  }

  datatype Logs = Logs(inner: seq<seq<Entry<Inner>>>, mini: seq<seq<Entry<Cached>>>, base: seq<seq<Entry<Node>>>)

  ghost predicate LogsOk(logs: Logs, inner: map<nat, Inner>, leaves: map<nat, Shot>) {
    Spells(logs.inner, inner) && Spells(logs.mini, Minis(leaves)) && Spells(logs.base, Bases(leaves))
  }

  /** `finalize`: three passes of the same shape. */
  method Finalize(work: Logs, swept: Logs, ghost sn: Snap)
    returns (inner: map<nat, Inner>, mini: map<nat, Cached>, base: map<nat, Node>)
    requires LogsOk(work, sn.workI, sn.workL) && LogsOk(swept, sn.sweptI, sn.sweptL)
    requires |swept.inner| == |swept.mini| == |swept.base| == 1
    ensures inner == sn.sweptI + sn.workI
    ensures base.Keys == sn.workL.Keys + sn.sweptL.Keys && mini.Keys <= base.Keys
    ensures forall p :: p in base ==>
      FinalShot(sn, p) == Shot(if p in mini then Some(mini[p]) else None, base[p])
  {
    var i := Collect(work.inner, sn.workI);
    assert swept.inner == [swept.inner[0]] && swept.mini == [swept.mini[0]] && swept.base == [swept.base[0]];
    inner := AddSwept(i, swept.inner[0], sn.sweptI);
    var m := Collect(work.mini, Minis(sn.workL));
    mini := AddSwept(m, swept.mini[0], Minis(sn.sweptL));
    var b := Collect(work.base, Bases(sn.workL));
    base := AddSwept(b, swept.base[0], Bases(sn.sweptL));
    forall p | p in base ensures FinalShot(sn, p) == Shot(if p in mini then Some(mini[p]) else None, base[p]) {
      FinalMaps(sn, p);
    }
  }
}
