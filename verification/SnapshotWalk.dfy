/** The sweep's walk over the frozen tree, as it runs. */
module SnapshotWalk {
  import opened TreeShape
  import opened Snapshot
  import opened SnapshotFinalize
  import opened InnerWalk

  /** The list after the walk has met the nodes of `seen`. */
  ghost predicate Swept(st: Store, sv: nat, seen: set<nat>, list: seq<Entry<Inner>>) {
    && (forall a :: 0 <= a < |list| ==> list[a].id in SweptInner(st, sv) && SweptInner(st, sv)[list[a].id] == list[a].image)
    && (forall n :: n in seen && n in SweptInner(st, sv) ==> exists a :: 0 <= a < |list| && list[a].id == n)
  }

  lemma SweptNext(st: Store, sv: nat, seen: set<nat>, list: seq<Entry<Inner>>, n: nat, list': seq<Entry<Inner>>)
    requires Swept(st, sv, seen, list)
    requires list' == list + if n in SweptInner(st, sv) then [Entry(n, SweptInner(st, sv)[n])] else []
    ensures Swept(st, sv, seen + {n}, list')
  {
    forall m | m in seen + {n} && m in SweptInner(st, sv) ensures exists a :: 0 <= a < |list'| && list'[a].id == m {
      if m in seen {
        var a :| 0 <= a < |list| && list[a].id == m;
        assert list'[a].id == m;
      } else {
        assert list'[|list|].id == m;
      }
    }
  }

  lemma SweptSpells(st: Store, sv: nat, seen: set<nat>, list: seq<Entry<Inner>>)
    requires Swept(st, sv, seen, list) && st.now.inners.Keys <= seen
    ensures Spells([list], SweptInner(st, sv))
  {
    forall n | n in SweptInner(st, sv) ensures exists i, a :: 0 <= i < |[list]| && 0 <= a < |[list][i]| && [list][i][a].id == n {
      var a :| 0 <= a < |list| && list[a].id == n;
      assert [list][0][a].id == n;
    }
  }

  /** The breadth-first walk captures exactly the inner nodes of the old version, each node met once: the list it
      pushes spells what `Walk` records. */
  method SweepInner(st: Store, sv: nat) returns (list: seq<Entry<Inner>>)
    requires WF(st.now) && Keyed(st)
    ensures Spells([list], SweptInner(st, sv))
  {
    var seen := VisitInner(st.now);
    list := [];
    ghost var met: set<nat> := {};
    for i := 0 to |seen|
      invariant Swept(st, sv, met, list) && forall j :: 0 <= j < i ==> seen[j] in met
    {
      var n := seen[i];
      ghost var before := list;
      if st.iver[n] <= sv { list := list + [Entry(n, st.now.inners[n])]; }
      SweptNext(st, sv, met, before, n, list);
      met := met + {n};
    }
    SweptSpells(st, sv, met, list);
  }
}
