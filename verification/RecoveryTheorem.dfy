/** Snapshot, then recovery: what a reader of the recovered tree sees. */
module RecoveryTheorem {
  import opened Bytes
  import opened TreeShape
  import opened LeafCache
  import opened Snapshot
  import opened SnapshotTheorems
  import opened SnapshotFinalize
  import opened SnapshotLogs
  import opened Recovery

  /** A key read through the recovered inner nodes, from the mini and base images kept for the leaf they lead
      to, is the key in the cut: in the tree of exactly the transactions of the snapshot's version. */
  lemma RecoveredReads(run: seq<State>, steps: seq<Step>, t: nat, c: Copies, root: nat, k: Key)
    requires Run(run, steps) && t < |run| && Finalizing(run[t])
    requires var cut := run[t].sn.cut;
      cut.root.InnerRef? && CopyOf(c, root, cut.root.id) && forall n :: n in c.nodes ==> Rewired(cut, c, n)
    ensures var sn := run[t].sn;
      && WF(sn.cut) && Replay(run[0].st.now, Upto(run[t].history, sn.sv)) == Some(sn.cut)
      && InnersOk(Recovered(sn.cut, c, root)) && KidsOk(Recovered(sn.cut, c, root))
      && var p := Route(Recovered(sn.cut, c, root), InnerRef(root), k);
      (p in sn.workL || p in sn.sweptL) && ShotGet(FinalShot(sn, p), k) == Get(sn.cut, k)
  {
    ConsistentCut(run, steps, t);
    var sn := run[t].sn;
    RecoveredRoutes(sn.cut, c, root, k);
    var p := Route(sn.cut, sn.cut.root, k);
    assert p in sn.workL.Keys + sn.sweptL.Keys;
    assert ShotOk(FinalShot(sn, p), sn.cut.leaves[p]);
  }

  /** The same for a tree that was a single leaf. */
  lemma RecoveredRootLeafReads(run: seq<State>, steps: seq<Step>, t: nat, k: Key)
    requires Run(run, steps) && t < |run| && Finalizing(run[t]) && run[t].sn.cut.root.LeafRef?
    ensures var sn := run[t].sn;
      && WF(sn.cut) && sn.root == Some(sn.cut.root)
      && var p := sn.cut.root.id;
      (p in sn.workL || p in sn.sweptL) && ShotGet(FinalShot(sn, p), k) == Get(sn.cut, k)
  {
    ConsistentCut(run, steps, t);
    var sn := run[t].sn;
    var p := sn.cut.root.id;
    assert p in sn.workL.Keys + sn.sweptL.Keys;
    assert ShotOk(FinalShot(sn, p), sn.cut.leaves[p]);
  }

  // ---- from the lists to the recovered tree --------------------------------------------------------

  /** What recovery has built: inner nodes, the root, and the images of the leaves. */
  datatype Rebuilt = Rebuilt(nodes: map<nat, Inner>, root: Ref, mini: map<nat, Cached>, base: map<nat, Node>)

  function ImageOf(r: Rebuilt, p: nat): Shot
    requires p in r.base
  {
    Shot(if p in r.mini then Some(r.mini[p]) else None, r.base[p])
  }

  /** A descent through the rebuilt nodes ends at a leaf whose image reads the key as the tree `t` does. */
  ghost predicate ReadsAs(r: Rebuilt, t: Tree, k: Key)
    requires WF(t)
  {
    var u := Tree(t.leaves, r.nodes, r.root);
    && InnersOk(u) && KidsOk(u) && Exists(u, u.root)
    && Route(u, u.root, k) in r.base && ShotGet(ImageOf(r, Route(u, u.root, k)), k) == Get(t, k)
  }

  /** What the loops of finalize and recovery make of the captures. */
  ghost predicate RebuiltFrom(r: Rebuilt, sn: Snap, c: Copies) {
    && r.base.Keys == sn.workL.Keys + sn.sweptL.Keys && (forall p :: p in r.base ==> FinalShot(sn, p) == ImageOf(r, p))
    && match sn.cut.root
       case LeafRef(p) => r.root == sn.cut.root && r.nodes == map[]
       case InnerRef(n) =>
         r.root.InnerRef? && r.nodes == c.nodes && CopyOf(c, r.root.id, n) && forall m :: m in c.nodes ==> Rewired(sn.cut, c, m)
  }

  lemma RebuiltReads(run: seq<State>, steps: seq<Step>, t: nat, r: Rebuilt, c: Copies, k: Key)
    requires Run(run, steps) && t < |run| && Finalizing(run[t]) && WF(run[t].sn.cut) && RebuiltFrom(r, run[t].sn, c)
    ensures ReadsAs(r, run[t].sn.cut, k)
  {
    var sn := run[t].sn;
    if sn.cut.root.LeafRef? {
      RecoveredRootLeafReads(run, steps, t, k);
      assert sn.cut.inners == map[] && Tree(sn.cut.leaves, map[], sn.cut.root) == sn.cut;
    } else {
      RecoveredReads(run, steps, t, c, r.root.id, k);
    }
  }

  /** `finalize`, then the rewiring of `new_from_snapshot`. */
  method Rebuild(work: Logs, swept: Logs, root: Ref, ghost sn: Snap) returns (r: Rebuilt, ghost c: Copies)
    requires LogsOk(work, sn.workI, sn.workL) && LogsOk(swept, sn.sweptI, sn.sweptL)
    requires |swept.inner| == |swept.mini| == |swept.base| == 1
    requires WF(sn.cut) && sn.sweptI + sn.workI == sn.cut.inners && root == sn.cut.root
    ensures RebuiltFrom(r, sn, c)
  {
    var inner, mini, base := Finalize(work, swept, sn);
    c := Copies(map[], map[], 0);
    if root.LeafRef? {
      r := Rebuilt(map[], root, mini, base);
    } else {
      var copies, top := Rewire(inner, root.id, sn.cut);
      c := copies;
      r := Rebuilt(copies.nodes, InnerRef(top), mini, base);
    }
  }

  lemma ListsReady(run: seq<State>, steps: seq<Step>, logs: seq<Both>, t: nat)
    requires LogRun(run, steps, logs) && t < |run| && Finalizing(run[t])
    ensures var sn, b := run[t].sn, logs[t];
      && LogsOk(b.work, sn.workI, sn.workL) && LogsOk(b.swept, sn.sweptI, sn.sweptL)
      && |b.swept.inner| == |b.swept.mini| == |b.swept.base| == 1
  {
    LogsFollow(run, steps, logs, t);
  }

  /** Finalize and recover, over a whole run.  The lists the workers and the sweep have pushed, de-duplicated,
      written out and rewired, give back the tree of exactly the transactions of version `sv` and below: for
      every key, the recovered tree leads to an image that reads the key as that tree does. */
  method Recover(work: Logs, swept: Logs, root: Ref, ghost run: seq<State>, ghost steps: seq<Step>, ghost logs: seq<Both>, ghost t: nat)
    returns (r: Rebuilt)
    requires LogRun(run, steps, logs) && t < |run| && Finalizing(run[t])
    requires logs[t] == Both(work, swept) && run[t].sn.root == Some(root)
    ensures var sn := run[t].sn;
      && WF(sn.cut) && Replay(run[0].st.now, Upto(run[t].history, sn.sv)) == Some(sn.cut)
      && forall k :: ReadsAs(r, sn.cut, k)
  {
    ListsReady(run, steps, logs, t);
    ConsistentCut(run, steps, t);
    ghost var c;
    r, c := Rebuild(work, swept, root, run[t].sn);
    forall k ensures ReadsAs(r, run[t].sn.cut, k) { RebuiltReads(run, steps, t, r, c, k); }
  }
}
