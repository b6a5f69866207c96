/** The lists behind the captures.  Every worker slot pushes its captures onto its own lists and the sweep onto
    one more set; here the lists are followed along a run, and shown to spell the protocol's maps when the
    snapshot is finalized. */
module SnapshotLogs {
  import opened TreeShape
  import opened EffectFrames
  import opened LeafCache
  import opened Snapshot
  import opened SnapshotTheorems
  import opened SnapshotFinalize
  import H = Handshake

  // ---- pushing ------------------------------------------------------------------------------------

  /** Slot `w` has pushed the images of `added`, in some order. */
  ghost predicate Pushed<T(!new)>(lists: seq<seq<Entry<T>>>, lists': seq<seq<Entry<T>>>, w: nat, added: map<nat, T>) {
    w < |lists| && exists es :: PushedThese(lists, lists', w, added, es)
  }

  ghost predicate PushedThese<T>(lists: seq<seq<Entry<T>>>, lists': seq<seq<Entry<T>>>, w: nat, added: map<nat, T>, es: seq<Entry<T>>)
    requires w < |lists|
  {
    lists' == lists[w := lists[w] + es] && Spells([es], added)
  }

  lemma PushSpells<T(!new)>(lists: seq<seq<Entry<T>>>, lists': seq<seq<Entry<T>>>, m: map<nat, T>, w: nat, added: map<nat, T>)
    requires Spells(lists, m) && Pushed(lists, lists', w, added) && m.Keys !! added.Keys
    ensures Spells(lists', m + added) && |lists'| == |lists|
  {
    var es :| PushedThese(lists, lists', w, added, es);
    forall i, a | 0 <= i < |lists'| && 0 <= a < |lists'[i]|
      ensures lists'[i][a].id in m + added && (m + added)[lists'[i][a].id] == lists'[i][a].image
    {
      if i == w && a >= |lists[w]| { assert [es][0][a - |lists[w]|] == lists'[i][a]; }
    }
    forall id | id in m + added ensures exists i, a :: 0 <= i < |lists'| && 0 <= a < |lists'[i]| && lists'[i][a].id == id {
      PushFinds(lists, lists', m, w, added, es, id);
    }
  }

  lemma PushFinds<T>(lists: seq<seq<Entry<T>>>, lists': seq<seq<Entry<T>>>, m: map<nat, T>, w: nat, added: map<nat, T>, es: seq<Entry<T>>, id: nat)
    requires Spells(lists, m) && w < |lists| && PushedThese(lists, lists', w, added, es) && (id in m || id in added)
    ensures exists i, a :: 0 <= i < |lists'| && 0 <= a < |lists'[i]| && lists'[i][a].id == id
  {
    if id in added {
      var i, a :| 0 <= i < |[es]| && 0 <= a < |[es][i]| && [es][i][a].id == id;
      assert lists'[w][|lists[w]| + a].id == id;
    } else {
      var i, a :| 0 <= i < |lists| && 0 <= a < |lists[i]| && lists[i][a].id == id;
      assert lists'[i][a].id == id;
    }
  }

  // ---- the three kinds of lists together -----------------------------------------------------------

  ghost predicate LogsGrow(logs: Logs, logs': Logs, w: nat, inner: map<nat, Inner>, leaves: map<nat, Shot>) {
    && Pushed(logs.inner, logs'.inner, w, inner) && Pushed(logs.mini, logs'.mini, w, Minis(leaves))
    && Pushed(logs.base, logs'.base, w, Bases(leaves))
  }

  lemma GrownOk(logs: Logs, logs': Logs, w: nat, inner: map<nat, Inner>, leaves: map<nat, Shot>, newI: map<nat, Inner>, newL: map<nat, Shot>)
    requires LogsOk(logs, inner, leaves) && LogsGrow(logs, logs', w, newI, newL)
    requires inner.Keys !! newI.Keys && leaves.Keys !! newL.Keys
    ensures LogsOk(logs', inner + newI, leaves + newL) && SameSlots(logs, logs')
  {
    PartsAdd(leaves, newL);
    PushSpells(logs.inner, logs'.inner, inner, w, newI);
    PushSpells(logs.mini, logs'.mini, Minis(leaves), w, Minis(newL));
    PushSpells(logs.base, logs'.base, Bases(leaves), w, Bases(newL));
  }

  lemma PartsAdd(a: map<nat, Shot>, b: map<nat, Shot>)
    requires a.Keys !! b.Keys
    ensures Minis(a + b) == Minis(a) + Minis(b) && Bases(a + b) == Bases(a) + Bases(b)
    ensures Minis(a).Keys !! Minis(b).Keys && Bases(a).Keys !! Bases(b).Keys
  {
    assert Minis(a + b) == Minis(a) + Minis(b);
    assert Bases(a + b) == Bases(a) + Bases(b);
  }

  predicate SameSlots(logs: Logs, logs': Logs) {
    |logs'.inner| == |logs.inner| && |logs'.mini| == |logs.mini| && |logs'.base| == |logs.base|
  }

  predicate NoEntries(logs: Logs, n: nat) {
    && |logs.inner| == |logs.mini| == |logs.base| == n
    && forall i :: 0 <= i < n ==> logs.inner[i] == [] && logs.mini[i] == [] && logs.base[i] == []
  }

  // ---- the lists along a run -----------------------------------------------------------------------

  function NewLeaves(g: H.Stamp, st: Store, ps: set<nat>): map<nat, Shot> {
    map p | p in ps && p in st.pages && Captures(g, Version(st.pages[p])) :: ShotOf(st.pages[p])
  }

  function NewInners(g: H.Stamp, st: Store, ns: set<nat>): map<nat, Inner> {
    map n | n in ns && n in st.iver && n in st.now.inners && Captures(g, st.iver[n]) :: st.now.inners[n]
  }

  /** The page a sweep step captures, if it captures one. */
  function NewSwept(s: State): map<nat, Shot> {
    var p := s.sn.upto;
    if p in s.st.pages && Version(s.st.pages[p]) <= s.sn.sv && p !in s.sn.sweptL then map[p := ShotOf(s.st.pages[p])] else map[]
  }

  datatype Both = Both(work: Logs, swept: Logs)

  /** A worker pushes before it changes its pages. */
  ghost predicate WorkerLogs(s: State, w: nat, ps: set<nat>, ns: set<nat>, b: Both, b': Both) {
    && H.HoldsGuard(s.hs, w) && b'.swept == b.swept
    && var g := s.hs.slots[w].pc.g;
    LogsGrow(b.work, b'.work, w, NewInners(g, s.st, ns), NewLeaves(g, s.st, ps))
  }

  ghost predicate LogStep(s: State, step: Step, s': State, b: Both, b': Both) {
    match step
    case DoCommit(w, e, how) => WorkerLogs(s, w, LeafTouch(e), InnerTouch(e), b, b')
    case DoTouchLeaf(w, p, what) => WorkerLogs(s, w, {p}, {}, b, b')
    case DoTouchInner(w, n) => WorkerLogs(s, w, {}, {n}, b, b')
    case DoWalk => b'.work == b.work && LogsGrow(b.swept, b'.swept, 0, s'.sn.sweptI, s'.sn.sweptL)
    case DoSweepPage => b'.work == b.work && LogsGrow(b.swept, b'.swept, 0, map[], NewSwept(s))
    case DoShake =>
      if s.hs.mgr.Idle? && !s'.hs.mgr.Idle? then NoEntries(b'.work, |s.hs.slots|) && NoEntries(b'.swept, 1) else b' == b
    case DoTidy(p, reorg) => b' == b
  }

  /** The lists spell the captures. */
  ghost predicate LogInv(s: State, b: Both) {
    !s.hs.mgr.Idle? ==>
      && LogsOk(b.work, s.sn.workI, s.sn.workL) && LogsOk(b.swept, s.sn.sweptI, s.sn.sweptL)
      && |b.swept.inner| == |b.swept.mini| == |b.swept.base| == 1
  }

  lemma CapturedIs(g: H.Stamp, st: Store, sn: Snap, ps: set<nat>, ns: set<nat>)
    ensures var sn' := Captured(g, st, sn, ps, ns);
      && sn'.workL == sn.workL + NewLeaves(g, st, ps) && sn'.workI == sn.workI + NewInners(g, st, ns)
      && sn'.sweptL == sn.sweptL && sn'.sweptI == sn.sweptI
  {
    var sn' := Captured(g, st, sn, ps, ns);
    assert sn'.workL == sn.workL + NewLeaves(g, st, ps);
    assert sn'.workI == sn.workI + NewInners(g, st, ns);
  }

  /** What a worker captures has not been captured by a worker before. */
  lemma NewIsNew(run: seq<State>, steps: seq<Step>, t: nat, w: nat, ps: set<nat>, ns: set<nat>)
    requires Run(run, steps) && t < |run| && !run[t].hs.mgr.Idle? && H.HoldsGuard(run[t].hs, w)
    ensures var s, g := run[t], run[t].hs.slots[w].pc.g;
      s.sn.workL.Keys !! NewLeaves(g, s.st, ps).Keys && s.sn.workI.Keys !! NewInners(g, s.st, ns).Keys
  {
    var s, g := run[t], run[t].hs.slots[w].pc.g;
    forall p | p in NewLeaves(g, s.st, ps) ensures p !in s.sn.workL { CapturesAreFirst(run, steps, t, w, p); }
    forall n | n in NewInners(g, s.st, ns) ensures n !in s.sn.workI { CapturesAreFirst(run, steps, t, w, n); }
  }

  lemma WorkerKeepsLogs(run: seq<State>, steps: seq<Step>, t: nat, w: nat, ps: set<nat>, ns: set<nat>, b: Both, b': Both)
    requires Run(run, steps) && t < |run| && !run[t].hs.mgr.Idle? && LogInv(run[t], b) && WorkerLogs(run[t], w, ps, ns, b, b')
    ensures var s := run[t];
      var sn' := Captured(s.hs.slots[w].pc.g, s.st, s.sn, ps, ns);
      LogsOk(b'.work, sn'.workI, sn'.workL) && LogsOk(b'.swept, sn'.sweptI, sn'.sweptL)
  {
    var s, g := run[t], run[t].hs.slots[w].pc.g;
    NewIsNew(run, steps, t, w, ps, ns);
    CapturedIs(g, s.st, s.sn, ps, ns);
    GrownOk(b.work, b'.work, w, s.sn.workI, s.sn.workL, NewInners(g, s.st, ns), NewLeaves(g, s.st, ps));
  }

  lemma WalkKeepsLogs(s: State, s': State, b: Both, b': Both)
    requires Walk(s, s') && PhaseOk(s.hs, s.st, s.sn) && LogInv(s, b) && LogStep(s, DoWalk, s', b, b')
    ensures LogInv(s', b')
  {
    GrownOk(b.swept, b'.swept, 0, s.sn.sweptI, s.sn.sweptL, s'.sn.sweptI, s'.sn.sweptL);
    assert s.sn.sweptI + s'.sn.sweptI == s'.sn.sweptI && s.sn.sweptL + s'.sn.sweptL == s'.sn.sweptL;
  }

  lemma SweepKeepsLogs(s: State, s': State, b: Both, b': Both)
    requires SweepPage(s, s') && LogInv(s, b) && LogStep(s, DoSweepPage, s', b, b')
    ensures LogInv(s', b')
  {
    SweptGrows(s, s');
    GrownOk(b.swept, b'.swept, 0, s.sn.sweptI, s.sn.sweptL, map[], NewSwept(s));
  }

  lemma SweptGrows(s: State, s': State)
    requires SweepPage(s, s')
    ensures s'.sn.sweptL == s.sn.sweptL + NewSwept(s) && s.sn.sweptL.Keys !! NewSwept(s).Keys
    ensures s'.sn.sweptI == s.sn.sweptI + map[] && s'.sn.workI == s.sn.workI && s'.sn.workL == s.sn.workL && s'.hs == s.hs
  {
    assert s'.sn.sweptL == s.sn.sweptL + NewSwept(s);
    assert s.sn.sweptI + map[] == s.sn.sweptI;
  }

  lemma StartKeepsLogs(s: State, s': State, b': Both)
    requires Shake(s, s') && s.hs.mgr.Idle? && !s'.hs.mgr.Idle?
    requires NoEntries(b'.work, |s.hs.slots|) && NoEntries(b'.swept, 1)
    ensures LogInv(s', b')
  {
    NothingSpelled(b'.work, |s.hs.slots|);
    NothingSpelled(b'.swept, 1);
  }

  lemma NothingSpelled(logs: Logs, n: nat)
    requires NoEntries(logs, n)
    ensures LogsOk(logs, map[], map[])
  {
    assert Minis(map[]) == map[] && Bases(map[]) == map[];
  }

  ghost predicate LogRun(run: seq<State>, steps: seq<Step>, logs: seq<Both>) {
    && Run(run, steps) && |logs| == |run|
    && forall i {:trigger LogStepAt(run, steps, logs, i)} :: 0 <= i < |steps| ==> LogStepAt(run, steps, logs, i)
  }

  ghost predicate LogStepAt(run: seq<State>, steps: seq<Step>, logs: seq<Both>, i: nat)
    requires |logs| == |run| == |steps| + 1 && i < |steps|
  {
    LogStep(run[i], steps[i], run[i + 1], logs[i], logs[i + 1])
  }

  /** In every run, at every moment of a snapshot, the lists spell exactly the captures. */
  lemma {:induction false} LogsFollow(run: seq<State>, steps: seq<Step>, logs: seq<Both>, t: nat)
    requires LogRun(run, steps, logs) && t < |run|
    ensures LogInv(run[t], logs[t])
    decreases t
  {
    if t > 0 {
      LogsFollow(run, steps, logs, t - 1);
      LogsStep(run, steps, logs, t - 1);
    }
  }

  lemma LogsStep(run: seq<State>, steps: seq<Step>, logs: seq<Both>, t: nat)
    requires LogRun(run, steps, logs) && t < |steps| && LogInv(run[t], logs[t])
    ensures LogInv(run[t + 1], logs[t + 1])
  {
    var s, s', b, b' := run[t], run[t + 1], logs[t], logs[t + 1];
    assert StepAt(run, steps, t) && LogStepAt(run, steps, logs, t);
    match steps[t]
    case DoCommit(w, e, how) => if !s.hs.mgr.Idle? { WorkerKeepsLogs(run, steps, t, w, LeafTouch(e), InnerTouch(e), b, b'); }
    case DoTouchLeaf(w, p, what) => if !s.hs.mgr.Idle? { WorkerKeepsLogs(run, steps, t, w, {p}, {}, b, b'); }
    case DoTouchInner(w, n) => if !s.hs.mgr.Idle? { WorkerKeepsLogs(run, steps, t, w, {}, {n}, b, b'); }
    case DoWalk =>
      RunKeepsInv(run, steps, t);
      WalkKeepsLogs(s, s', b, b');
    case DoSweepPage => SweepKeepsLogs(s, s', b, b');
    case DoShake => if s.hs.mgr.Idle? && !s'.hs.mgr.Idle? { StartKeepsLogs(s, s', b'); }
    case DoTidy(p, reorg) =>
  }
}
