/** A snapshot can always be taken: whenever no one is in the tree, the manager gets through all its phases on its
    own, and what it has then is the whole tree. */
module SnapshotFinishes {
  import opened Bytes
  import opened TreeShape
  import opened LeafCache
  import opened Snapshot
  import opened SnapshotStore
  import opened SnapshotTheorems
  import H = Handshake

  // ---- paths ---------------------------------------------------------------------------------------

  ghost predicate Path(s: State, path: seq<State>, steps: seq<Step>, e: State) {
    && |path| == |steps| + 1 && path[0] == s && path[|path| - 1] == e
    && forall i {:trigger StepAt(path, steps, i)} :: 0 <= i < |steps| ==> StepAt(path, steps, i)
  }

  ghost predicate Reaches(s: State, e: State) { exists path, steps :: Path(s, path, steps, e) }

  lemma OneStep(s: State, step: Step, e: State)
    requires Next(s, step, e)
    ensures Reaches(s, e)
  {
    assert StepAt([s, e], [step], 0);
    assert Path(s, [s, e], [step], e);
  }

  lemma StepThen(s: State, step: Step, m: State, e: State)
    requires Next(s, step, m) && Reaches(m, e)
    ensures Reaches(s, e)
  {
    var path, steps :| Path(m, path, steps, e);
    forall i | 0 <= i < |steps| + 1 ensures StepAt([s] + path, [step] + steps, i) {
      if i > 0 { assert StepAt(path, steps, i - 1); }
    }
    assert Path(s, [s] + path, [step] + steps, e);
  }

  lemma {:induction false} Joined(s: State, path: seq<State>, steps: seq<Step>, m: State, e: State)
    requires Path(s, path, steps, m) && Reaches(m, e)
    ensures Reaches(s, e)
    decreases |steps|
  {
    if |steps| > 0 {
      assert StepAt(path, steps, 0);
      forall i | 0 <= i < |steps| - 1 ensures StepAt(path[1..], steps[1..], i) { assert StepAt(path, steps, i + 1); }
      assert Path(path[1], path[1..], steps[1..], m);
      Joined(path[1], path[1..], steps[1..], m, e);
      StepThen(s, steps[0], path[1], e);
    }
  }

  lemma Then(s: State, m: State, e: State)
    requires Reaches(s, m) && Reaches(m, e)
    ensures Reaches(s, e)
  {
    var path, steps :| Path(s, path, steps, m);
    Joined(s, path, steps, m, e);
  }

  // ---- the manager alone ---------------------------------------------------------------------------

  /** No worker is in the tree or on its way in. */
  predicate Empty(hs: H.State) { forall i :: 0 <= i < |hs.slots| ==> hs.slots[i].local == None }

  function At(s: State, mgr: H.Manager): State { s.(hs := s.hs.(mgr := mgr)) }

  lemma Shakes(s: State, hs: H.State)
    requires H.ManagerStep(s.hs, hs) && !s.hs.mgr.Idle? && !s.hs.mgr.Frozen? && !s.hs.mgr.Table?
    ensures Next(s, DoShake, s.(hs := hs))
  {
    assert H.Next(s.hs, hs);
  }

  /** The scan gets through. */
  lemma {:induction false} ScansThrough(s: State, k: nat)
    requires Empty(s.hs)
    ensures Reaches(At(s, H.Scan(k)), At(s, H.Settled))
    decreases |s.hs.slots| - k
  {
    var a := At(s, H.Scan(k));
    var b := At(s, if k >= |s.hs.slots| then H.Settled else H.Scan(k + 1));
    assert H.ScanSlot(a.hs, b.hs);
    Shakes(a, b.hs);
    if k >= |s.hs.slots| {
      OneStep(a, DoShake, b);
    } else {
      ScansThrough(s, k + 1);
      StepThen(a, DoShake, b, At(s, H.Settled));
    }
  }

  lemma {:induction false} DrainsThrough(s: State, k: nat)
    requires Empty(s.hs)
    ensures Reaches(At(s, H.Drain(k)), At(s, H.Frozen))
    decreases |s.hs.slots| - k
  {
    var a := At(s, H.Drain(k));
    var b := At(s, if k >= |s.hs.slots| then H.Frozen else H.Drain(k + 1));
    assert H.DrainSlot(a.hs, b.hs);
    Shakes(a, b.hs);
    if k >= |s.hs.slots| {
      OneStep(a, DoShake, b);
    } else {
      DrainsThrough(s, k + 1);
      StepThen(a, DoShake, b, At(s, H.Frozen));
    }
  }

  /** From one settled phase to the next. */
  lemma Advances(s: State)
    requires Empty(s.hs) && s.hs.mgr.Settled? && (s.hs.global.phase.Prepare? || s.hs.global.phase.InProgress?)
    ensures Reaches(s, s.(hs := s.hs.(global := H.Advance(s.hs.global))))
  {
    var m := s.(hs := s.hs.(global := H.Advance(s.hs.global), mgr := H.Scan(0)));
    assert H.AdvanceStep(s.hs, m.hs);
    Shakes(s, m.hs);
    ScansThrough(m, 0);
    StepThen(s, DoShake, m, At(m, H.Settled));
  }

  // ---- sweeping ------------------------------------------------------------------------------------

  lemma {:induction false} SweepsThrough(s: State) returns (e: State)
    requires s.hs.mgr.Table? && s.sn.upto <= s.sn.high
    ensures Reaches(s, e) && e == s.(sn := e.sn) && e.sn == s.sn.(upto := s.sn.high, sweptL := e.sn.sweptL)
    decreases s.sn.high - s.sn.upto
  {
    if s.sn.upto == s.sn.high {
      e := s;
      assert Path(s, [s], [], s);
    } else {
      var p := s.sn.upto;
      var m := s.(sn := s.sn.(
        upto := p + 1,
        sweptL := if p in s.st.pages && Version(s.st.pages[p]) <= s.sn.sv && p !in s.sn.sweptL
                  then s.sn.sweptL[p := ShotOf(s.st.pages[p])] else s.sn.sweptL));
      assert SweepPage(s, m);
      e := SweepsThrough(m);
      StepThen(s, DoSweepPage, m, e);
    }
  }

  // ---- a whole snapshot ----------------------------------------------------------------------------

  /** Paused, drained, walked and resumed. */
  lemma Walks(s: State) returns (e: State)
    requires Empty(s.hs) && s.hs.mgr.Settled? && s.hs.global.phase.Sweep? && !s.sn.walked
    ensures Reaches(s, e) && e.hs == s.hs.(mgr := H.Table, pause := false) && e.st == s.st && e.history == s.history
    ensures e.sn.upto <= e.sn.high && e.sn.sv == s.sn.sv && e.sn.cut == s.sn.cut
  {
    var a := s.(hs := s.hs.(pause := true, mgr := H.Drain(0)));
    assert H.Pause(s.hs, a.hs);
    Shakes(s, a.hs);
    var b := At(a, H.Frozen);
    DrainsThrough(a, 0);
    var c := WalkNow(b);
    e := Resumes(c);
    StepThen(b, DoWalk, c, e);
    Then(a, b, e);
    StepThen(s, DoShake, a, e);
  }

  lemma WalkNow(s: State) returns (e: State)
    requires s.hs.mgr.Frozen? && !s.sn.walked
    ensures Next(s, DoWalk, e) && e.sn.walked && e.sn.sv == s.sn.sv && e.sn.cut == s.sn.cut && e == s.(sn := e.sn)
  {
    e := s.(sn := s.sn.(
      walked := true,
      sweptI := SweptInner(s.st, s.sn.sv),
      sweptL := if s.st.now.root.LeafRef? && s.st.now.root.id in s.st.pages && RefVer(s.st, s.st.now.root) <= s.sn.sv
                then map[s.st.now.root.id := ShotOf(s.st.pages[s.st.now.root.id])] else map[],
      root := if RefVer(s.st, s.st.now.root) <= s.sn.sv then Some(s.st.now.root) else s.sn.root));
    assert Walk(s, e);
  }

  lemma Resumes(s: State) returns (e: State)
    requires s.hs.mgr.Frozen? && s.sn.walked
    ensures Reaches(s, e) && e.hs == s.hs.(mgr := H.Table, pause := false) && e == s.(hs := e.hs, sn := e.sn)
    ensures e.sn == s.sn.(upto := 0, high := s.st.next)
  {
    e := s.(hs := s.hs.(mgr := H.Table, pause := false), sn := s.sn.(upto := 0, high := s.st.next));
    assert H.Resume(s.hs, e.hs);
    assert H.Next(s.hs, e.hs);
    OneStep(s, DoShake, e);
  }

  lemma Closes(s: State) returns (e: State)
    requires Empty(s.hs) && s.hs.mgr.Table? && s.hs.global.phase.Sweep? && s.sn.upto <= s.sn.high
    ensures Reaches(s, e) && Finalizing(e) && e.st == s.st && e.history == s.history && e.sn.sv == s.sn.sv && e.sn.cut == s.sn.cut
    ensures e.hs == s.hs.(global := H.Advance(s.hs.global), mgr := H.Settled)
  {
    var a := SweepsThrough(s);
    var b := a.(hs := a.hs.(global := H.Advance(a.hs.global), mgr := H.Scan(0)));
    assert H.SweepDone(a.hs, b.hs);
    assert H.Next(a.hs, b.hs);
    assert Next(a, DoShake, b);
    e := At(b, H.Settled);
    ScansThrough(b, 0);
    StepThen(a, DoShake, b, e);
    Then(s, a, e);
  }

  /** Started, and settled in the PREPARE phase. */
  lemma Begins(s: State) returns (e: State)
    requires Empty(s.hs) && s.hs.mgr.Idle? && s.hs.global.phase.Rest?
    ensures Reaches(s, e) && e.hs == s.hs.(global := H.Stamp(H.Prepare, s.hs.global.version), mgr := H.Settled)
    ensures e.st == s.st && e.history == s.history
    ensures e.sn == Snap(s.hs.global.version, s.st.now, map[], map[], map[], map[], None, false, 0, 0)
  {
    var a := s.(hs := s.hs.(global := H.Advance(s.hs.global), mgr := H.Scan(0)),
                sn := Snap(s.hs.global.version, s.st.now, map[], map[], map[], map[], None, false, 0, 0));
    assert H.Start(s.hs, a.hs);
    assert H.Next(s.hs, a.hs);
    assert Next(s, DoShake, a);
    e := At(a, H.Settled);
    ScansThrough(a, 0);
    StepThen(s, DoShake, a, e);
  }

  /** From PREPARE to SWEEP. */
  lemma AdvancesTwice(s: State) returns (e: State)
    requires Empty(s.hs) && s.hs.mgr.Settled? && s.hs.global.phase.Prepare?
    ensures Reaches(s, e) && e == s.(hs := s.hs.(global := H.Stamp(H.Sweep, s.hs.global.version + 1)))
  {
    var m := s.(hs := s.hs.(global := H.Advance(s.hs.global)));
    Advances(s);
    Advances(m);
    e := m.(hs := m.hs.(global := H.Advance(m.hs.global)));
    Then(s, m, e);
  }

  lemma Finishes(s: State) returns (e: State)
    requires Empty(s.hs) && s.hs.mgr.Idle? && s.hs.global.phase.Rest?
    ensures Reaches(s, e) && Finalizing(e) && e.st == s.st && e.history == s.history
    ensures e.sn.sv == s.hs.global.version && e.sn.cut == s.st.now && e.hs.global.version == s.hs.global.version + 1
  {
    var a := Begins(s);
    var b := AdvancesTwice(a);
    var c := Walks(b);
    e := Closes(c);
    Then(b, c, e);
    Then(a, b, e);
    Then(s, a, e);
  }

  /** Main theorem.  From every reachable state with no snapshot running and no one in the tree, the manager alone
      reaches the point where a snapshot of the current version is finalized; it is of the tree as it stands, and
      the next version has begun.  From there the manager is done, and the next snapshot may start. */
  lemma CanAlwaysFinish(run: seq<State>, steps: seq<Step>, t: nat) returns (e: State, done: State)
    requires Run(run, steps) && t < |run| && run[t].hs.mgr.Idle? && Empty(run[t].hs)
    ensures Reaches(run[t], e) && Finalizing(e) && e.st == run[t].st && e.history == run[t].history
    ensures e.sn.sv == run[t].hs.global.version && e.sn.cut == run[t].st.now && e.hs.global.version == run[t].hs.global.version + 1
    ensures Reaches(e, done) && done == e.(hs := e.hs.(mgr := H.Idle))
  {
    RunKeepsInv(run, steps, t);
    e := Finishes(run[t]);
    done := e.(hs := e.hs.(mgr := H.Idle));
    assert H.Finish(e.hs, done.hs);
    Shakes(e, done.hs);
    OneStep(e, DoShake, done);
  }

  // ---- a worker alone ------------------------------------------------------------------------------

  lemma WorkerShakes(s: State, i: nat, x: H.Slot)
    requires i < |s.hs.slots| && x == H.NextSlot(s.hs, s.hs.slots[i])
    ensures Next(s, DoShake, s.(hs := s.hs.(slots := s.hs.slots[i := x])))
  {
    var hs := s.hs.(slots := s.hs.slots[i := x]);
    assert H.WorkerStep(s.hs, i, hs);
  }

  function WithSlot(s: State, i: nat, x: H.Slot): State
    requires i < |s.hs.slots|
  {
    s.(hs := s.hs.(slots := s.hs.slots[i := x]))
  }

  lemma WorkerMoves(s: State, i: nat, x: H.Slot, y: H.Slot)
    requires i < |s.hs.slots| && y == H.NextSlot(s.hs, x)
    ensures Next(WithSlot(s, i, x), DoShake, WithSlot(s, i, y))
  {
    var a := WithSlot(s, i, x);
    WorkerShakes(a, i, y);
    assert a.hs.slots[i := y] == s.hs.slots[i := y];
  }

  /** While the tree is not paused, any worker with a free slot gets a guard for the current state, and gives it
      back, on its own. */
  lemma CanAlwaysEnter(run: seq<State>, steps: seq<Step>, t: nat, i: nat) returns (e: State)
    requires Run(run, steps) && t < |run| && i < |run[t].hs.slots| && run[t].hs.slots[i].pc.Vacant? && !run[t].hs.pause
    ensures Reaches(run[t], e) && Reaches(e, run[t])
    ensures H.HoldsGuard(e.hs, i) && e.hs.slots[i].pc.g == run[t].hs.global && e == run[t].(hs := e.hs)
  {
    RunKeepsInv(run, steps, t);
    assert H.SlotOk(run[t].hs.slots[i]);
    e := Enters(run[t], i);
  }

  /** A slot on its way in and out again. */
  function OnTheWay(g: H.Stamp, k: nat): H.Slot {
    if k == 1 then H.Slot(true, None, H.Claimed)
    else if k == 2 then H.Slot(true, None, H.Loaded(g))
    else if k == 3 then H.Slot(true, Some(g), H.Published(g))
    else if k == 4 then H.Slot(true, Some(g), H.Rechecked(g))
    else if k == 5 then H.Slot(true, Some(g), H.Held(g))
    else if k == 6 then H.Slot(true, None, H.Cleared)
    else H.Slot(false, None, H.Vacant)
  }

  lemma MovesOn(s: State, i: nat, k: nat)
    requires i < |s.hs.slots| && !s.hs.pause && k < 7
    ensures Next(WithSlot(s, i, OnTheWay(s.hs.global, k)), DoShake, WithSlot(s, i, OnTheWay(s.hs.global, k + 1)))
  {
    WorkerMoves(s, i, OnTheWay(s.hs.global, k), OnTheWay(s.hs.global, k + 1));
  }

  lemma {:induction false} GoesOn(s: State, i: nat, k: nat, m: nat)
    requires i < |s.hs.slots| && !s.hs.pause && k < m <= 7
    ensures Reaches(WithSlot(s, i, OnTheWay(s.hs.global, k)), WithSlot(s, i, OnTheWay(s.hs.global, m)))
    decreases m - k
  {
    var a, b := WithSlot(s, i, OnTheWay(s.hs.global, k)), WithSlot(s, i, OnTheWay(s.hs.global, k + 1));
    MovesOn(s, i, k);
    if k + 1 == m {
      OneStep(a, DoShake, b);
    } else {
      GoesOn(s, i, k + 1, m);
      StepThen(a, DoShake, b, WithSlot(s, i, OnTheWay(s.hs.global, m)));
    }
  }

  lemma Enters(s: State, i: nat) returns (e: State)
    requires i < |s.hs.slots| && s.hs.slots[i] == H.Slot(false, None, H.Vacant) && !s.hs.pause
    ensures Reaches(s, e) && Reaches(e, s)
    ensures H.HoldsGuard(e.hs, i) && e.hs.slots[i].pc.g == s.hs.global && e == s.(hs := e.hs)
  {
    assert WithSlot(s, i, OnTheWay(s.hs.global, 0)) == s by { assert s.hs.slots[i := H.Slot(false, None, H.Vacant)] == s.hs.slots; }
    e := WithSlot(s, i, OnTheWay(s.hs.global, 5));
    GoesOn(s, i, 0, 5);
    GoesOn(s, i, 5, 7);
  }

  // ---- everyone leaves -----------------------------------------------------------------------------

  const VACANT := H.Slot(false, None, H.Vacant)

  function StepsOut(pc: H.Worker): nat {
    match pc
    case Vacant => 0
    case Cleared => 1
    case Held(g) => 2
    case Undo(g) => 2
    case Rechecked(g) => 3
    case Published(g) => 4
    case Loaded(g) => 5
    case Claimed => 6
  }

  /** A worker that is on its way in, or in, is out after at most six steps of its own. */
  lemma {:induction false} Leaves(s: State, i: nat, x: H.Slot)
    requires i < |s.hs.slots| && H.SlotOk(x)
    ensures Reaches(WithSlot(s, i, x), WithSlot(s, i, VACANT))
    decreases StepsOut(x.pc)
  {
    var a := WithSlot(s, i, x);
    if x.pc.Vacant? {
      assert Path(a, [a], [], a);
    } else {
      var y := H.NextSlot(s.hs, x);
      WorkerMoves(s, i, x, y);
      Leaves(s, i, y);
      StepThen(a, DoShake, WithSlot(s, i, y), WithSlot(s, i, VACANT));
    }
  }

  /** The first `k` slots vacated. */
  function OutBelow(s: State, k: nat): State {
    s.(hs := s.hs.(slots := seq(|s.hs.slots|, i requires 0 <= i < |s.hs.slots| => if i < k then VACANT else s.hs.slots[i])))
  }

  lemma {:induction false} AllLeave(s: State, k: nat)
    requires k <= |s.hs.slots| && forall i :: 0 <= i < |s.hs.slots| ==> H.SlotOk(s.hs.slots[i])
    ensures Reaches(s, OutBelow(s, k))
  {
    if k == 0 {
      assert OutBelow(s, 0).hs.slots == s.hs.slots;
      assert Path(s, [s], [], s);
    } else {
      AllLeave(s, k - 1);
      var a := OutBelow(s, k - 1);
      Leaves(a, k - 1, s.hs.slots[k - 1]);
      assert a.hs.slots[k - 1 := s.hs.slots[k - 1]] == a.hs.slots;
      assert a.hs.slots[k - 1 := VACANT] == OutBelow(s, k).hs.slots;
      Then(s, a, OutBelow(s, k));
    }
  }

  // ---- from anywhere -------------------------------------------------------------------------------

  /** The same snapshot, finalized, over the same pages. */
  ghost predicate Completed(s: State, e: State) {
    Reaches(s, e) && Finalizing(e) && e.st == s.st && e.history == s.history && e.sn.sv == s.sn.sv && e.sn.cut == s.sn.cut
  }

  lemma FromSweep(s: State) returns (e: State)
    requires Empty(s.hs) && s.hs.mgr.Settled? && s.hs.global.phase.Sweep? && !s.sn.walked
    ensures Completed(s, e)
  {
    var m := Walks(s);
    e := Closes(m);
    Then(s, m, e);
  }

  lemma FromSettled(s: State) returns (e: State)
    requires Empty(s.hs) && s.hs.mgr.Settled? && (!s.hs.global.phase.Rest? ==> !s.sn.walked)
    ensures Completed(s, e)
  {
    match s.hs.global.phase
    case Rest =>
      e := s;
      assert Path(s, [s], [], s);
    case Prepare =>
      var m := AdvancesTwice(s);
      e := FromSweep(m);
      Then(s, m, e);
    case InProgress =>
      var m := s.(hs := s.hs.(global := H.Advance(s.hs.global)));
      Advances(s);
      e := FromSweep(m);
      Then(s, m, e);
    case Sweep => e := FromSweep(s);
  }

  lemma FromFrozen(s: State) returns (e: State)
    requires Empty(s.hs) && s.hs.mgr.Frozen? && s.hs.global.phase.Sweep?
    ensures Completed(s, e)
  {
    if s.sn.walked {
      var m := Resumes(s);
      e := Closes(m);
      Then(s, m, e);
    } else {
      var w := WalkNow(s);
      var m := Resumes(w);
      e := Closes(m);
      Then(w, m, e);
      StepThen(s, DoWalk, w, e);
    }
  }

  lemma FromAnywhere(s: State) returns (e: State)
    requires Empty(s.hs) && !s.hs.mgr.Idle? && PhaseOk(s.hs, s.st, s.sn)
    requires s.hs.mgr.Drain? || s.hs.mgr.Frozen? || s.hs.mgr.Table? ==> s.hs.global.phase.Sweep?
    ensures Completed(s, e)
  {
    match s.hs.mgr
    case Scan(k) =>
      ScansThrough(s, k);
      assert At(s, H.Scan(k)) == s;
      e := FromSettled(At(s, H.Settled));
      Then(s, At(s, H.Settled), e);
    case Settled => e := FromSettled(s);
    case Drain(k) =>
      DrainsThrough(s, k);
      assert At(s, H.Drain(k)) == s;
      e := FromFrozen(At(s, H.Frozen));
      Then(s, At(s, H.Frozen), e);
    case Frozen => e := FromFrozen(s);
    case Table => e := Closes(s);
  }

  /** From every reachable state with a snapshot running, whatever guards are out: the workers can all leave, each on
      its own, and the manager can then finish the snapshot. */
  lemma RunningCanFinish(run: seq<State>, steps: seq<Step>, t: nat) returns (e: State)
    requires Run(run, steps) && t < |run| && !run[t].hs.mgr.Idle?
    ensures Completed(run[t], e)
  {
    RunKeepsInv(run, steps, t);
    e := FinishNow(run[t]);
  }

  lemma FinishNow(s: State) returns (e: State)
    requires !s.hs.mgr.Idle? && PhaseOk(s.hs, s.st, s.sn) && forall i :: 0 <= i < |s.hs.slots| ==> H.SlotOk(s.hs.slots[i])
    requires s.hs.mgr.Drain? || s.hs.mgr.Frozen? || s.hs.mgr.Table? ==> s.hs.global.phase.Sweep?
    ensures Completed(s, e)
  {
    AllLeave(s, |s.hs.slots|);
    var m := OutBelow(s, |s.hs.slots|);
    e := FromAnywhere(m);
    Then(s, m, e);
  }
}
