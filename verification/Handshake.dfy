/** The phase handshake of the snapshot manager with its workers.

    Any number of slots; each load, store and compare-and-swap is one step, so the manager's scan of the
    slots is not atomic.  A worker owns a slot from the compare-and-swap that takes it until it clears the
    flag again; `Held(g)` is the span in which it holds a guard for state `g`. */
module Handshake {
  import opened TreeShape

  datatype Phase = Rest | Prepare | InProgress | Sweep

  datatype Stamp = Stamp(phase: Phase, version: nat)

  function Advance(g: Stamp): Stamp {
    match g.phase
    case Rest => Stamp(Prepare, g.version)
    case Prepare => Stamp(InProgress, g.version + 1)
    case InProgress => Stamp(Sweep, g.version)
    case Sweep => Stamp(Rest, g.version)
  }

  /** Position of a state in the order the manager walks them. */
  function Rank(g: Stamp): int {
    4 * g.version + match g.phase case Rest => 0 case Prepare => 1 case InProgress => -2 case Sweep => -1
  }

  lemma RankOrders(g: Stamp, h: Stamp)
    ensures Rank(Advance(g)) == Rank(g) + 1
    ensures Rank(g) == Rank(h) ==> g == h
    ensures Rank(g) <= Rank(h) ==> g.version <= h.version
    ensures Rank(h) == Rank(g) + 1 ==> h == Advance(g)
  {
  }

  /** Where the owner of a slot stands in `reserve_thread_slot` and `release_thread_slot`. */
  datatype Worker =
    | Vacant
    | Claimed                  // flag taken, global state not yet read
    | Loaded(g: Stamp)         // global state read
    | Published(g: Stamp)      // stored as the local state
    | Rechecked(g: Stamp)      // global state read again and equal
    | Held(g: Stamp)           // no pause seen: the guard is granted
    | Undo(g: Stamp)           // about to withdraw
    | Cleared                  // local state reset, flag still taken

  datatype Slot = Slot(taken: bool, local: Option<Stamp>, pc: Worker)

  datatype Manager =
    | Idle                     // no snapshot running
    | Scan(k: nat)             // slots below k seen as INVALID or in the target state
    | Settled                  // scan succeeded
    | Drain(k: nat)            // paused; slots below k seen as INVALID
    | Frozen                   // drained: the inner nodes are being walked
    | Table                    // resumed: the page table is being swept

  datatype State = State(global: Stamp, pause: bool, slots: seq<Slot>, mgr: Manager)

  predicate Init(s: State) {
    && s.global.phase == Rest && !s.pause && s.mgr == Idle
    && forall i :: 0 <= i < |s.slots| ==> s.slots[i] == Slot(false, None, Vacant)
  }

  // ---- steps of the workers ------------------------------------------------------------------------

  function NextSlot(s: State, x: Slot): Slot {
    match x.pc
    case Vacant => if x.taken then x else x.(taken := true, pc := Claimed)
    case Claimed => x.(pc := Loaded(s.global))
    case Loaded(g) => x.(local := Some(g), pc := Published(g))
    case Published(g) => x.(pc := if x.local == Some(s.global) then Rechecked(g) else Undo(g))
    case Rechecked(g) => x.(pc := if s.pause then Undo(g) else Held(g))
    case Held(g) => x.(local := None, pc := Cleared)
    case Undo(g) => x.(local := None, pc := Cleared)
    case Cleared => x.(taken := false, pc := Vacant)
  }

  predicate WorkerStep(s: State, i: nat, s': State) {
    i < |s.slots| && s' == s.(slots := s.slots[i := NextSlot(s, s.slots[i])])
  }

  // ---- steps of the manager ------------------------------------------------------------------------

  predicate Start(s: State, s': State) {
    s.mgr == Idle && s' == s.(global := Advance(s.global), mgr := Scan(0))
  }

  predicate ScanSlot(s: State, s': State) {
    && s.mgr.Scan?
    && s' == s.(mgr :=
      if s.mgr.k >= |s.slots| then Settled
      else if s.slots[s.mgr.k].local == None || s.slots[s.mgr.k].local == Some(s.global) then Scan(s.mgr.k + 1)
      else Scan(0))
  }

  predicate AdvanceStep(s: State, s': State) {
    && s.mgr == Settled && (s.global.phase == Prepare || s.global.phase == InProgress)
    && s' == s.(global := Advance(s.global), mgr := Scan(0))
  }

  predicate Pause(s: State, s': State) {
    s.mgr == Settled && s.global.phase == Sweep && s' == s.(pause := true, mgr := Drain(0))
  }

  predicate DrainSlot(s: State, s': State) {
    && s.mgr.Drain?
    && s' == s.(mgr :=
      if s.mgr.k >= |s.slots| then Frozen
      else if s.slots[s.mgr.k].local == None then Drain(s.mgr.k + 1)
      else Drain(0))
  }

  predicate Resume(s: State, s': State) {
    s.mgr == Frozen && s' == s.(pause := false, mgr := Table)
  }

  predicate SweepDone(s: State, s': State) {
    s.mgr == Table && s' == s.(global := Advance(s.global), mgr := Scan(0))
  }

  predicate Finish(s: State, s': State) {
    s.mgr == Settled && s.global.phase == Rest && s' == s.(mgr := Idle)
  }

  predicate ManagerStep(s: State, s': State) {
    || Start(s, s') || ScanSlot(s, s') || AdvanceStep(s, s') || Pause(s, s')
    || DrainSlot(s, s') || Resume(s, s') || SweepDone(s, s') || Finish(s, s')
  }

  ghost predicate Next(s: State, s': State) {
    ManagerStep(s, s') || exists i :: WorkerStep(s, i, s')
  }

  // ---- invariant -----------------------------------------------------------------------------------

  /** The worker has passed the re-check: it holds a guard or is about to. */
  predicate Entered(pc: Worker) { pc.Rechecked? || pc.Held? }

  predicate SlotOk(x: Slot) {
    && (x.taken <==> !x.pc.Vacant?)
    && x.local == match x.pc {
         case Published(g) => Some(g) case Rechecked(g) => Some(g) case Held(g) => Some(g) case Undo(g) => Some(g)
         case _ => None
       }
  }

  /** The last scan of the current state has succeeded. */
  predicate ScanDone(m: Manager) { !m.Scan? }

  predicate Current(s: State, n: nat) {
    forall i :: 0 <= i < |s.slots| && i < n && Entered(s.slots[i].pc) ==> s.slots[i].pc.g == s.global
  }

  predicate ManagerOk(s: State) {
    && (s.pause <==> s.mgr.Drain? || s.mgr.Frozen?)
    && (s.mgr.Idle? ==> s.global.phase == Rest)
    && (s.mgr.Drain? || s.mgr.Frozen? || s.mgr.Table? ==> s.global.phase == Sweep)
    && Current(s, if s.mgr.Scan? then s.mgr.k else |s.slots|)
    && (s.mgr.Drain? ==> NoneHeld(s, s.mgr.k))
    && (s.mgr.Frozen? ==> NoneHeld(s, |s.slots|))
  }

  predicate NoneHeld(s: State, n: nat) {
    forall i :: 0 <= i < |s.slots| && i < n ==> !s.slots[i].pc.Held?
  }

  /** A worker that passed the re-check is in the current state or the one just before it. */
  predicate Near(s: State, i: nat)
    requires i < |s.slots|
  {
    Entered(s.slots[i].pc) ==> Rank(s.global) - 1 <= Rank(s.slots[i].pc.g) <= Rank(s.global)
  }

  predicate Inv(s: State) {
    && (forall i :: 0 <= i < |s.slots| ==> SlotOk(s.slots[i]))
    && (forall i :: 0 <= i < |s.slots| ==> Near(s, i))
    && ManagerOk(s)
  }

  lemma WorkerKeepsInv(s: State, i: nat, s': State)
    requires Inv(s) && WorkerStep(s, i, s')
    ensures Inv(s')
  {
    forall j | 0 <= j < |s'.slots| ensures SlotOk(s'.slots[j]) && Near(s', j) {
      assert SlotOk(s.slots[j]) && Near(s, j);
    }
  }

  lemma ManagerKeepsInv(s: State, s': State)
    requires Inv(s) && ManagerStep(s, s')
    ensures Inv(s')
  {
    forall j | 0 <= j < |s'.slots| ensures SlotOk(s'.slots[j]) && Near(s', j) {
      assert SlotOk(s.slots[j]) && Near(s, j);
      RankOrders(s.global, s.global);
    }
    if s.mgr.Scan? && s.mgr.k < |s.slots| { assert SlotOk(s.slots[s.mgr.k]); }
    if s.mgr.Drain? && s.mgr.k < |s.slots| { assert SlotOk(s.slots[s.mgr.k]); }
  }

  lemma NextKeepsInv(s: State, s': State)
    requires Inv(s) && Next(s, s')
    ensures Inv(s')
  {
    if ManagerStep(s, s') {
      ManagerKeepsInv(s, s');
    } else {
      var i :| WorkerStep(s, i, s');
      WorkerKeepsInv(s, i, s');
    }
  }

  // ---- whole runs ----------------------------------------------------------------------------------

  ghost predicate Run(run: seq<State>) {
    && |run| > 0 && Init(run[0])
    && forall i :: 0 <= i < |run| - 1 ==> Next(run[i], run[i + 1])
  }

  lemma {:induction false} RunKeepsInv(run: seq<State>, i: nat)
    requires Run(run) && i < |run|
    ensures Inv(run[i])
    decreases i
  {
    if i > 0 {
      RunKeepsInv(run, i - 1);
      NextKeepsInv(run[i - 1], run[i]);
    }
  }

  predicate HoldsGuard(s: State, i: nat) { i < |s.slots| && s.slots[i].pc.Held? }

  /** Guards held at the same moment are for the same state or for two adjacent ones. */
  lemma GuardsAreAdjacent(run: seq<State>, t: nat, i: nat, j: nat)
    requires Run(run) && t < |run| && HoldsGuard(run[t], i) && HoldsGuard(run[t], j)
    ensures var g, h := run[t].slots[i].pc.g, run[t].slots[j].pc.g;
      g == h || h == Advance(g) || g == Advance(h)
  {
    RunKeepsInv(run, t);
    var g, h := run[t].slots[i].pc.g, run[t].slots[j].pc.g;
    assert Near(run[t], i) && Near(run[t], j);
    RankOrders(g, h);
    RankOrders(h, g);
  }

  /** The scan for `g` is over, or the manager has gone past `g` altogether. */
  predicate Past(s: State, g: Stamp) {
    Rank(s.global) > Rank(g) || (s.global == g && ScanDone(s.mgr))
  }

  lemma PastStays(s: State, s': State, g: Stamp)
    requires Past(s, g) && Next(s, s')
    ensures Past(s', g)
  {
    RankOrders(s.global, g);
  }

  lemma {:induction false} RunStaysPast(run: seq<State>, i: nat, j: nat)
    requires Run(run) && i <= j < |run| && ScanDone(run[i].mgr)
    ensures Past(run[j], run[i].global)
    decreases j
  {
    if i < j {
      RunStaysPast(run, i, j - 1);
      PastStays(run[j - 1], run[j], run[i].global);
    }
  }

  /** Phase handshake: once the scan for a state has succeeded, no worker holds a guard for an earlier state
      then or at any later moment. */
  lemma NoEarlierGuard(run: seq<State>, i: nat, j: nat, w: nat)
    requires Run(run) && i <= j < |run| && ScanDone(run[i].mgr) && HoldsGuard(run[j], w)
    ensures Rank(run[i].global) <= Rank(run[j].slots[w].pc.g)
  {
    RunKeepsInv(run, j);
    RunStaysPast(run, i, j);
    assert Near(run[j], w);
  }

  /** While the page table is swept every guard is for the new version; during finalize every guard is a
      resting one, which captures nothing. */
  lemma SweepAndFinalizeGuards(run: seq<State>, t: nat, w: nat)
    requires Run(run) && t < |run| && HoldsGuard(run[t], w)
    ensures run[t].mgr.Table? ==> run[t].slots[w].pc.g == Stamp(Sweep, run[t].global.version)
    ensures run[t].mgr.Settled? && run[t].global.phase == Rest ==>
      run[t].slots[w].pc.g == Stamp(Rest, run[t].global.version)
    ensures !run[t].mgr.Frozen?
  {
    RunKeepsInv(run, t);
    assert Entered(run[t].slots[w].pc);
  }

  /** Sweep freeze: from the successful drain until the pause is lifted no guard is held or granted. */
  lemma FrozenHasNoGuards(run: seq<State>, i: nat, j: nat)
    requires Run(run) && i <= j < |run| && run[i].mgr.Frozen?
    requires forall t :: i <= t <= j ==> run[t].pause
    ensures forall t, w :: i <= t <= j ==> !HoldsGuard(run[t], w)
  {
    forall t, w | i <= t <= j ensures !HoldsGuard(run[t], w) {
      StaysFrozen(run, i, t);
      RunKeepsInv(run, t);
    }
  }

  lemma {:induction false} StaysFrozen(run: seq<State>, i: nat, j: nat)
    requires Run(run) && i <= j < |run| && run[i].mgr.Frozen?
    requires forall t :: i <= t <= j ==> run[t].pause
    ensures run[j].mgr.Frozen?
    decreases j
  {
    if i < j {
      StaysFrozen(run, i, j - 1);
      assert Next(run[j - 1], run[j]);
    }
  }

  /** The flag a worker clears is always its own: the compare-and-swap in the withdrawal path succeeds. */
  lemma FlagIsTaken(run: seq<State>, t: nat, w: nat)
    requires Run(run) && t < |run| && w < |run[t].slots| && run[t].slots[w].pc.Cleared?
    ensures run[t].slots[w].taken && run[t].slots[w].local == None
  {
    RunKeepsInv(run, t);
  }
}
