/** The life of a block: it is handed out as large as was asked for, it is in use until somebody frees it, and
    nothing about it ever gets stuck. */
module RingLives {
  import opened TreeShape
  import opened Ring
  import opened RingProof
  import opened RingTheorems

  // ---- requests ------------------------------------------------------------------------------------

  /** The allocation in progress at `i` is the one begun at `j`. */
  predicate Requested(run: seq<Ring>, steps: seq<Step>, j: nat, i: nat, size: nat)
    requires |run| == |steps| + 1
  {
    && j < i < |run| && steps[j] == AllocBegin(size)
    && forall k :: j < k <= i ==> !run[k].alloc.NoAlloc? && run[k].alloc.size == size
  }

  /** Whatever is being allocated was asked for, and has been worked on since. */
  lemma {:induction false} RequestOf(run: seq<Ring>, steps: seq<Step>, i: nat) returns (j: nat)
    requires Run(run, steps) && i < |run| && !run[i].alloc.NoAlloc?
    ensures Requested(run, steps, j, i, run[i].alloc.size)
    decreases i
  {
    assert i > 0;
    assert StepTo(run[i - 1], steps[i - 1], run[i]);
    if steps[i - 1].AllocBegin? {
      j := i - 1;
    } else {
      AllocGoesOn(run[i - 1], steps[i - 1]);
      j := RequestOf(run, steps, i - 1);
    }
  }

  lemma AllocGoesOn(s: Ring, step: Step)
    requires Sane(s) && CanStep(s, step) && !step.AllocBegin? && !Next(s, step).alloc.NoAlloc?
    ensures !s.alloc.NoAlloc? && Next(s, step).alloc.size == s.alloc.size
  {
  }

  /** A block gets a guard when an allocation ends with it, and in no other way; it is then at least as large
      as the request, and if it is new it is less than eight bytes larger, and the tail moves past it. */
  lemma GuardedIsAllocated(run: seq<Ring>, steps: seq<Step>, i: nat, a: nat) returns (j: nat)
    requires Run(run, steps) && i < |steps| && a in run[i + 1].blocks && run[i + 1].blocks[a].use.Guarded?
    requires a !in run[i].blocks || !run[i].blocks[a].use.Guarded?
    ensures (steps[i].AllocBump? && a == run[i].tail) || (steps[i].AllocReuse? && run[i].alloc.Popping? && a == run[i].alloc.p)
    ensures j < i && steps[j].AllocBegin? && Requested(run, steps, j, i, steps[j].size) && run[i + 1].alloc.NoAlloc?
    ensures var size := run[i + 1].blocks[a].size;
      && size >= steps[j].size
      && (steps[i].AllocBump? ==> size < steps[j].size + 8 && run[i + 1].tail == a + 8 + size)
  {
    RunKeepsInv(run, steps, i);
    assert StepTo(run[i], steps[i], run[i + 1]);
    NewGuard(run[i], steps[i], a);
    j := RequestOf(run, steps, i);
  }

  predicate EvictorStep(step: Step) {
    || step.EvReserve? || step.EvAcquire? || step.EvRelease? || step.EvTombstone? || step.EvSawDead? || step.EvSawFree?
    || step.EvFind? || step.EvUnlist? || step.EvMark?
  }

  lemma EvictorGivesNoGuard(s: Ring, step: Step, a: nat)
    requires Sane(s) && CanStep(s, step) && EvictorStep(step) && a in Next(s, step).blocks && Next(s, step).blocks[a].use.Guarded?
    ensures a in s.blocks && s.blocks[a].use.Guarded?
  {
  }

  lemma ClientGivesNoGuard(s: Ring, step: Step, a: nat)
    requires Sane(s) && CanStep(s, step) && !EvictorStep(step) && !step.AllocBump? && !step.AllocReuse?
    requires a in Next(s, step).blocks && Next(s, step).blocks[a].use.Guarded?
    ensures a in s.blocks && s.blocks[a].use.Guarded?
  {
  }

  lemma NewGuard(s: Ring, step: Step, a: nat)
    requires Sane(s) && AllocOk(s) && CanStep(s, step) && a in Next(s, step).blocks && Next(s, step).blocks[a].use.Guarded?
    requires a !in s.blocks || !s.blocks[a].use.Guarded?
    ensures step.AllocBump? || step.AllocReuse?
    ensures !s.alloc.NoAlloc? && Next(s, step).alloc.NoAlloc? && Next(s, step).blocks[a].size >= s.alloc.size
    ensures step.AllocBump? ==> a == s.tail && Next(s, step).blocks[a].size < s.alloc.size + 8 && Next(s, step).tail == a + 8 + Next(s, step).blocks[a].size
    ensures step.AllocReuse? ==> a == s.alloc.p
  {
    if EvictorStep(step) {
      EvictorGivesNoGuard(s, step, a);
    } else if !step.AllocBump? && !step.AllocReuse? {
      ClientGivesNoGuard(s, step, a);
    }
  }

  /** Both ways to end an allocation do hand out a block. */
  lemma AllocationEnds(run: seq<Ring>, steps: seq<Step>, i: nat)
    requires Run(run, steps) && i < |steps|
    ensures steps[i].AllocBump? ==> run[i].tail !in run[i].blocks && run[i].tail in run[i + 1].blocks && run[i + 1].blocks[run[i].tail].use.Guarded?
    ensures steps[i].AllocReuse? ==>
      && run[i].alloc.Popping? && run[i].alloc.p in run[i].blocks && run[i].blocks[run[i].alloc.p].use.Popped?
      && run[i + 1].blocks[run[i].alloc.p].use.Guarded?
  {
    RunKeepsInv(run, steps, i);
    assert StepTo(run[i], steps[i], run[i + 1]);
    TailIsFree(run[i]);
    if steps[i].AllocReuse? {
      assert BlockOk(run[i], run[i].alloc.p);
      PoppedIsListed(run[i]);
    }
  }

  lemma TailIsFree(s: Ring)
    requires Tiled(s)
    ensures s.tail !in s.blocks
  {
    assert forall a :: a in s.blocks ==> BlockFits(s, a);
  }

  /** An allocation gives up only if the aligned request with its header is more than all unused memory. */
  lemma FullMeansFull(run: seq<Ring>, steps: seq<Step>, i: nat, words: nat)
    requires Run(run, steps) && i < |steps| && steps[i].AllocFull? && run[i].alloc.Allocating?
    requires words % 8 == 0 && run[i].alloc.size <= words < run[i].alloc.size + 8
    ensures words + 8 > run[i].cap - (run[i].tail - run[i].head)
  {
    assert StepTo(run[i], steps[i], run[i + 1]);
  }

  // ---- in use until freed --------------------------------------------------------------------------

  /** Handed out and not yet given up. */
  predicate Live(b: Block) { b.use.Guarded? || b.use.Open? || b.use.Client? || b.use.Linking? || b.use.EvHeld? }

  /** The eviction callback succeeded, or a client gave the block back. */
  predicate Frees(step: Step, a: nat) { step == EvTombstone(a) || step == DeallocDead(a) || step == DeallocListed(a) }

  lemma EvictorLeavesLive(s: Ring, step: Step, a: nat)
    requires Sane(s) && CanStep(s, step) && EvictorStep(step) && a in s.blocks && BlockOk(s, a) && Live(s.blocks[a]) && step != EvTombstone(a)
    requires step.EvFind? ==> Class(s, step.a) < |s.lists| && ListOk(s, Class(s, step.a))
    ensures a in Next(s, step).blocks && Live(Next(s, step).blocks[a])
  {
  }

  lemma ClientLeavesLive(s: Ring, step: Step, a: nat)
    requires Sane(s) && CanStep(s, step) && a in s.blocks && BlockOk(s, a) && Live(s.blocks[a]) && !Frees(step, a)
    requires step.GuardDrop? || step.Acquire? || step.HandleDrop? || step.DeallocDead? || step.DeallocLink? || step.DeallocListed? || step.BumpHead?
    ensures a in Next(s, step).blocks && Live(Next(s, step).blocks[a])
  {
  }

  lemma PopLeavesLive(s: Ring, a: nat)
    requires Sane(s) && CanStep(s, AllocPop) && a in s.blocks && BlockOk(s, a) && Live(s.blocks[a]) && ListOk(s, PopClass(s))
    ensures a in Next(s, AllocPop).blocks && Live(Next(s, AllocPop).blocks[a])
  {
    assert s.lists[PopClass(s)][0] in s.lists[PopClass(s)];
  }

  lemma AllocLeavesLive(s: Ring, step: Step, a: nat)
    requires Sane(s) && Tiled(s) && CanStep(s, step) && a in s.blocks && BlockOk(s, a) && Live(s.blocks[a])
    requires step.AllocBegin? || step.AllocCold? || step.AllocReuse? || step.AllocFull? || step.AllocFill? || step.AllocBump?
    ensures a in Next(s, step).blocks && Live(Next(s, step).blocks[a])
  {
    TailIsFree(s);
  }

  lemma StaysLive(s: Ring, step: Step, a: nat)
    requires Inv(s) && CanStep(s, step) && a in s.blocks && Live(s.blocks[a]) && !Frees(step, a)
    ensures a in Next(s, step).blocks && Live(Next(s, step).blocks[a])
  {
    assert BlockOk(s, a);
    if EvictorStep(step) {
      if step.EvFind? { assert ListOk(s, Class(s, step.a)); }
      EvictorLeavesLive(s, step, a);
    } else if step.AllocPop? {
      assert ListOk(s, PopClass(s));
      PopLeavesLive(s, a);
    } else if step.AllocBegin? || step.AllocCold? || step.AllocReuse? || step.AllocFull? || step.AllocFill? || step.AllocBump? {
      AllocLeavesLive(s, step, a);
    } else {
      ClientLeavesLive(s, step, a);
    }
  }

  /** A block in use stays in the ring and in use until the callback or a client frees it. */
  lemma {:induction false} LivesUntilFreed(run: seq<Ring>, steps: seq<Step>, i: nat, j: nat, a: nat) returns (k: nat)
    requires Run(run, steps) && i <= j < |run| && a in run[i].blocks && Live(run[i].blocks[a])
    requires a !in run[j].blocks || !Live(run[j].blocks[a])
    ensures i <= k < j && Frees(steps[k], a)
    decreases j - i
  {
    if Frees(steps[i], a) {
      k := i;
    } else {
      RunKeepsInv(run, steps, i);
      assert StepTo(run[i], steps[i], run[i + 1]);
      StaysLive(run[i], steps[i], a);
      k := LivesUntilFreed(run, steps, i + 1, j, a);
    }
  }

  /** Dropping the guard makes the block ready; if the head passes it later, it was freed in between. */
  lemma DroppedThenFreed(run: seq<Ring>, steps: seq<Step>, i: nat, j: nat, a: nat) returns (k: nat)
    requires Run(run, steps) && i < j < |steps| && steps[i] == GuardDrop(a) && steps[j].BumpHead? && run[j].head == a
    ensures a in run[i + 1].blocks && run[i + 1].blocks[a].st.Ready? && run[i + 1].blocks[a].use.Open?
    ensures i < k < j && Frees(steps[k], a)
  {
    RunKeepsInv(run, steps, i);
    RunKeepsInv(run, steps, j);
    assert StepTo(run[i], steps[i], run[i + 1]) && StepTo(run[j], steps[j], run[j + 1]);
    assert BlockOk(run[i], a) && BlockOk(run[j], a);
    k := LivesUntilFreed(run, steps, i + 1, j, a);
  }

  // ---- the states of a block -----------------------------------------------------------------------

  /** The move of block `a`'s state byte that a step makes, if it makes one: from what to what. */
  function Move(s: Ring, step: Step, a: nat): Option<(MetaState, MetaState)> {
    match step
    case AllocCold => if s.alloc.Popping? && s.alloc.p == a then Some((FreeListed, Tombstone)) else None
    case AllocReuse => if s.alloc.Popping? && s.alloc.p == a then Some((FreeListed, NotReady)) else None
    case GuardDrop(x) => if x == a then Some((NotReady, Ready)) else None
    case Acquire(x) => if x == a then Some((Ready, BeginTombstone)) else None
    case HandleDrop(x) => if x == a then Some((BeginTombstone, Ready)) else None
    case DeallocDead(x) => if x == a then Some((BeginTombstone, Tombstone)) else None
    case DeallocListed(x) => if x == a then Some((BeginTombstone, FreeListed)) else None
    case EvAcquire(x) => if x == a then Some((Ready, BeginTombstone)) else None
    case EvRelease(x) => if x == a then Some((BeginTombstone, Ready)) else None
    case EvTombstone(x) => if x == a then Some((BeginTombstone, Tombstone)) else None
    case EvUnlist(x) => if x == a then Some((FreeListed, Tombstone)) else None
    case EvMark(x) => if x == a then Some((Tombstone, Evicted)) else None
    case _ => None
  }

  /** Every change of a state byte is one of the life cycle's, made by the party entitled to it, and from the
      state that party expects. */
  lemma LifeCycle(run: seq<Ring>, steps: seq<Step>, i: nat, a: nat)
    requires Run(run, steps) && i < |steps| && a in run[i].blocks && a in run[i + 1].blocks
    ensures var st, st' := run[i].blocks[a].st, run[i + 1].blocks[a].st;
      match Move(run[i], steps[i], a) case Some(m) => st == m.0 && st' == m.1 case None => st' == st
  {
    RunKeepsInv(run, steps, i);
    assert StepTo(run[i], steps[i], run[i + 1]);
    assert BlockOk(run[i], a);
    TailIsFree(run[i]);
    StateMoves(run[i], steps[i], a);
  }

  lemma StateMoves(s: Ring, step: Step, a: nat)
    requires Sane(s) && CanStep(s, step) && a in s.blocks && a in Next(s, step).blocks && BlockOk(s, a) && s.tail != a && AllocOk(s)
    ensures MovesRight(s, step, a)
  {
    if EvictorStep(step) {
      EvictorMoves(s, step, a);
    } else if AllocStep(step) {
      AllocMoves(s, step, a);
    } else {
      ClientMoves(s, step, a);
    }
  }

  /** The state byte of `a` moves as `Move` says. */
  predicate MovesRight(s: Ring, step: Step, a: nat)
    requires Sane(s) && CanStep(s, step) && a in s.blocks && a in Next(s, step).blocks
  {
    var st, st' := s.blocks[a].st, Next(s, step).blocks[a].st;
    match Move(s, step, a) case Some(m) => st == m.0 && st' == m.1 case None => st' == st
  }

  lemma HandleMoves(s: Ring, step: Step, a: nat)
    requires Sane(s) && CanStep(s, step) && a in s.blocks && BlockOk(s, a)
    requires step.EvAcquire? || step.EvRelease? || step.EvTombstone? || step.EvUnlist? || step.EvMark?
    ensures a in Next(s, step).blocks && MovesRight(s, step, a)
  {
  }

  lemma EvictorMoves(s: Ring, step: Step, a: nat)
    requires Sane(s) && CanStep(s, step) && a in s.blocks && EvictorStep(step) && BlockOk(s, a)
    ensures a in Next(s, step).blocks && MovesRight(s, step, a)
  {
    if !(step.EvReserve? || step.EvSawDead? || step.EvSawFree? || step.EvFind?) { HandleMoves(s, step, a); }
  }

  predicate AllocStep(step: Step) {
    step.AllocBegin? || step.AllocPop? || step.AllocCold? || step.AllocReuse? || step.AllocFull? || step.AllocFill? || step.AllocBump?
  }

  lemma AllocMoves(s: Ring, step: Step, a: nat)
    requires Sane(s) && CanStep(s, step) && a in s.blocks && AllocStep(step) && BlockOk(s, a) && s.tail != a && AllocOk(s)
    ensures a in Next(s, step).blocks && MovesRight(s, step, a)
  {
  }

  lemma ClientMoves(s: Ring, step: Step, a: nat)
    requires Sane(s) && CanStep(s, step) && a in s.blocks && a in Next(s, step).blocks && BlockOk(s, a)
    requires step.GuardDrop? || step.Acquire? || step.HandleDrop? || step.DeallocDead? || step.DeallocLink? || step.DeallocListed? || step.BumpHead?
    ensures MovesRight(s, step, a)
  {
  }

  // ---- nothing gets stuck --------------------------------------------------------------------------

  /** The step that brings the block at the head, or the allocation that has the ring lock, further. */
  function Ahead(s: Ring): Step
    requires Sane(s) && s.head in s.blocks
  {
    if s.alloc.Popping? then AllocReuse
    else if s.alloc.Allocating? then
      if Required(s) > Spare(s) then AllocFull else if Contiguous(s) < Required(s) then AllocFill else AllocBump
    else
      var b := s.blocks[s.head];
      match b.use
      case Gone => BumpHead
      case Guarded => GuardDrop(s.head)
      case Client => DeallocDead(s.head)
      case Linking(c) => DeallocListed(s.head)
      case _ => EvictorNext(s, s.head)
  }

  function EvictorNext(s: Ring, a: nat): Step
    requires Sane(s) && a in s.blocks
  {
    var b := s.blocks[a];
    match b.ev
    case Holding => EvTombstone(a)
    case Unlinked => EvUnlist(a)
    case Tombed => EvMark(a)
    case SawFree =>
      if Class(s, a) < |s.locks| && s.locks[Class(s, a)].Some? then DeallocListed(s.locks[Class(s, a)].value) else EvFind(a)
    case _ => if b.st.Ready? then EvAcquire(a) else if b.st.Tombstone? then EvSawDead(a) else EvSawFree(a)
  }

  /** In every reachable state with a block to evict some step can be taken that brings it, or the allocation
      in its way, further: allocators, clients and evictors do not deadlock. */
  lemma NeverStuck(run: seq<Ring>, steps: seq<Step>, i: nat)
    requires Run(run, steps) && i < |run| && run[i].head < run[i].evicting
    ensures Sane(run[i]) && run[i].head in run[i].blocks && CanStep(run[i], Ahead(run[i]))
  {
    RunKeepsInv(run, steps, i);
    var s := run[i];
    assert BlockOk(s, s.head);
    if s.alloc.NoAlloc? && s.blocks[s.head].ev.SawFree? {
      assert ListOk(s, Class(s, s.head));
    }
    HeadMoves(s);
  }

  lemma HeadMoves(s: Ring)
    requires Sane(s) && AllocOk(s) && s.head in s.blocks && BlockOk(s, s.head) && s.head < s.evicting
    requires s.blocks[s.head].ev.SawFree? ==> Class(s, s.head) < |s.lists| && ListOk(s, Class(s, s.head))
    ensures CanStep(s, Ahead(s))
  {
  }

  /** Whoever has a block may let it go or free it: a client its handle, the evictor after its callback, the
      allocation a block it has taken off a list. */
  lemma HoldersChoose(run: seq<Ring>, steps: seq<Step>, i: nat, a: nat)
    requires Run(run, steps) && i < |run| && a in run[i].blocks
    ensures Sane(run[i])
    ensures var s, b := run[i], run[i].blocks[a];
      && (b.st.Ready? ==> CanStep(s, Acquire(a)))
      && (b.use.Client? ==>
            && CanStep(s, HandleDrop(a)) && Next(s, HandleDrop(a)).blocks[a].st.Ready?
            && CanStep(s, DeallocDead(a)) && Next(s, DeallocDead(a)).blocks[a].st.Tombstone?)
      && (b.use.EvHeld? ==>
            && CanStep(s, EvRelease(a)) && Next(s, EvRelease(a)).blocks[a].st.Ready?
            && CanStep(s, EvTombstone(a)) && Next(s, EvTombstone(a)).blocks[a].st.Tombstone?)
      && (b.use.Popped? ==>
            && CanStep(s, AllocCold) && Next(s, AllocCold).blocks[a].st.Tombstone?
            && CanStep(s, AllocReuse) && Next(s, AllocReuse).blocks[a].st.NotReady?)
  {
    RunKeepsInv(run, steps, i);
    assert BlockOk(run[i], a);
  }

  /** The evictor can always take up the next block. */
  lemma CanAlwaysReserve(run: seq<Ring>, steps: seq<Step>, i: nat)
    requires Run(run, steps) && i < |run| && run[i].alloc.NoAlloc? && run[i].evicting < run[i].tail
    ensures Sane(run[i]) && CanStep(run[i], EvReserve)
  {
    RunKeepsInv(run, steps, i);
  }

  // ---- the head gets on ----------------------------------------------------------------------------

  /** How far the block at the head is from being passed. */
  function Distance(s: Ring): nat
    requires Sane(s) && s.head in s.blocks
  {
    if !s.alloc.NoAlloc? then 20
    else
      var b := s.blocks[s.head];
      (match b.use
       case Gone => 0
       case Guarded => 6
       case Client => 5
       case Linking(c) => 7
       case Open => if b.ev.Holding? then 2 else 3
       case EvHeld => 2
       case Dead => if b.ev.Tombed? then 1 else 2
       case Listed => 5
       case Popped => 7
       case EvUnlinked => 2)
      + (if b.ev.SawFree? then (if b.use.Listed? then -2 else 1) + (if Class(s, s.head) < |s.locks| && s.locks[Class(s, s.head)].Some? then 1 else 0) else 0)
  }

  predicate Moving(s: Ring) { Inv(s) && s.head < s.evicting && s.head in s.blocks }

  lemma ComesCloser(s: Ring)
    requires Moving(s) && Ahead(s) != BumpHead
    ensures CanStep(s, Ahead(s)) && Moving(Next(s, Ahead(s))) && Next(s, Ahead(s)).head == s.head
    ensures Distance(Next(s, Ahead(s))) < Distance(s)
  {
    assert BlockOk(s, s.head);
    if s.blocks[s.head].ev.SawFree? { assert ListOk(s, Class(s, s.head)); }
    HeadMoves(s);
    NextKeepsInv(s, Ahead(s));
    if s.alloc.NoAlloc? { HeadCloser(s); } else { AllocCloser(s); }
  }

  lemma AllocCloser(s: Ring)
    requires Moving(s) && !s.alloc.NoAlloc? && CanStep(s, Ahead(s)) && Inv(Next(s, Ahead(s)))
    ensures Next(s, Ahead(s)).head == s.head && Moving(Next(s, Ahead(s))) && Distance(Next(s, Ahead(s))) < Distance(s)
  {
    if s.alloc.Popping? { assert BlockOk(s, s.alloc.p); }
    TailIsFree(s);
  }

  /** Facts about the head's block that the evictor's way rests on. */
  predicate HeadOk(s: Ring) {
    && Sane(s) && s.head in s.blocks && BlockOk(s, s.head) && s.alloc.NoAlloc?
    && (s.blocks[s.head].ev.SawFree? ==> Class(s, s.head) < |s.lists| && ListOk(s, Class(s, s.head)))
  }

  lemma ClientCloser(s: Ring)
    requires HeadOk(s) && CanStep(s, Ahead(s)) && (s.blocks[s.head].use.Guarded? || s.blocks[s.head].use.Client? || s.blocks[s.head].use.Linking?)
    ensures var s' := Next(s, Ahead(s)); s'.head == s.head && s'.evicting == s.evicting && Sane(s') && s'.head in s'.blocks && Distance(s') < Distance(s)
  {
  }

  lemma HolderCloser(s: Ring)
    requires HeadOk(s) && CanStep(s, EvictorNext(s, s.head)) && (s.blocks[s.head].ev.Holding? || s.blocks[s.head].ev.Unlinked? || s.blocks[s.head].ev.Tombed?)
    ensures var s' := Next(s, EvictorNext(s, s.head));
      s'.head == s.head && s'.evicting == s.evicting && Sane(s') && s'.head in s'.blocks && Distance(s') < Distance(s)
  {
  }

  lemma FreeCloser(s: Ring)
    requires HeadOk(s) && CanStep(s, EvictorNext(s, s.head)) && s.blocks[s.head].ev.SawFree?
    requires !(s.blocks[s.head].use.Guarded? || s.blocks[s.head].use.Client? || s.blocks[s.head].use.Linking? || s.blocks[s.head].use.Gone?)
    ensures var s' := Next(s, EvictorNext(s, s.head));
      s'.head == s.head && s'.evicting == s.evicting && Sane(s') && s'.head in s'.blocks && Distance(s') < Distance(s)
  {
  }

  lemma TryCloser(s: Ring)
    requires HeadOk(s) && CanStep(s, EvictorNext(s, s.head)) && s.blocks[s.head].ev.Trying?
    requires !(s.blocks[s.head].use.Guarded? || s.blocks[s.head].use.Client? || s.blocks[s.head].use.Linking? || s.blocks[s.head].use.Gone?)
    ensures var s' := Next(s, EvictorNext(s, s.head));
      s'.head == s.head && s'.evicting == s.evicting && Sane(s') && s'.head in s'.blocks && Distance(s') < Distance(s)
  {
  }

  lemma HeadCloser(s: Ring)
    requires HeadOk(s) && s.head < s.evicting && CanStep(s, Ahead(s)) && Ahead(s) != BumpHead
    ensures var s' := Next(s, Ahead(s)); s'.head == s.head && s'.evicting == s.evicting && Sane(s') && s'.head in s'.blocks && Distance(s') < Distance(s)
  {
    var b := s.blocks[s.head];
    if b.use.Guarded? || b.use.Client? || b.use.Linking? {
      ClientCloser(s);
    } else if b.ev.SawFree? {
      FreeCloser(s);
    } else if b.ev.Trying? {
      TryCloser(s);
    } else {
      HolderCloser(s);
    }
  }

  // ---- whole ways ----------------------------------------------------------------------------------

  predicate Way(s: Ring, run: seq<Ring>, steps: seq<Step>) {
    && |run| == |steps| + 1 && run[0] == s
    && forall i {:trigger steps[i]} :: 0 <= i < |steps| ==> StepTo(run[i], steps[i], run[i + 1])
  }

  lemma {:induction false} HeadGetsOn(s: Ring) returns (run: seq<Ring>, steps: seq<Step>)
    requires Moving(s)
    ensures Way(s, run, steps) && |steps| <= Distance(s) + 1 && run[|steps|].head > s.head
    decreases Distance(s)
  {
    if Ahead(s) == BumpHead {
      LastMove(s);
      run, steps := [s, Next(s, BumpHead)], [BumpHead];
    } else {
      ComesCloser(s);
      var rest, more := HeadGetsOn(Next(s, Ahead(s)));
      OneMore(s, Ahead(s), rest, more);
      run, steps := [s] + rest, [Ahead(s)] + more;
    }
  }

  lemma LastMove(s: Ring)
    requires Moving(s) && Ahead(s) == BumpHead
    ensures CanStep(s, BumpHead) && Next(s, BumpHead).head > s.head
  {
    assert BlockOk(s, s.head);
    if s.blocks[s.head].ev.SawFree? { assert ListOk(s, Class(s, s.head)); }
    HeadMoves(s);
  }

  lemma OneMore(s: Ring, step: Step, rest: seq<Ring>, more: seq<Step>)
    requires Sane(s) && CanStep(s, step) && Way(Next(s, step), rest, more)
    ensures Way(s, [s] + rest, [step] + more)
  {
    var run, steps := [s] + rest, [step] + more;
    forall i | 0 <= i < |steps| ensures StepTo(run[i], steps[i], run[i + 1]) {
      if i > 0 { assert StepTo(rest[i - 1], more[i - 1], rest[i]); }
    }
  }

  /** From every reachable state with a block to evict, at most twenty-one steps take the head past it: whoever
      has the block can always be got out of the way, and the evictor then sees it through. */
  lemma HeadAlwaysGetsOn(run: seq<Ring>, steps: seq<Step>, i: nat) returns (way: seq<Ring>, taken: seq<Step>)
    requires Run(run, steps) && i < |run| && run[i].head < run[i].evicting
    ensures Way(run[i], way, taken) && |taken| <= 21 && way[|taken|].head > run[i].head
  {
    RunKeepsInv(run, steps, i);
    way, taken := HeadGetsOn(run[i]);
  }

  // ---- a freed block comes back --------------------------------------------------------------------

  /** A block in use, given back and asked for again by a request of its class, is the block handed out: the lists
      are last in, first out, and the tail does not move. */
  lemma FreedIsReused(run: seq<Ring>, steps: seq<Step>, i: nat, a: nat, size: nat) returns (way: seq<Ring>)
    requires Run(run, steps) && i < |run| && Sane(run[i]) && run[i].alloc.NoAlloc? && a in run[i].blocks && run[i].blocks[a].st.Ready?
    requires size > 0 && size >= run[i].classes[|run[i].classes| - 1]
    requires var c := Smaller(run[i].classes, run[i].blocks[a].size);
      c < |run[i].classes| && Larger(run[i].classes, size) == c && run[i].locks[c].None?
    ensures Way(run[i], way, [Acquire(a), DeallocLink(a), DeallocListed(a), AllocBegin(size), AllocPop, AllocReuse])
    ensures way[6].tail == run[i].tail && a in way[6].blocks && way[6].blocks[a].use.Guarded?
  {
    RunKeepsInv(run, steps, i);
    assert BlockOk(run[i], a);
    way := Reuses(run[i], a, size);
  }

  lemma GivenBack(s: Ring, a: nat) returns (s1: Ring, s2: Ring, s3: Ring)
    requires Sane(s) && a in s.blocks && s.blocks[a].st.Ready? && Class(s, a) < |s.locks| && s.locks[Class(s, a)].None?
    ensures StepTo(s, Acquire(a), s1) && StepTo(s1, DeallocLink(a), s2) && StepTo(s2, DeallocListed(a), s3)
    ensures var c := Class(s, a);
      && s3 == s.(blocks := s.blocks[a := s3.blocks[a]], lists := s.lists[c := [a] + s.lists[c]], locks := s.locks[c := None])
      && s3.blocks[a] == s.blocks[a].(st := FreeListed, use := Listed)
  {
    s1 := Next(s, Acquire(a));
    s2 := Next(s1, DeallocLink(a));
    s3 := Next(s2, DeallocListed(a));
  }

  lemma HandedOut(s: Ring, a: nat, size: nat, c: nat) returns (s1: Ring, s2: Ring, s3: Ring)
    requires Sane(s) && s.alloc.NoAlloc? && size > 0 && size >= s.classes[|s.classes| - 1] && Larger(s.classes, size) == c < |s.classes|
    requires a in s.blocks && s.blocks[a].st.FreeListed? && s.blocks[a].size >= s.classes[c] && s.locks[c].None? && s.lists[c] != [] && s.lists[c][0] == a
    ensures StepTo(s, AllocBegin(size), s1) && StepTo(s1, AllocPop, s2) && StepTo(s2, AllocReuse, s3)
    ensures s3.tail == s.tail && a in s3.blocks && s3.blocks[a].use.Guarded?
  {
    s1 := Next(s, AllocBegin(size));
    s2 := Next(s1, AllocPop);
    s3 := Next(s2, AllocReuse);
  }

  lemma Reuses(s: Ring, a: nat, size: nat) returns (way: seq<Ring>)
    requires Sane(s) && s.alloc.NoAlloc? && a in s.blocks && s.blocks[a].st.Ready? && size > 0 && size >= s.classes[|s.classes| - 1]
    requires Class(s, a) < |s.classes| && Larger(s.classes, size) == Class(s, a) && s.locks[Class(s, a)].None?
    ensures Way(s, way, [Acquire(a), DeallocLink(a), DeallocListed(a), AllocBegin(size), AllocPop, AllocReuse])
    ensures way[6].tail == s.tail && a in way[6].blocks && way[6].blocks[a].use.Guarded?
  {
    var s1, s2, s3 := GivenBack(s, a);
    var s4, s5, s6 := HandedOut(s3, a, size, Class(s, a));
    way := [s, s1, s2, s3, s4, s5, s6];
    assert way[1] == s1 && way[2] == s2 && way[3] == s3 && way[4] == s4 && way[5] == s5;
  }
}
