/** What the circular buffer guarantees in every reachable state. */
module RingTheorems {
  import opened TreeShape
  import opened Ring
  import opened RingProof

  // ---- remainders ----------------------------------------------------------------------------------

  lemma ModSum(x: nat, m: nat, d: nat)
    requires d > 0 && m <= d
    ensures (x + m) % d == if x % d + m < d then x % d + m else x % d + m - d
  {
    var q, r := x / d, x % d;
    if r + m < d {
      ModIs(x + m, q, r + m, d);
    } else {
      assert x + m == (q + 1) * d + (r + m - d);
      ModIs(x + m, q + 1, r + m - d, d);
    }
  }

  lemma ModIs(x: nat, q: nat, r: nat, d: nat)
    requires d > 0 && r < d && x == q * d + r
    ensures x % d == r
  {
    var e := x / d;
    assert (q - e) * d == x % d - r;
    Multiple(q - e, d);
  }

  lemma Multiple(k: int, d: nat)
    ensures k >= 1 ==> k * d >= d
    ensures k <= -1 ==> k * d + d <= 0
  {
  }

  // ---- alignment and physical offsets --------------------------------------------------------------

  /** The blocks after a step: none changes shape, and only the tail steps add one. */
  predicate SameShapes(s: Ring, s': Ring) {
    && s'.cap == s.cap && s'.tail == s.tail && s'.tailOff == s.tailOff
    && (forall a :: a in s'.blocks ==> a in s.blocks && s'.blocks[a].size == s.blocks[a].size && s'.blocks[a].off == s.blocks[a].off)
  }

  lemma StepShapes(s: Ring, step: Step)
    requires Sane(s) && CanStep(s, step) && !step.AllocFill? && !step.AllocBump?
    ensures SameShapes(s, Next(s, step))
  {
    if step.EvReserve? || step.EvAcquire? || step.EvRelease? || step.EvTombstone? || step.EvSawDead? || step.EvSawFree? || step.EvFind? {
      EvictorShapes(s, step);
    }
  }

  lemma EvictorShapes(s: Ring, step: Step)
    requires Sane(s) && CanStep(s, step)
    requires step.EvReserve? || step.EvAcquire? || step.EvRelease? || step.EvTombstone? || step.EvSawDead? || step.EvSawFree? || step.EvFind?
    ensures SameShapes(s, Next(s, step))
  {
  }

  lemma WholeWords(x: nat, y: nat)
    requires x % 8 == 0 && y % 8 == 0 && x < y
    ensures y - x >= META && (y - x) % 8 == 0 && (y - x - META) % 8 == 0
  {
  }

  lemma TailRoom(s: Ring)
    requires Tiled(s) && Aligned(s)
    ensures Contiguous(s) >= META && Contiguous(s) % 8 == 0
  {
    WholeWords(s.tailOff, s.cap);
  }

  lemma FillAligned(s: Ring)
    requires Sane(s) && Tiled(s) && Aligned(s) && CanStep(s, AllocFill)
    ensures Aligned(Next(s, AllocFill))
  {
    WholeWords(s.tailOff, s.cap);
  }

  lemma BumpAligned(s: Ring)
    requires Sane(s) && Tiled(s) && Aligned(s) && CanStep(s, AllocBump)
    ensures Aligned(Next(s, AllocBump))
  {
    assert Required(s) % 8 == 0;
  }

  lemma StepAligned(s: Ring, step: Step)
    requires Sane(s) && Tiled(s) && Aligned(s) && CanStep(s, step)
    ensures Contiguous(s) >= META && Aligned(Next(s, step))
  {
    TailRoom(s);
    if step.AllocFill? {
      FillAligned(s);
    } else if step.AllocBump? {
      BumpAligned(s);
    } else {
      StepShapes(s, step);
    }
  }

  lemma TailPhysical(s: Ring, step: Step)
    requires Sane(s) && Tiled(s) && s.tailOff == s.tail % s.cap && Contiguous(s) >= META && CanStep(s, step)
    requires step.AllocFill? || step.AllocBump?
    ensures Next(s, step).tailOff == Next(s, step).tail % s.cap
    ensures Next(s, step).blocks[s.tail].off == s.tailOff
  {
    ModSum(s.tail, if step.AllocFill? then Contiguous(s) else Required(s), s.cap);
  }

  lemma StepPhysical(s: Ring, step: Step)
    requires Sane(s) && Tiled(s) && Physical(s) && Contiguous(s) >= META && CanStep(s, step) && Sane(Next(s, step))
    ensures Physical(Next(s, step))
  {
    if step.AllocFill? || step.AllocBump? { TailPhysical(s, step); } else { StepShapes(s, step); }
  }

  lemma NextKeepsInv(s: Ring, step: Step)
    requires Inv(s) && CanStep(s, step)
    ensures Inv(Next(s, step))
  {
    StepAligned(s, step);
    NextKeepsOwned(s, step);
    StepPhysical(s, step);
  }

  // ---- whole runs ----------------------------------------------------------------------------------

  predicate StepTo(s: Ring, step: Step, s': Ring) { Sane(s) && CanStep(s, step) && s' == Next(s, step) }

  predicate Run(run: seq<Ring>, steps: seq<Step>) {
    && |run| == |steps| + 1 && Init(run[0])
    && forall i {:trigger steps[i]} :: 0 <= i < |steps| ==> StepTo(run[i], steps[i], run[i + 1])
  }

  lemma {:induction false} RunKeepsInv(run: seq<Ring>, steps: seq<Step>, i: nat)
    requires Run(run, steps) && i < |run|
    ensures Inv(run[i])
    decreases i
  {
    if i == 0 {
      InitOk(run[0]);
    } else {
      RunKeepsInv(run, steps, i - 1);
      assert StepTo(run[i - 1], steps[i - 1], run[i]);
      NextKeepsInv(run[i - 1], steps[i - 1]);
    }
  }

  predicate InBlock(s: Ring, a: nat, x: nat) { a in s.blocks && a <= x < End(s, a) }

  lemma {:induction false} Covered(s: Ring, a: nat, x: nat) returns (b: nat)
    requires Tiled(s) && a in s.blocks && a <= x < s.tail
    ensures InBlock(s, b, x)
    decreases x - a
  {
    if x < End(s, a) {
      b := a;
    } else {
      assert BlockFits(s, a);
      b := Covered(s, End(s, a), x);
    }
  }

  /** Ring safety: the pointers keep their order and their distance, every address between head and tail is
      in exactly one block, and blocks are 8-aligned and do not cross the physical end. */
  lemma RingSafety(run: seq<Ring>, steps: seq<Step>, i: nat, x: nat)
    requires Run(run, steps) && i < |run|
    ensures var s := run[i]; s.cap > 0 && s.head <= s.evicting <= s.tail <= s.head + s.cap
    ensures run[i].head <= x < run[i].tail <==> exists a :: InBlock(run[i], a, x)
    ensures forall a, b :: InBlock(run[i], a, x) && InBlock(run[i], b, x) ==> a == b
    ensures forall a :: a in run[i].blocks ==>
      a % 8 == 0 && End(run[i], a) % 8 == 0 && a % run[i].cap + META + run[i].blocks[a].size <= run[i].cap
  {
    RunKeepsInv(run, steps, i);
    TilesCover(run[i], x);
    forall a | a in run[i].blocks
      ensures a % 8 == 0 && End(run[i], a) % 8 == 0 && a % run[i].cap + META + run[i].blocks[a].size <= run[i].cap
    {
      Inside(run[i], a);
    }
  }

  lemma Inside(s: Ring, a: nat)
    requires s.cap > 0 && Tiled(s) && Aligned(s) && Physical(s) && a in s.blocks
    ensures a % 8 == 0 && End(s, a) % 8 == 0 && a % s.cap + META + s.blocks[a].size <= s.cap
  {
    assert BlockFits(s, a);
  }

  lemma TilesCover(s: Ring, x: nat)
    requires Tiled(s)
    ensures s.head <= x < s.tail <==> exists a :: InBlock(s, a, x)
    ensures forall a, b :: InBlock(s, a, x) && InBlock(s, b, x) ==> a == b
  {
    if s.head <= x < s.tail { var a := Covered(s, s.head, x); }
    forall a | InBlock(s, a, x) ensures s.head <= x < s.tail { assert BlockFits(s, a); }
    forall a, b | InBlock(s, a, x) && InBlock(s, b, x) ensures a == b { assert InOrder(s, a, b) && InOrder(s, b, a); }
  }

  /** Distinct blocks occupy disjoint bytes of the buffer. */
  lemma PhysicallyDisjoint(run: seq<Ring>, steps: seq<Step>, i: nat, a: nat, b: nat)
    requires Run(run, steps) && i < |run| && a in run[i].blocks && b in run[i].blocks && a != b
    ensures run[i].cap > 0
    ensures var s := run[i];
      || a % s.cap + META + s.blocks[a].size <= b % s.cap
      || b % s.cap + META + s.blocks[b].size <= a % s.cap
  {
    RunKeepsInv(run, steps, i);
    OrderedDisjoint(run[i], if a < b then a else b, if a < b then b else a);
  }

  lemma OrderedDisjoint(s: Ring, a: nat, b: nat)
    requires s.cap > 0 && Tiled(s) && a in s.blocks && b in s.blocks && a < b
    ensures a % s.cap + META + s.blocks[a].size <= b % s.cap || b % s.cap + META + s.blocks[b].size <= a % s.cap
  {
    assert InOrder(s, a, b) && BlockFits(s, a) && BlockFits(s, b);
    ModSum(a, b - a, s.cap);
  }

  /** `distance_to_tail`, on physical addresses. */
  function DistanceToTail(s: Ring, ptr: nat): int {
    if s.tailOff >= ptr then s.tailOff - ptr else s.cap - (ptr - s.tailOff)
  }

  /** For the data pointer of any block in the ring it is the logical distance from the tail. */
  lemma DistanceIsLogical(run: seq<Ring>, steps: seq<Step>, i: nat, a: nat)
    requires Run(run, steps) && i < |run| && a in run[i].blocks
    ensures DistanceToTail(run[i], run[i].blocks[a].off + META) == run[i].tail - (a + META)
  {
    RunKeepsInv(run, steps, i);
    var s := run[i];
    assert BlockFits(s, a);
    ModSum(a, s.tail - a, s.cap);
  }

  /** The head passes evicted blocks only, and no other step takes a block out of the ring. */
  lemma HeadPassesEvicted(run: seq<Ring>, steps: seq<Step>, i: nat, step: Step, a: nat)
    requires Run(run, steps) && i < |run| && Sane(run[i]) && CanStep(run[i], step) && a in run[i].blocks
    ensures var s' := Next(run[i], step);
      && (a in s'.blocks || (step.BumpHead? && a == run[i].head && run[i].blocks[a].st.Evicted?))
      && (run[i].head != s'.head ==> step.BumpHead?)
  {
  }

  // ---- ownership -----------------------------------------------------------------------------------

  /** No state-transition panic fires, and no popped block is smaller than the request. */
  lemma NoPanic(run: seq<Ring>, steps: seq<Step>, i: nat)
    requires Run(run, steps) && i < |run|
    ensures !run[i].panic
    ensures run[i].alloc.Popping? ==>
      run[i].alloc.p in run[i].blocks && run[i].blocks[run[i].alloc.p].size >= run[i].alloc.size
  {
    RunKeepsInv(run, steps, i);
  }

  /** A block is on at most one free list, once, and only while free-listed or being linked under that
      list's lock; a free-listed block is on its list or in the hands of one thread. */
  lemma OnOneList(run: seq<Ring>, steps: seq<Step>, i: nat, a: nat, c: nat, d: nat)
    requires Run(run, steps) && i < |run| && c < |run[i].lists| && d < |run[i].lists|
    requires a in run[i].lists[c] && a in run[i].lists[d]
    ensures c == d && NoDup(run[i].lists[c]) && a in run[i].blocks && Sane(run[i])
    ensures run[i].blocks[a].st.FreeListed? || (run[i].blocks[a].st.BeginTombstone? && run[i].locks[c] == Some(a))
    ensures run[i].blocks[a].size >= run[i].classes[c]
  {
    RunKeepsInv(run, steps, i);
    assert ListOk(run[i], c) && ListOk(run[i], d);
    assert BlockOk(run[i], a);
  }

  /** The handle of a block -- a deallocating client's or its evictor's -- is out exactly while its state is
      BEGIN_TOMBSTONE, and to one party only; likewise the allocation guard and NOT_READY. */
  lemma OneHandle(run: seq<Ring>, steps: seq<Step>, i: nat, a: nat)
    requires Run(run, steps) && i < |run| && a in run[i].blocks
    ensures var b := run[i].blocks[a];
      && (b.st.BeginTombstone? <==> b.use.Client? || b.use.Linking? || b.use.EvHeld?)
      && (b.ev.Holding? <==> b.use.EvHeld?)
      && (b.st.NotReady? <==> b.use.Guarded?)
      && (!b.ev.NoEv? ==> a < run[i].evicting)
  {
    RunKeepsInv(run, steps, i);
    assert BlockOk(run[i], a);
  }
}
