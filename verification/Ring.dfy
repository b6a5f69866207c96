/** The circular buffer: allocation, deallocation and eviction by any number of threads.

    Addresses are logical and only grow.  The physical offset, which the source computes as the remainder by
    the capacity, is kept beside the address; `Physical` says that it is that remainder.  Each
    compare-and-swap on a block's state, each use of the ring lock or of a free list's lock, is one step.
    `use` names the party entitled to the block's next move and `ev` is the progress of its evictor; the
    source keeps both in program counters and in the guards and handles it hands out.  A compare-and-swap
    whose failure would panic sets `panic` when it fails. */
module Ring {
  import opened TreeShape

  const META := 8

  datatype MetaState = NotReady | Ready | BeginTombstone | Tombstone | FreeListed | Evicted

  datatype Use =
    | Guarded             // the allocation guard is out
    | Open                // in use: anyone may try to tombstone it
    | Client              // a deallocating client has the handle
    | Linking(c: nat)     // linked into list c, whose lock is still held
    | EvHeld              // the evictor has the handle
    | Listed              // on its free list
    | Popped              // taken off its list by the allocation in progress
    | EvUnlinked          // taken off its list by its evictor
    | Dead                // free
    | Gone                // evicted: the head may pass

  /** Where `evict_one` stands with this block. */
  datatype Ev = NoEv | Trying | SawFree | Holding | Tombed | Unlinked

  datatype Block = Block(off: nat, size: nat, st: MetaState, use: Use, ev: Ev)

  /** The allocation that holds the ring lock. */
  datatype Alloc = NoAlloc | Allocating(size: nat) | Popping(size: nat, p: nat)

  datatype Ring = Ring(
    cap: nat, head: nat, evicting: nat, tail: nat, tailOff: nat, blocks: map<nat, Block>,
    classes: seq<nat>, lists: seq<seq<nat>>, locks: seq<Option<nat>>, alloc: Alloc, panic: bool)

  // ---- size classes, largest first -----------------------------------------------------------------

  /** First class that is at most `size`; `|classes|` when there is none. */
  function Smaller(classes: seq<nat>, size: nat): (c: nat)
    ensures c <= |classes|
    ensures c < |classes| ==> classes[c] <= size
    ensures forall i :: 0 <= i < c ==> classes[i] > size
  {
    if |classes| == 0 || classes[0] <= size then 0 else 1 + Smaller(classes[1..], size)
  }

  /** Last class that is at least `size`; `|classes|` when there is none. */
  function Larger(classes: seq<nat>, size: nat): (c: nat)
    ensures c <= |classes|
    ensures c < |classes| ==> classes[c] >= size
    ensures forall i :: 0 <= i < |classes| && (i > c || c == |classes|) ==> classes[i] < size
  {
    if |classes| == 0 then 0
    else if classes[|classes| - 1] >= size then |classes| - 1
    else var c := Larger(classes[..|classes| - 1], size); if c == |classes| - 1 then |classes| else c
  }

  // ---- geometry ------------------------------------------------------------------------------------

  function End(s: Ring, a: nat): nat
    requires a in s.blocks
  {
    a + META + s.blocks[a].size
  }

  /** The least multiple of 8 that is at least `size`. */
  function AlignUp(size: nat): (r: nat)
    ensures r % 8 == 0 && size <= r < size + 8
  {
    (size + 7) / 8 * 8
  }

  /** Bytes up to the physical end of the buffer. */
  function Contiguous(s: Ring): int { s.cap - s.tailOff }

  function Wrapped(s: Ring, off: nat): nat { if off == s.cap then 0 else off }

  // ---- steps ---------------------------------------------------------------------------------------

  /** A compare-and-swap of block `a` from `from` to `b'.st` that must not fail. */
  function Must(s: Ring, a: nat, from: MetaState, b': Block): Ring
    requires a in s.blocks
  {
    if s.blocks[a].st == from then s.(blocks := s.blocks[a := b']) else s.(panic := true)
  }

  datatype Step =
    | AllocBegin(size: nat)
    | AllocPop                        // free_list.remove, under the list lock
    | AllocCold                       // the popped block is in the copy-on-access region
    | AllocReuse
    | AllocFull
    | AllocFill
    | AllocBump
    | GuardDrop(a: nat)
    | Acquire(a: nat)                 // acquire_exclusive_dealloc_handle
    | HandleDrop(a: nat)
    | DeallocDead(a: nat)
    | DeallocLink(a: nat)             // try_add, keeping the list lock
    | DeallocListed(a: nat)
    | EvReserve
    | EvAcquire(a: nat)
    | EvRelease(a: nat)               // the callback failed
    | EvTombstone(a: nat)             // the callback succeeded
    | EvSawDead(a: nat)
    | EvSawFree(a: nat)
    | EvFind(a: nat)                  // find_and_remove, under the list lock
    | EvUnlist(a: nat)
    | EvMark(a: nat)
    | BumpHead

  predicate CanStep(s: Ring, step: Step)
    requires Sane(s)
  {
    match step
    case AllocBegin(size) => s.alloc.NoAlloc? && size > 0 && Larger(s.classes, size) < |s.classes| && size >= s.classes[|s.classes| - 1]
    case AllocPop => s.alloc.Allocating? && PopClass(s) < |s.locks| && s.locks[PopClass(s)].None? && s.lists[PopClass(s)] != []
    case AllocCold => s.alloc.Popping? && s.alloc.p in s.blocks
    case AllocReuse => s.alloc.Popping? && s.alloc.p in s.blocks
    case AllocFull => s.alloc.Allocating? && Required(s) > Spare(s)
    case AllocFill => s.alloc.Allocating? && Required(s) <= Spare(s) && Contiguous(s) < Required(s)
    case AllocBump => s.alloc.Allocating? && Required(s) <= Spare(s) && Required(s) <= Contiguous(s)
    case GuardDrop(a) => a in s.blocks && s.blocks[a].use.Guarded?
    case Acquire(a) => a in s.blocks && s.blocks[a].st.Ready?
    case HandleDrop(a) => a in s.blocks && s.blocks[a].use.Client?
    case DeallocDead(a) => a in s.blocks && s.blocks[a].use.Client?
    case DeallocLink(a) =>
      && a in s.blocks && s.blocks[a].use.Client? && Class(s, a) < |s.locks| && s.locks[Class(s, a)].None?
    case DeallocListed(a) => a in s.blocks && s.blocks[a].use.Linking? && s.blocks[a].use.c < |s.locks|
    case EvReserve => s.alloc.NoAlloc? && s.evicting < s.tail && s.evicting in s.blocks
    case EvAcquire(a) => a in s.blocks && s.blocks[a].ev.Trying? && s.blocks[a].st.Ready?
    case EvRelease(a) => a in s.blocks && s.blocks[a].ev.Holding?
    case EvTombstone(a) => a in s.blocks && s.blocks[a].ev.Holding?
    case EvSawDead(a) => a in s.blocks && s.blocks[a].ev.Trying? && s.blocks[a].st.Tombstone?
    case EvSawFree(a) => a in s.blocks && s.blocks[a].ev.Trying? && s.blocks[a].st.FreeListed?
    case EvFind(a) => a in s.blocks && s.blocks[a].ev.SawFree? && Class(s, a) < |s.locks| && s.locks[Class(s, a)].None?
    case EvUnlist(a) => a in s.blocks && s.blocks[a].ev.Unlinked?
    case EvMark(a) => a in s.blocks && s.blocks[a].ev.Tombed?
    case BumpHead => s.alloc.NoAlloc? && s.head < s.evicting && s.head in s.blocks && s.blocks[s.head].st.Evicted?
  }

  function PopClass(s: Ring): nat
    requires s.alloc.Allocating?
  {
    Larger(s.classes, s.alloc.size)
  }

  function Class(s: Ring, a: nat): nat
    requires a in s.blocks
  {
    Smaller(s.classes, s.blocks[a].size)
  }

  function Required(s: Ring): nat
    requires s.alloc.Allocating?
  {
    AlignUp(s.alloc.size) + META
  }

  function Spare(s: Ring): int { s.cap - (s.tail - s.head) }

  predicate Sane(s: Ring) { s.cap > 0 && |s.lists| == |s.locks| == |s.classes| && |s.classes| > 0 }

  function Next(s: Ring, step: Step): Ring
    requires Sane(s) && CanStep(s, step)
  {
    match step
    case AllocBegin(size) => s.(alloc := Allocating(size))
    case AllocPop =>
      var c := PopClass(s);
      var p := s.lists[c][0];
      if p !in s.blocks then s.(panic := true)
      else s.(lists := s.lists[c := s.lists[c][1..]], alloc := Popping(s.alloc.size, p),
              blocks := s.blocks[p := s.blocks[p].(use := Popped)])
    case AllocCold =>
      var p := s.alloc.p;
      Must(s, p, FreeListed, s.blocks[p].(st := Tombstone, use := Dead)).(alloc := Allocating(s.alloc.size))
    case AllocReuse =>
      var p := s.alloc.p;
      if s.blocks[p].size < s.alloc.size then s.(panic := true)
      else Must(s, p, FreeListed, s.blocks[p].(st := NotReady, use := Guarded)).(alloc := NoAlloc)
    case AllocFull => s.(alloc := NoAlloc)
    case AllocFill =>
      if Contiguous(s) < META then s.(panic := true)
      else s.(blocks := s.blocks[s.tail := Block(s.tailOff, Contiguous(s) - META, Tombstone, Dead, NoEv)],
              tail := s.tail + Contiguous(s), tailOff := 0, alloc := NoAlloc)
    case AllocBump =>
      s.(blocks := s.blocks[s.tail := Block(s.tailOff, AlignUp(s.alloc.size), NotReady, Guarded, NoEv)],
         tail := s.tail + Required(s), tailOff := Wrapped(s, s.tailOff + Required(s)), alloc := NoAlloc)
    case GuardDrop(a) => Must(s, a, NotReady, s.blocks[a].(st := Ready, use := Open))
    case Acquire(a) => Must(s, a, Ready, s.blocks[a].(st := BeginTombstone, use := Client))
    case HandleDrop(a) => Must(s, a, BeginTombstone, s.blocks[a].(st := Ready, use := Open))
    case DeallocDead(a) => Must(s, a, BeginTombstone, s.blocks[a].(st := Tombstone, use := Dead))
    case DeallocLink(a) =>
      var c := Class(s, a);
      s.(lists := s.lists[c := [a] + s.lists[c]], locks := s.locks[c := Some(a)],
         blocks := s.blocks[a := s.blocks[a].(use := Linking(c))])
    case DeallocListed(a) =>
      Must(s, a, BeginTombstone, s.blocks[a].(st := FreeListed, use := Listed)).(locks := s.locks[s.blocks[a].use.c := None])
    case EvReserve =>
      s.(evicting := End(s, s.evicting), blocks := s.blocks[s.evicting := s.blocks[s.evicting].(ev := Trying)])
    case EvAcquire(a) => Must(s, a, Ready, s.blocks[a].(st := BeginTombstone, use := EvHeld, ev := Holding))
    case EvRelease(a) => Must(s, a, BeginTombstone, s.blocks[a].(st := Ready, use := Open, ev := Trying))
    case EvTombstone(a) => Must(s, a, BeginTombstone, s.blocks[a].(st := Tombstone, use := Dead, ev := Tombed))
    case EvSawDead(a) => s.(blocks := s.blocks[a := s.blocks[a].(ev := Tombed)])
    case EvSawFree(a) => s.(blocks := s.blocks[a := s.blocks[a].(ev := SawFree)])
    case EvFind(a) =>
      var c := Class(s, a);
      if a in s.lists[c]
      then s.(lists := s.lists[c := Without(s.lists[c], a)], blocks := s.blocks[a := s.blocks[a].(use := EvUnlinked, ev := Unlinked)])
      else s.(blocks := s.blocks[a := s.blocks[a].(ev := Trying)])
    case EvUnlist(a) => Must(s, a, FreeListed, s.blocks[a].(st := Tombstone, use := Dead, ev := Tombed))
    case EvMark(a) => Must(s, a, Tombstone, s.blocks[a].(st := Evicted, use := Gone, ev := NoEv))
    case BumpHead => s.(head := End(s, s.head), blocks := s.blocks - {s.head})
  }

  function Without(l: seq<nat>, a: nat): seq<nat> {
    if l == [] then [] else if l[0] == a then l[1..] else [l[0]] + Without(l[1..], a)
  }

  // ---- invariant -----------------------------------------------------------------------------------

  /** The blocks tile [head, tail) and none of them crosses the physical end. */
  predicate Tiled(s: Ring) {
    && s.head <= s.evicting <= s.tail <= s.head + s.cap && s.tailOff < s.cap
    && (s.head < s.tail ==> s.head in s.blocks)
    && (s.evicting < s.tail ==> s.evicting in s.blocks)
    && (forall a {:trigger BlockFits(s, a)} :: a in s.blocks ==> BlockFits(s, a))
    && (forall a, b {:trigger InOrder(s, a, b)} :: a in s.blocks && b in s.blocks ==> InOrder(s, a, b))
  }

  predicate InOrder(s: Ring, a: nat, b: nat)
    requires a in s.blocks && b in s.blocks
  {
    a < b ==> End(s, a) <= b
  }

  predicate BlockFits(s: Ring, a: nat)
    requires a in s.blocks
  {
    && s.head <= a && End(s, a) <= s.tail && (End(s, a) < s.tail ==> End(s, a) in s.blocks)
    && s.blocks[a].off + META + s.blocks[a].size <= s.cap
  }

  /** Everything is a multiple of 8. */
  predicate Aligned(s: Ring) {
    && s.cap % 8 == 0 && s.tail % 8 == 0 && s.tailOff % 8 == 0
    && forall a :: a in s.blocks ==> a % 8 == 0 && s.blocks[a].size % 8 == 0
  }

  /** Offsets are remainders by the capacity. */
  predicate Physical(s: Ring)
    requires s.cap > 0
  {
    && s.tailOff == s.tail % s.cap
    && forall a :: a in s.blocks ==> s.blocks[a].off == a % s.cap
  }

  function StateOf(u: Use): MetaState {
    match u
    case Guarded => NotReady
    case Open => Ready
    case Client => BeginTombstone
    case Linking(c) => BeginTombstone
    case EvHeld => BeginTombstone
    case Listed => FreeListed
    case Popped => FreeListed
    case EvUnlinked => FreeListed
    case Dead => Tombstone
    case Gone => Evicted
  }

  /** One owner: the state byte is the one its owner left, and the evictor's progress fits it. */
  predicate BlockOk(s: Ring, a: nat)
    requires a in s.blocks && Sane(s)
  {
    var b := s.blocks[a];
    && b.st == StateOf(b.use)
    && (b.ev.Holding? <==> b.use.EvHeld?)
    && (b.ev.Unlinked? <==> b.use.EvUnlinked?)
    && (b.ev.Tombed? ==> b.use.Dead?)
    && (a < s.evicting <==> !b.ev.NoEv? || b.use.Gone?)
    && (b.use.Gone? ==> b.ev.NoEv?)
    && (b.ev.SawFree? ==> Class(s, a) < |s.lists|)
    && (b.use.Listed? || b.use.Linking? ==> Class(s, a) < |s.lists| && a in s.lists[Class(s, a)])
    && (b.use.Linking? ==> b.use.c == Class(s, a) && s.locks[b.use.c] == Some(a))
    && (b.use.Popped? <==> s.alloc.Popping? && s.alloc.p == a)
    && (b.use.Popped? || b.use.EvUnlinked? ==> Class(s, a) < |s.lists|)
  }

  predicate NoDup(l: seq<nat>) { forall i, j :: 0 <= i < j < |l| ==> l[i] != l[j] }

  /** A list holds blocks of its class, each once, all free except one being linked under the list's lock. */
  predicate ListOk(s: Ring, c: nat)
    requires c < |s.lists| && Sane(s)
  {
    && NoDup(s.lists[c])
    && (forall a :: a in s.lists[c] ==> a in s.blocks && Class(s, a) == c && (s.blocks[a].use.Listed? || s.blocks[a].use == Linking(c)))
    && (s.locks[c].Some? ==> s.locks[c].value in s.blocks && s.blocks[s.locks[c].value].use == Linking(c))
  }

  predicate AllocOk(s: Ring) {
    && (s.alloc.Popping? ==> s.alloc.p in s.blocks && s.blocks[s.alloc.p].size >= s.alloc.size)
    && (s.alloc.Allocating? ==> s.alloc.size > 0 && Larger(s.classes, s.alloc.size) < |s.classes|)
    && (s.alloc.Popping? ==> s.alloc.size > 0 && Larger(s.classes, s.alloc.size) < |s.classes|)
  }

  /** Ownership, over a tiled ring. */
  predicate Owned(s: Ring) {
    && Sane(s) && Tiled(s) && !s.panic && AllocOk(s)
    && (forall a :: a in s.blocks ==> BlockOk(s, a))
    && (forall c :: 0 <= c < |s.lists| ==> ListOk(s, c))
  }

  predicate Inv(s: Ring) { Owned(s) && Aligned(s) && Physical(s) }

  /** An empty buffer whose capacity is a multiple of 8. */
  predicate Init(s: Ring) {
    && Sane(s) && s.cap % 8 == 0 && s.head == s.evicting == s.tail == s.tailOff == 0 && s.blocks == map[]
    && (forall c :: 0 <= c < |s.lists| ==> s.lists[c] == [] && s.locks[c].None?)
    && s.alloc.NoAlloc? && !s.panic
  }
}
