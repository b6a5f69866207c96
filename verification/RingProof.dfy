/** Ring safety and block ownership for every run of the circular buffer. */
module RingProof {
  import opened TreeShape
  import opened Ring

  lemma InitOk(s: Ring)
    requires Init(s)
    ensures Inv(s)
  {
  }

  // ---- steps that change one block -----------------------------------------------------------------

  /** Changing a block's state, owner or evictor leaves the tiling alone. */
  lemma SameTiles(s: Ring, s': Ring)
    requires Tiled(s) && s'.cap == s.cap && s'.head == s.head && s'.evicting == s.evicting && s'.tail == s.tail && s'.tailOff == s.tailOff
    requires s'.blocks.Keys == s.blocks.Keys
    requires forall a :: a in s.blocks ==> s'.blocks[a].size == s.blocks[a].size && s'.blocks[a].off == s.blocks[a].off
    ensures Tiled(s')
  {
    forall a | a in s'.blocks ensures BlockFits(s', a) { assert BlockFits(s, a); }
    forall a, b | a in s'.blocks && b in s'.blocks ensures InOrder(s', a, b) { assert InOrder(s, a, b); }
  }

  /** A move by the owner of block `x` that touches no list. */
  lemma OneBlock(s: Ring, x: nat, b: Block, alloc': Alloc)
    requires Owned(s) && x in s.blocks && b.size == s.blocks[x].size && b.off == s.blocks[x].off
    requires var s' := s.(blocks := s.blocks[x := b], alloc := alloc'); BlockOk(s', x) && AllocOk(s')
    requires b.use == s.blocks[x].use || !(s.blocks[x].use.Listed? || s.blocks[x].use.Linking?)
    requires alloc' == s.alloc || (!s.alloc.Popping? && !alloc'.Popping?) || (s.alloc.Popping? && s.alloc.p == x && !alloc'.Popping?)
    ensures Owned(s.(blocks := s.blocks[x := b], alloc := alloc'))
  {
    var s' := s.(blocks := s.blocks[x := b], alloc := alloc');
    SameTiles(s, s');
    forall a | a in s'.blocks ensures BlockOk(s', a) { assert BlockOk(s, a); }
    forall c | 0 <= c < |s'.lists| ensures ListOk(s', c) { assert ListOk(s, c); }
  }

  /** The moves of guards, handles and evictors on one block: the state is the one the compare-and-swap
      expects. */
  lemma OwnerStepOk(s: Ring, step: Step)
    requires Owned(s) && CanStep(s, step)
    requires step.GuardDrop? || step.Acquire? || step.HandleDrop? || step.DeallocDead?
    ensures Owned(Next(s, step))
  {
    var a := step.a;
    assert BlockOk(s, a);
    var b := Next(s, step).blocks[a];
    OneBlock(s, a, b, s.alloc);
  }

  lemma EvTakeOk(s: Ring, step: Step)
    requires Owned(s) && CanStep(s, step) && (step.EvAcquire? || step.EvRelease?)
    ensures Owned(Next(s, step))
  {
    assert BlockOk(s, step.a);
    OneBlock(s, step.a, Next(s, step).blocks[step.a], s.alloc);
  }

  lemma EvTombstoneOk(s: Ring, a: nat)
    requires Owned(s) && CanStep(s, EvTombstone(a))
    ensures Owned(Next(s, EvTombstone(a)))
  {
    assert BlockOk(s, a);
    OneBlock(s, a, Next(s, EvTombstone(a)).blocks[a], s.alloc);
  }

  lemma EvUnlistOk(s: Ring, a: nat)
    requires Owned(s) && CanStep(s, EvUnlist(a))
    ensures Owned(Next(s, EvUnlist(a)))
  {
    assert BlockOk(s, a);
    OneBlock(s, a, s.blocks[a].(st := Tombstone, use := Dead, ev := Tombed), s.alloc);
  }

  lemma EvMarkOk(s: Ring, a: nat)
    requires Owned(s) && CanStep(s, EvMark(a))
    ensures Owned(Next(s, EvMark(a)))
  {
    assert BlockOk(s, a);
    OneBlock(s, a, s.blocks[a].(st := Evicted, use := Gone, ev := NoEv), s.alloc);
  }

  lemma EvictorSeesOk(s: Ring, step: Step)
    requires Owned(s) && CanStep(s, step) && (step.EvSawDead? || step.EvSawFree?)
    ensures Owned(Next(s, step))
  {
    var a := step.a;
    assert BlockOk(s, a);
    var b := Next(s, step).blocks[a];
    OneBlock(s, a, b, s.alloc);
  }

  lemma AllocStepOk(s: Ring, step: Step)
    requires Owned(s) && CanStep(s, step) && (step.AllocBegin? || step.AllocFull?)
    ensures Owned(Next(s, step))
  {
    var s' := Next(s, step);
    SameTiles(s, s');
    forall a | a in s'.blocks ensures BlockOk(s', a) { assert BlockOk(s, a); }
    forall c | 0 <= c < |s'.lists| ensures ListOk(s', c) { assert ListOk(s, c); }
  }

  /** The block just popped is the allocator's: still marked as listed, and large enough. */
  lemma PoppedIsListed(s: Ring)
    requires Sane(s) && AllocOk(s) && s.alloc.Popping? && s.alloc.p in s.blocks && BlockOk(s, s.alloc.p)
    ensures s.blocks[s.alloc.p].use.Popped? && s.blocks[s.alloc.p].st.FreeListed? && s.blocks[s.alloc.p].size >= s.alloc.size
  {
  }

  lemma AllocColdOk(s: Ring)
    requires Owned(s) && CanStep(s, AllocCold)
    ensures Owned(Next(s, AllocCold))
  {
    assert BlockOk(s, s.alloc.p);
    PoppedIsListed(s);
    OneBlock(s, s.alloc.p, s.blocks[s.alloc.p].(st := Tombstone, use := Dead), Allocating(s.alloc.size));
  }

  lemma AllocReuseOk(s: Ring)
    requires Owned(s) && CanStep(s, AllocReuse)
    ensures Owned(Next(s, AllocReuse))
  {
    assert BlockOk(s, s.alloc.p);
    PoppedIsListed(s);
    OneBlock(s, s.alloc.p, s.blocks[s.alloc.p].(st := NotReady, use := Guarded), NoAlloc);
  }

  // ---- the free lists ------------------------------------------------------------------------------

  lemma {:induction false} WithoutHas(l: seq<nat>, a: nat, x: nat)
    requires NoDup(l)
    ensures x in Without(l, a) <==> x in l && x != a
    ensures NoDup(Without(l, a))
  {
    if l != [] && l[0] != a {
      WithoutHas(l[1..], a, x);
      WithoutHas(l[1..], a, l[0]);
      assert forall i :: 0 <= i < |l[1..]| ==> l[1..][i] == l[i + 1];
      assert l == [l[0]] + l[1..];
    } else if l != [] {
      assert l == [l[0]] + l[1..];
    }
  }

  /** One list changes, gaining or losing block `x`, and so does that block. */
  lemma OneList(s: Ring, s': Ring, x: nat, c: nat)
    requires Owned(s) && Sane(s') && s'.classes == s.classes && x in s.blocks && x in s'.blocks && c < |s.lists| && Class(s, x) == c
    requires s'.blocks == s.blocks[x := s'.blocks[x]] && s'.blocks[x].size == s.blocks[x].size && s'.blocks[x].off == s.blocks[x].off
    requires s' == s.(blocks := s'.blocks, lists := s.lists[c := s'.lists[c]], locks := s.locks[c := s'.locks[c]], alloc := s'.alloc)
    requires BlockOk(s', x) && ListOk(s', c) && AllocOk(s')
    requires forall a :: a != x ==> (a in s'.lists[c] <==> a in s.lists[c])
    requires s.locks[c] == None || s.locks[c] == Some(x)
    requires forall a :: a in s.blocks && a != x ==> (s.alloc.Popping? && s.alloc.p == a <==> s'.alloc.Popping? && s'.alloc.p == a)
    ensures Owned(s')
  {
    SameTiles(s, s');
    forall a | a in s'.blocks ensures BlockOk(s', a) { assert BlockOk(s, a); }
    forall d | 0 <= d < |s'.lists| ensures ListOk(s', d) {
      assert ListOk(s, d);
      assert d != c ==> x !in s.lists[d];
    }
  }

  lemma HeadPopped(l: seq<nat>)
    requires NoDup(l) && l != []
    ensures NoDup(l[1..]) && forall x :: x in l[1..] <==> x in l && x != l[0]
  {
    assert l == [l[0]] + l[1..];
  }

  lemma PopParts(s: Ring, s': Ring, c: nat)
    requires Sane(s) && c < |s.lists| && s.locks[c].None? && ListOk(s, c) && s.lists[c] != [] && s.alloc.Allocating?
    requires var p := s.lists[c][0];
      && p in s.blocks && BlockOk(s, p) && Class(s, p) == c
      && s' == s.(lists := s.lists[c := s.lists[c][1..]], alloc := Popping(s.alloc.size, p), blocks := s.blocks[p := s.blocks[p].(use := Popped)])
    ensures s.lists[c][0] in s'.blocks && BlockOk(s', s.lists[c][0]) && ListOk(s', c)
  {
    HeadPopped(s.lists[c]);
  }

  lemma AllocPopOk(s: Ring)
    requires Owned(s) && CanStep(s, AllocPop)
    ensures Owned(Next(s, AllocPop))
  {
    var c := PopClass(s);
    assert ListOk(s, c);
    var p := s.lists[c][0];
    assert p in s.lists[c] && BlockOk(s, p);
    HeadPopped(s.lists[c]);
    PopParts(s, Next(s, AllocPop), c);
    OneList(s, Next(s, AllocPop), p, c);
  }

  lemma DeallocLinkOk(s: Ring, a: nat)
    requires Owned(s) && CanStep(s, DeallocLink(a))
    ensures Owned(Next(s, DeallocLink(a)))
  {
    var c := Class(s, a);
    assert ListOk(s, c) && BlockOk(s, a);
    OneList(s, Next(s, DeallocLink(a)), a, c);
  }

  lemma DeallocListedOk(s: Ring, a: nat)
    requires Owned(s) && CanStep(s, DeallocListed(a))
    ensures Owned(Next(s, DeallocListed(a)))
  {
    assert BlockOk(s, a);
    var c := s.blocks[a].use.c;
    assert ListOk(s, c);
    OneList(s, Next(s, DeallocListed(a)), a, c);
  }

  /** `find_and_remove` found the block: it leaves its list. */
  lemma EvFoundOk(s: Ring, a: nat)
    requires Owned(s) && CanStep(s, EvFind(a)) && a in s.lists[Class(s, a)]
    ensures Owned(Next(s, EvFind(a)))
  {
    assert BlockOk(s, a);
    var c := Class(s, a);
    assert ListOk(s, c);
    WithoutAll(s.lists[c], a);
    OneList(s, Next(s, EvFind(a)), a, c);
  }

  lemma EvFindOk(s: Ring, a: nat)
    requires Owned(s) && CanStep(s, EvFind(a))
    ensures Owned(Next(s, EvFind(a)))
  {
    if a in s.lists[Class(s, a)] {
      EvFoundOk(s, a);
    } else {
      assert BlockOk(s, a);
      OneBlock(s, a, s.blocks[a].(ev := Trying), s.alloc);
    }
  }

  lemma WithoutAll(l: seq<nat>, a: nat)
    requires NoDup(l)
    ensures NoDup(Without(l, a)) && forall x :: x in Without(l, a) <==> x in l && x != a
  {
    WithoutHas(l, a, a);
    forall x ensures x in Without(l, a) <==> x in l && x != a { WithoutHas(l, a, x); }
  }

  // ---- head, evicting, tail ------------------------------------------------------------------------

  /** A block goes in at the tail. */
  lemma AppendTiles(s: Ring, b: Block, s': Ring)
    requires Tiled(s) && s' == s.(blocks := s.blocks[s.tail := b], tail := s.tail + META + b.size, tailOff := s'.tailOff, alloc := s'.alloc)
    requires b.off == s.tailOff && META + b.size <= Contiguous(s) && META + b.size <= Spare(s) && s'.tailOff < s.cap
    ensures Tiled(s') && s.tail !in s.blocks
  {
    forall a | a in s.blocks ensures BlockFits(s', a) && End(s', a) == End(s, a) <= s.tail { assert BlockFits(s, a); }
    assert BlockFits(s', s.tail);
    forall a, b | a in s'.blocks && b in s'.blocks ensures InOrder(s', a, b) {
      if a in s.blocks && b in s.blocks { assert InOrder(s, a, b); }
    }
  }

  lemma AppendOk(s: Ring, b: Block, s': Ring)
    requires Owned(s) && s' == s.(blocks := s.blocks[s.tail := b], tail := s.tail + META + b.size, tailOff := s'.tailOff, alloc := NoAlloc)
    requires s.alloc.Allocating? && b.st == StateOf(b.use) && b.ev.NoEv? && (b.use.Guarded? || b.use.Dead?)
    requires b.off == s.tailOff && META + b.size <= Contiguous(s) && META + b.size <= Spare(s) && s'.tailOff < s.cap
    ensures Owned(s')
  {
    AppendTiles(s, b, s');
    forall a | a in s'.blocks ensures BlockOk(s', a) { if a in s.blocks { assert BlockOk(s, a); } }
    forall c | 0 <= c < |s'.lists| ensures ListOk(s', c) { assert ListOk(s, c); }
  }

  lemma AllocFillOk(s: Ring)
    requires Owned(s) && Contiguous(s) >= META && CanStep(s, AllocFill)
    ensures Owned(Next(s, AllocFill))
  {
    AppendOk(s, Block(s.tailOff, Contiguous(s) - META, Tombstone, Dead, NoEv), Next(s, AllocFill));
  }

  lemma AllocBumpOk(s: Ring)
    requires Owned(s) && CanStep(s, AllocBump)
    ensures Owned(Next(s, AllocBump))
  {
    AppendOk(s, Block(s.tailOff, AlignUp(s.alloc.size), NotReady, Guarded, NoEv), Next(s, AllocBump));
  }

  lemma EvReserveOk(s: Ring)
    requires Owned(s) && CanStep(s, EvReserve)
    ensures Owned(Next(s, EvReserve))
  {
    var s' := Next(s, EvReserve);
    ReserveTiles(s, s');
    assert BlockOk(s, s.evicting);
    forall a | a in s'.blocks ensures BlockOk(s', a) { assert BlockOk(s, a) && InOrder(s, s.evicting, a); }
    forall c | 0 <= c < |s'.lists| ensures ListOk(s', c) { assert ListOk(s, c); }
  }

  lemma ReserveTiles(s: Ring, s': Ring)
    requires Tiled(s) && s.evicting in s.blocks && s.evicting < s.tail
    requires s' == s.(evicting := End(s, s.evicting), blocks := s.blocks[s.evicting := s.blocks[s.evicting].(ev := Trying)])
    ensures Tiled(s')
  {
    assert BlockFits(s, s.evicting);
    forall a | a in s'.blocks ensures BlockFits(s', a) { assert BlockFits(s, a); }
    forall a, b | a in s'.blocks && b in s'.blocks ensures InOrder(s', a, b) { assert InOrder(s, a, b); }
  }

  lemma BumpHeadOk(s: Ring)
    requires Owned(s) && CanStep(s, BumpHead)
    ensures Owned(Next(s, BumpHead))
  {
    var s' := Next(s, BumpHead);
    BumpTiles(s, s');
    assert BlockOk(s, s.head);
    forall a | a in s'.blocks ensures BlockOk(s', a) { assert BlockOk(s, a); }
    forall c | 0 <= c < |s'.lists| ensures ListOk(s', c) { assert ListOk(s, c); }
  }

  lemma BumpTiles(s: Ring, s': Ring)
    requires Tiled(s) && s.head < s.evicting && s.head in s.blocks && s' == s.(head := End(s, s.head), blocks := s.blocks - {s.head})
    ensures Tiled(s')
  {
    assert BlockFits(s, s.head);
    if s.evicting in s.blocks { assert InOrder(s, s.head, s.evicting); }
    forall a | a in s'.blocks ensures BlockFits(s', a) { assert BlockFits(s, a) && InOrder(s, s.head, a); }
    forall a, b | a in s'.blocks && b in s'.blocks ensures InOrder(s', a, b) { assert InOrder(s, a, b); }
  }

  // ---- every step, whole runs ----------------------------------------------------------------------

  lemma NextKeepsOwned(s: Ring, step: Step)
    requires Owned(s) && Contiguous(s) >= META && CanStep(s, step)
    ensures Owned(Next(s, step))
  {
    match step
    case AllocBegin(size) => AllocStepOk(s, step);
    case AllocPop => AllocPopOk(s);
    case AllocCold => AllocColdOk(s);
    case AllocReuse => AllocReuseOk(s);
    case AllocFull => AllocStepOk(s, step);
    case AllocFill => AllocFillOk(s);
    case AllocBump => AllocBumpOk(s);
    case GuardDrop(a) => OwnerStepOk(s, step);
    case Acquire(a) => OwnerStepOk(s, step);
    case HandleDrop(a) => OwnerStepOk(s, step);
    case DeallocDead(a) => OwnerStepOk(s, step);
    case DeallocLink(a) => DeallocLinkOk(s, a);
    case DeallocListed(a) => DeallocListedOk(s, a);
    case EvReserve => EvReserveOk(s);
    case EvAcquire(a) => EvTakeOk(s, step);
    case EvRelease(a) => EvTakeOk(s, step);
    case EvTombstone(a) => EvTombstoneOk(s, a);
    case EvSawDead(a) => EvictorSeesOk(s, step);
    case EvSawFree(a) => EvictorSeesOk(s, step);
    case EvFind(a) => EvFindOk(s, a);
    case EvUnlist(a) => EvUnlistOk(s, a);
    case EvMark(a) => EvMarkOk(s, a);
    case BumpHead => BumpHeadOk(s);
  }
}
