/** Optimistic lock coupling: any number of threads descend, lock leaves, and split nodes at once.

    Every atomic load, compare-and-swap, lock and unlock is one step.  A splitting thread changes the tree
    in one step, at some point while it holds the write locks of the inner nodes it changes, and checks no
    more than `Possible` before it does; that the change is in place is for `LockCouplingProof` to show.  A
    thread that reads an inner node whose version has moved on since it was recorded reads an arbitrary
    child pointer, which covers every intermediate state of the writer's critical section. */
module LockCoupling {
  import opened Bytes
  import opened TreeShape

  /** The version word of an inner node: bit 1 is the lock, the bits above count completed writes.  Taking
      and dropping the write lock both add 2. */
  datatype Word = Word(epoch: nat, locked: bool) {
    function Raw(): nat { 4 * epoch + if locked then 2 else 0 }

    function Bumped(): Word {
      if locked then Word(epoch + 1, false) else Word(epoch, true)
    }

    predicate NoLaterThan(w: Word) {
      epoch < w.epoch || (epoch == w.epoch && (locked ==> w.locked))
    }
  }

  /** The structured word is the raw one: locking and unlocking add 2, the lock is bit 1, and the order is
      the numeric one. */
  lemma WordIsRaw(a: Word, b: Word)
    ensures a.Bumped().Raw() == a.Raw() + 2
    ensures a.locked <==> (a.Raw() / 2) % 2 == 1
    ensures a.NoLaterThan(b) <==> a.Raw() <= b.Raw()
  {
  }

  const FRESH := Word(0, false)

  /** How a thread came to a page: by the root pointer, or through inner node `n` seen at version `v`. */
  datatype Via = Top | Through(n: nat, v: Word)

  datatype LeafLock = Shared(readers: set<nat>) | Excl(writer: nat)

  datatype Pc =
    | Idle
    | Arrived(cur: Ref, via: Via)                       // pointer read, nothing validated
    | Seen(c: nat, vc: Word, via: Via)                   // try_read(c) returned version vc
    | Standing(c: nat, vc: Word, via: Via)               // check_parent! passed for c
    | LeafLocked(p: nat, excl: bool, via: Via)          // leaf lock taken
    | InLeaf(p: nat, excl: bool, via: Via)              // check_parent! passed: operating on the leaf
    | ParentHeld(p: nat, n: nat)                        // leaf x-locked, parent upgraded to a write lock
    | ParentDone(p: nat, q: nat, n: nat)                // leaf split, parent still write-locked
    | LeafDone(held: set<nat>)                          // only leaf locks left
    | CurHeld(c: nat, n: nat, v: Word)                   // inner split: c write-locked
    | BothHeld(c: nat, n: nat)                          // inner split: c and its parent n write-locked
    | BothDone(c: nat, n: nat)                          // split made
    | RootHeld(c: nat)                                  // root split: c write-locked
    | RootDone(c: nat, m: nat)                          // new root m installed, still write-locked
    | CurDone(c: nat)                                   // only c left to unlock

  datatype Thread = Thread(key: Key, pc: Pc)

  datatype State = State(tree: Tree, ver: map<nat, Word>, locks: map<nat, LeafLock>, threads: map<nat, Thread>)

  // ---- steps ---------------------------------------------------------------------------------------

  predicate HoldsLeaf(s: State, u: nat, p: nat) {
    p in s.locks && match s.locks[p] case Shared(r) => u in r case Excl(w) => w == u
  }

  predicate HoldsExcl(s: State, u: nat, p: nat) {
    p in s.locks && s.locks[p] == Excl(u)
  }

  function Goto(s: State, u: nat, pc: Pc): State
    requires u in s.threads
  {
    s.(threads := s.threads[u := s.threads[u].(pc := pc)])
  }

  function Acquire(l: LeafLock, u: nat, excl: bool): LeafLock
    requires l.Shared?
  {
    if excl then Excl(u) else Shared(l.readers + {u})
  }

  function Release(l: LeafLock, u: nat): LeafLock {
    match l case Shared(r) => Shared(r - {u}) case Excl(w) => if w == u then Shared({}) else l
  }

  /** Drop every lock `u` holds on the leaves in `ps`. */
  function ReleaseAll(locks: map<nat, LeafLock>, u: nat, ps: set<nat>): map<nat, LeafLock> {
    map p | p in locks :: if p in ps then Release(locks[p], u) else locks[p]
  }

  function Bump(s: State, n: nat): State
    requires n in s.ver
  {
    s.(ver := s.ver[n := s.ver[n].Bumped()])
  }

  /** `check_parent!`: the parent's version is unchanged, or the page is still the root. */
  predicate ParentUnchanged(s: State, cur: Ref, via: Via) {
    match via case Top => s.tree.root == cur case Through(n, v) => n in s.ver && s.ver[n] == v
  }

  /** The child pointer `c`'s reader obtains: the routed one if `c` is still at the recorded version, any
      pointer to an existing page of the right kind otherwise. */
  predicate ReadsKid(s: State, c: nat, vc: Word, key: Key, kid: Ref)
    requires c in s.tree.inners && c in s.ver
  {
    var x := s.tree.inners[c];
    && Exists(s.tree, kid) && (kid.LeafRef? <==> x.height == 0)
    && (s.ver[c] == vc ==>
          Slot(x.seps, key) < |x.kids| && kid == KidRef(x, Slot(x.seps, key)))
  }

  predicate DoBegin(s: State, u: nat, k: Key, s': State) {
    && u in s.threads && s.threads[u].pc.Idle?
    && s' == s.(threads := s.threads[u := Thread(k, Arrived(s.tree.root, Top))])
  }

  predicate DoTryRead(s: State, u: nat, s': State) {
    && u in s.threads && var pc := s.threads[u].pc;
    && pc.Arrived? && pc.cur.InnerRef? && pc.cur.id in s.ver
    && s' == if s.ver[pc.cur.id].locked then Goto(s, u, Idle)
             else Goto(s, u, Seen(pc.cur.id, s.ver[pc.cur.id], pc.via))
  }

  predicate DoCheckNode(s: State, u: nat, s': State) {
    && u in s.threads && var pc := s.threads[u].pc;
    && pc.Seen?
    && s' == if ParentUnchanged(s, InnerRef(pc.c), pc.via) then Goto(s, u, Standing(pc.c, pc.vc, pc.via))
             else Goto(s, u, Idle)
  }

  predicate DoDescend(s: State, u: nat, kid: Ref, s': State) {
    && u in s.threads && var pc := s.threads[u].pc;
    && pc.Standing? && pc.c in s.tree.inners && pc.c in s.ver && ReadsKid(s, pc.c, pc.vc, s.threads[u].key, kid)
    && s' == Goto(s, u, Arrived(kid, Through(pc.c, pc.vc)))
  }

  predicate DoLockLeaf(s: State, u: nat, excl: bool, s': State) {
    && u in s.threads && var pc := s.threads[u].pc;
    && pc.Arrived? && pc.cur.LeafRef? && pc.cur.id in s.locks
    && s.locks[pc.cur.id].Shared? && (excl ==> s.locks[pc.cur.id].readers == {})
    && s' == Goto(s.(locks := s.locks[pc.cur.id := Acquire(s.locks[pc.cur.id], u, excl)]), u,
                  LeafLocked(pc.cur.id, excl, pc.via))
  }

  predicate DoCheckLeaf(s: State, u: nat, s': State) {
    && u in s.threads && var pc := s.threads[u].pc;
    && pc.LeafLocked?
    && s' == if ParentUnchanged(s, LeafRef(pc.p), pc.via) then Goto(s, u, InLeaf(pc.p, pc.excl, pc.via))
             else Goto(s.(locks := ReleaseAll(s.locks, u, {pc.p})), u, Idle)
  }

  /** `try_upgrade`: only the sole reader may become the writer. */
  predicate DoUpgradeLeaf(s: State, u: nat, s': State) {
    && u in s.threads && var pc := s.threads[u].pc;
    && pc.InLeaf? && !pc.excl && pc.p in s.locks && s.locks[pc.p] == Shared({u})
    && s' == Goto(s.(locks := s.locks[pc.p := Excl(u)]), u, InLeaf(pc.p, true, pc.via))
  }

  predicate DoGiveUp(s: State, u: nat, s': State) {
    && u in s.threads && var pc := s.threads[u].pc;
    && (pc.Arrived? || pc.Seen? || pc.Standing? || pc.LeafLocked? || pc.InLeaf? || pc.LeafDone?)
    && s' == Goto(s.(locks := ReleaseAll(s.locks, u, LeafLocks(pc))), u, Idle)
  }

  /** A compare-and-swap from the recorded version to the locked one. */
  predicate DoLock(s: State, u: nat, n: nat, v: Word, pc': Pc, s': State) {
    u in s.threads && n in s.ver && s.ver[n] == v && s' == Goto(Bump(s, n), u, pc')
  }

  predicate DoUpgradeParent(s: State, u: nat, s': State) {
    && u in s.threads && var pc := s.threads[u].pc;
    pc.InLeaf? && pc.excl && pc.via.Through? && DoLock(s, u, pc.via.n, pc.via.v, ParentHeld(pc.p, pc.via.n), s')
  }

  predicate DoLockCur(s: State, u: nat, s': State) {
    && u in s.threads && var pc := s.threads[u].pc;
    pc.Standing? && pc.via.Through? && DoLock(s, u, pc.c, pc.vc, CurHeld(pc.c, pc.via.n, pc.via.v), s')
  }

  predicate DoLockCurParent(s: State, u: nat, s': State) {
    && u in s.threads && var pc := s.threads[u].pc;
    pc.CurHeld? && DoLock(s, u, pc.n, pc.v, BothHeld(pc.c, pc.n), s')
  }

  predicate DoLockRoot(s: State, u: nat, s': State) {
    && u in s.threads && var pc := s.threads[u].pc;
    pc.Standing? && pc.via.Top? && DoLock(s, u, pc.c, pc.vc, RootHeld(pc.c), s')
  }

  /** The operation itself: insert (`Some`) or delete (`None`) the thread's key in the locked leaf. */
  function WriteEffect(p: nat, key: Key, v: Option<Value>): Effect {
    match v case Some(x) => Put(p, key, x) case None => Remove(p, key)
  }

  predicate DoWrite(s: State, u: nat, v: Option<Value>, s': State) {
    && u in s.threads && var pc := s.threads[u].pc;
    && pc.InLeaf? && pc.excl && Possible(s.tree, WriteEffect(pc.p, s.threads[u].key, v))
    && s' == s.(tree := Apply(s.tree, WriteEffect(pc.p, s.threads[u].key, v)))
  }

  predicate DoSplitLeaf(s: State, u: nat, key: Key, q: nat, s': State) {
    && u in s.threads && var pc := s.threads[u].pc;
    && pc.ParentHeld? && Possible(s.tree, SplitLeaf(pc.n, pc.p, q, key))
    && s' == Goto(s.(tree := Apply(s.tree, SplitLeaf(pc.n, pc.p, q, key)), locks := s.locks[q := Excl(u)]), u,
                  ParentDone(pc.p, q, pc.n))
  }

  predicate DoSplitRootLeaf(s: State, u: nat, key: Key, q: nat, m: nat, s': State) {
    && u in s.threads && var pc := s.threads[u].pc;
    && pc.InLeaf? && pc.excl && pc.via.Top? && Possible(s.tree, SplitRootLeaf(pc.p, q, m, key))
    && s' == Goto(s.(tree := Apply(s.tree, SplitRootLeaf(pc.p, q, m, key)), ver := s.ver[m := FRESH],
                     locks := s.locks[q := Excl(u)]), u, LeafDone({pc.p, q}))
  }

  predicate DoSplitInner(s: State, u: nat, d: nat, s': State) {
    && u in s.threads && var pc := s.threads[u].pc;
    && pc.BothHeld? && Possible(s.tree, SplitInner(pc.n, pc.c, d))
    && s' == Goto(s.(tree := Apply(s.tree, SplitInner(pc.n, pc.c, d)), ver := s.ver[d := FRESH]), u,
                  BothDone(pc.c, pc.n))
  }

  predicate DoSplitRootInner(s: State, u: nat, d: nat, m: nat, s': State) {
    && u in s.threads && var pc := s.threads[u].pc;
    && pc.RootHeld? && Possible(s.tree, SplitRootInner(pc.c, d, m))
    && s' == Goto(s.(tree := Apply(s.tree, SplitRootInner(pc.c, d, m)),
                     ver := s.ver[d := FRESH][m := FRESH.Bumped()]), u, RootDone(pc.c, m))
  }

  /** The write lock the thread drops next, and where it stands afterwards. */
  function Unlocks(pc: Pc): Option<(nat, Pc)> {
    match pc
    case ParentHeld(p, n) => Some((n, LeafDone({p})))
    case ParentDone(p, q, n) => Some((n, LeafDone({p, q})))
    case CurHeld(c, n, v) => Some((c, Idle))
    case BothHeld(c, n) => Some((n, CurDone(c)))
    case BothDone(c, n) => Some((n, CurDone(c)))
    case RootHeld(c) => Some((c, Idle))
    case RootDone(c, m) => Some((m, CurDone(c)))
    case CurDone(c) => Some((c, Idle))
    case _ => None
  }

  predicate DoUnlock(s: State, u: nat, s': State) {
    && u in s.threads && var next := Unlocks(s.threads[u].pc);
    next.Some? && next.value.0 in s.ver && s' == Goto(Bump(s, next.value.0), u, next.value.1)
  }

  datatype Step =
    | Begin(key: Key) | TryRead | CheckNode | Descend(kid: Ref)
    | LockLeaf(excl: bool) | CheckLeaf | UpgradeLeaf | GiveUp
    | UpgradeParent | LockCur | LockCurParent | LockRoot | Unlock
    | Write(v: Option<Value>)
    | CutLeaf(key': Key, q: nat) | CutRootLeaf(key': Key, q: nat, m: nat) | CutInner(d: nat) | CutRootInner(d: nat, m: nat)

  predicate Next(s: State, u: nat, step: Step, s': State) {
    match step
    case Begin(k) => DoBegin(s, u, k, s')
    case TryRead => DoTryRead(s, u, s')
    case CheckNode => DoCheckNode(s, u, s')
    case Descend(kid) => DoDescend(s, u, kid, s')
    case LockLeaf(excl) => DoLockLeaf(s, u, excl, s')
    case CheckLeaf => DoCheckLeaf(s, u, s')
    case UpgradeLeaf => DoUpgradeLeaf(s, u, s')
    case GiveUp => DoGiveUp(s, u, s')
    case UpgradeParent => DoUpgradeParent(s, u, s')
    case LockCur => DoLockCur(s, u, s')
    case LockCurParent => DoLockCurParent(s, u, s')
    case LockRoot => DoLockRoot(s, u, s')
    case Unlock => DoUnlock(s, u, s')
    case Write(v) => DoWrite(s, u, v, s')
    case CutLeaf(key, q) => DoSplitLeaf(s, u, key, q, s')
    case CutRootLeaf(key, q, m) => DoSplitRootLeaf(s, u, key, q, m, s')
    case CutInner(d) => DoSplitInner(s, u, d, s')
    case CutRootInner(d, m) => DoSplitRootInner(s, u, d, m, s')
  }

  /** Leaves `pc` has locked. */
  function LeafLocks(pc: Pc): set<nat> {
    match pc
    case LeafLocked(p, excl, via) => {p}
    case InLeaf(p, excl, via) => {p}
    case ParentHeld(p, n) => {p}
    case ParentDone(p, q, n) => {p, q}
    case LeafDone(held) => held
    case _ => {}
  }

  /** Inner nodes `pc` has write-locked. */
  function WriteHeld(pc: Pc): set<nat> {
    match pc
    case ParentHeld(p, n) => {n}
    case ParentDone(p, q, n) => {n}
    case CurHeld(c, n, v) => {c}
    case BothHeld(c, n) => {c, n}
    case BothDone(c, n) => {c, n}
    case RootHeld(c) => {c}
    case RootDone(c, m) => {c, m}
    case CurDone(c) => {c}
    case _ => {}
  }

  predicate Init(s: State) {
    && s.ver.Keys == s.tree.inners.Keys && s.locks.Keys == s.tree.leaves.Keys
    && (forall n :: n in s.ver ==> !s.ver[n].locked)
    && (forall p :: p in s.locks ==> s.locks[p] == Shared({}))
    && (forall u :: u in s.threads ==> s.threads[u].pc == Idle)
  }

  // ---- invariant -----------------------------------------------------------------------------------

  /** The recorded way to `cur` is right for as long as the parent has not moved on. */
  predicate ViaOk(s: State, key: Key, cur: Ref, via: Via) {
    && Exists(s.tree, cur)
    && (via.Through? ==>
          && via.n in s.tree.inners && via.n in s.ver && !via.v.locked && via.v.NoLaterThan(s.ver[via.n])
          && (s.ver[via.n] == via.v ==> Leads(s.tree, key, via.n, cur)))
  }

  /** Inner node `n` is responsible for `key` and routes it to `cur`. */
  predicate Leads(t: Tree, key: Key, n: nat, cur: Ref) {
    && n in t.inners && Within(key, t.inners[n].lo, t.inners[n].hi)
    && Slot(t.inners[n].seps, key) < |t.inners[n].kids| && KidRef(t.inners[n], Slot(t.inners[n].seps, key)) == cur
  }

  predicate ThreadOk(s: State, u: nat)
    requires u in s.threads
  {
    var key, pc := s.threads[u].key, s.threads[u].pc;
    && (forall p :: p in LeafLocks(pc) ==> HoldsLeaf(s, u, p))
    && (forall n :: n in WriteHeld(pc) ==> n in s.ver && s.ver[n].locked)
    && match pc
       case Arrived(cur, via) => ViaOk(s, key, cur, via)
       case Seen(c, vc, via) =>
         c in s.ver && vc.NoLaterThan(s.ver[c]) && !vc.locked && ViaOk(s, key, InnerRef(c), via)
       case Standing(c, vc, via) =>
         && c in s.ver && vc.NoLaterThan(s.ver[c]) && !vc.locked && ViaOk(s, key, InnerRef(c), via) && c in s.tree.inners
         && (s.ver[c] == vc ==> Within(key, s.tree.inners[c].lo, s.tree.inners[c].hi))
         && (s.ver[c] == vc && via.Top? ==> s.tree.root == InnerRef(c))
       case LeafLocked(p, excl, via) => (excl ==> HoldsExcl(s, u, p)) && ViaOk(s, key, LeafRef(p), via)
       case InLeaf(p, excl, via) =>
         && (excl ==> HoldsExcl(s, u, p)) && ViaOk(s, key, LeafRef(p), via)
         && Within(key, s.tree.leaves[p].lo, s.tree.leaves[p].hi)
         && (via.Top? ==> s.tree.root == LeafRef(p))
       case ParentHeld(p, n) => HoldsExcl(s, u, p) && Leads(s.tree, key, n, LeafRef(p))
       case CurHeld(c, n, v) => c in s.tree.inners && ViaOk(s, key, InnerRef(c), Through(n, v))
       case BothHeld(c, n) => c in s.tree.inners && n != c && Leads(s.tree, key, n, InnerRef(c))
       case RootHeld(c) => s.tree.root == InnerRef(c)
       case BothDone(c, n) => n != c
       case RootDone(c, m) => m != c
       case _ => true
  }

  predicate Coupled(s: State) {
    && s.ver.Keys == s.tree.inners.Keys && s.locks.Keys == s.tree.leaves.Keys
    && (forall u :: u in s.threads ==> ThreadOk(s, u))
    && (forall u, w :: u in s.threads && w in s.threads && u != w ==>
          WriteHeld(s.threads[u].pc) !! WriteHeld(s.threads[w].pc))
  }

  ghost predicate Inv(s: State) {
    WF(s.tree) && Coupled(s)
  }
}
