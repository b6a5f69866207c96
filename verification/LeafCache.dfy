/** One leaf as it is stored: a disk base page, alone or under a mini page (record cache and write buffer)
    or a full page (copy of the whole page).

    Records are kept by key here; `LeafPage` shows that the slotted byte page is such a map.  `Look` is what
    a client reads.  The reorganisations below may happen at any time under the leaf lock; each leaves every
    read unchanged, while a client write changes its own key only. */
module LeafCache {
  import opened Bytes
  import opened TreeShape

  /** `Cache` and `Phantom` are the clean forms of `Insert` and `Delete`. */
  datatype Op = Insert | Delete | Cache | Phantom {
    predicate Dirty() { Insert? || Delete? }
    predicate Absent() { Delete? || Phantom? }
    function Cleaned(): Op { match this case Insert => Cache case Delete => Phantom case _ => this }
    function Dirtied(): Op { match this case Cache => Insert case Phantom => Delete case _ => this }
  }

  datatype Rec = Rec(op: Op, value: Value)

  type Recs = map<Key, Rec>

  /** A base page with its snapshot version. */
  datatype Node = Node(version: nat, recs: Recs)

  /** A page in the circular buffer.  `changed` is the top bit of the version word: the version moved since
      the page was created, so the base page does not have it yet. */
  datatype Cached = Cached(version: nat, changed: bool, size: nat, recs: Recs)

  datatype Loc = AtBase | AtMini(c: Cached) | AtFull(c: Cached)

  datatype Page = Page(base: Node, loc: Loc)

  // ---- what a client reads -------------------------------------------------------------------------

  function RecGet(recs: Recs, k: Key): Option<Value> {
    if k in recs && !recs[k].op.Absent() then Some(recs[k].value) else None
  }

  /** Mini page first, base page on a miss; a deletion mark in the mini page is a hit. */
  function Over(mini: Recs, base: Recs, k: Key): Option<Value> {
    if k in mini then RecGet(mini, k) else RecGet(base, k)
  }

  function Look(p: Page, k: Key): Option<Value> {
    match p.loc
    case AtBase => RecGet(p.base.recs, k)
    case AtFull(c) => RecGet(c.recs, k)
    case AtMini(c) => Over(c.recs, p.base.recs, k)
  }

  function Version(p: Page): nat {
    if p.loc.AtBase? then p.base.version else p.loc.c.version
  }

  predicate IsDirty(recs: Recs, k: Key) { k in recs && recs[k].op.Dirty() }

  /** What `need_actually_merge_to_disk` looks for. */
  predicate AnyDirty(recs: Recs) { exists k :: k in recs && recs[k].op.Dirty() }

  /** Wherever the cached page has no dirty record, a read sees what the base page holds. */
  ghost predicate Agrees(p: Page) {
    p.loc.AtBase? || forall k :: !IsDirty(p.loc.c.recs, k) ==> Look(p, k) == RecGet(p.base.recs, k)
  }

  /** A base page holds only dirty marks. */
  predicate AllDirty(recs: Recs) { forall k :: k in recs ==> recs[k].op.Dirty() }

  /** Base pages hold only dirty marks, agree with clean cached records, and are never ahead in version. */
  ghost predicate PageOk(p: Page) {
    && AllDirty(p.base.recs) && Agrees(p)
    && p.base.version <= Version(p)
  }

  // ---- client writes -------------------------------------------------------------------------------

  /** A write into a base page: deleting a key that has no record leaves none. */
  function BaseWrite(recs: Recs, k: Key, r: Rec): Recs {
    if r.op.Delete? && k !in recs then recs else CacheWrite(recs, k, r)
  }

  /** A write into a cached page: deleting keeps the record and marks it. */
  function CacheWrite(recs: Recs, k: Key, r: Rec): Recs {
    if r.op.Delete? && k in recs then recs[k := recs[k].(op := Delete)] else recs[k := r]
  }

  function AsOption(r: Rec): Option<Value> { if r.op.Absent() then None else Some(r.value) }

  lemma CacheWriteSets(recs: Recs, k: Key, r: Rec, x: Key)
    ensures k in CacheWrite(recs, k, r) && CacheWrite(recs, k, r)[k].op == r.op
    ensures RecGet(CacheWrite(recs, k, r), x) == if x == k then AsOption(r) else RecGet(recs, x)
    ensures RecGet(BaseWrite(recs, k, r), x) == if x == k then AsOption(r) else RecGet(recs, x)
    ensures x != k ==> (x in CacheWrite(recs, k, r) <==> x in recs)
  {
  }

  /** The record may be written: a dirty one always, a clean one only as a copy of what the base page holds,
      for a key the mini page lacks. */
  predicate MayWrite(p: Page, k: Key, r: Rec) {
    r.op.Dirty() || (!p.loc.AtFull? && (p.loc.AtMini? ==> k !in p.loc.c.recs) && AsOption(r) == RecGet(p.base.recs, k))
  }

  /** How an insert lands: in the root base page, in the cached page, in a new mini page over a base page, or
      in a grown copy of the mini page that leaves out some cold clean records. */
  datatype Landing = InRoot | InCache | NewMini(size: nat) | Grown(size: nat, cold: set<Key>)

  predicate ColdOnly(recs: Recs, cold: set<Key>) {
    forall k :: k in cold && k in recs ==> !recs[k].op.Dirty()
  }

  predicate CanLand(p: Page, how: Landing, r: Rec) {
    match how
    case InRoot => p.loc.AtBase? && r.op.Dirty()
    case InCache => !p.loc.AtBase?
    case NewMini(size) => p.loc.AtBase?
    case Grown(size, cold) => p.loc.AtMini? && size >= p.loc.c.size && ColdOnly(p.loc.c.recs, cold)
  }

  /** `version` is the writer's snapshot version; a new or grown mini page is stamped with it. */
  function Write(p: Page, how: Landing, version: nat, k: Key, r: Rec): Page
    requires CanLand(p, how, r)
  {
    match how
    case InRoot => p.(base := p.base.(recs := BaseWrite(p.base.recs, k, r)))
    case InCache => p.(loc := p.loc.(c := p.loc.c.(recs := CacheWrite(p.loc.c.recs, k, r))))
    case NewMini(size) => p.(loc := AtMini(Cached(version, false, size, map[k := r])))
    case Grown(size, cold) =>
      p.(loc := AtMini(Cached(version, p.loc.c.changed, size, CacheWrite(p.loc.c.recs - cold, k, r))))
  }

  /** A write changes the reads of its own key and no other; a clean record changes none. */
  lemma WriteSetsKey(p: Page, how: Landing, version: nat, k: Key, r: Rec, x: Key)
    requires PageOk(p) && MayWrite(p, k, r) && CanLand(p, how, r)
    ensures Look(Write(p, how, version, k, r), x) ==
      if x == k && r.op.Dirty() then AsOption(r) else Look(p, x)
  {
    match how
    case InRoot => CacheWriteSets(p.base.recs, k, r, x);
    case InCache => CacheWriteSets(p.loc.c.recs, k, r, x);
    case NewMini(size) =>
    case Grown(size, cold) => CacheWriteSets(p.loc.c.recs - cold, k, r, x);
  }

  lemma WriteKeepsOk(p: Page, how: Landing, version: nat, k: Key, r: Rec)
    requires PageOk(p) && MayWrite(p, k, r) && CanLand(p, how, r) && Version(p) <= version
    ensures PageOk(Write(p, how, version, k, r))
  {
    var p' := Write(p, how, version, k, r);
    if !p'.loc.AtBase? {
      forall x | !IsDirty(p'.loc.c.recs, x) ensures Look(p', x) == RecGet(p'.base.recs, x) {
        WriteSetsKey(p, how, version, k, r, x);
        assert x == k ==> !r.op.Dirty();
      }
    }
  }

  // ---- reorganisations -----------------------------------------------------------------------------

  /** The base page after absorbing the dirty records of `mini`. */
  function Absorb(base: Recs, mini: Recs): Recs {
    map k | k in base.Keys + mini.Keys && (k in base || (IsDirty(mini, k) && mini[k].op.Insert?)) ::
      if !IsDirty(mini, k) then base[k]
      else if mini[k].op.Insert? then mini[k] else base[k].(op := Delete)
  }

  function Live(recs: Recs): Recs {
    map k | k in recs && !recs[k].op.Absent() :: Rec(Insert, recs[k].value)
  }

  function Dirtied(recs: Recs): Recs { map k | k in recs :: recs[k].(op := recs[k].op.Dirtied()) }

  function Cleaned(recs: Recs): Recs { map k | k in recs :: recs[k].(op := recs[k].op.Cleaned()) }

  datatype Reorg =
    | MoveToTail(cold: set<Key>)    // copy the cached page; a mini page may lose cold clean records
    | Merge                         // mini page into the base page, no split
    | WriteBack                     // full page back to the base page
    | Promote(size: nat)            // base page to a full page
    | Consolidate                   // drop deletion marks from the base page

  predicate CanReorg(p: Page, how: Reorg) {
    match how
    case MoveToTail(cold) => !p.loc.AtBase? && ColdOnly(p.loc.c.recs, cold) && (p.loc.AtFull? ==> cold == {})
    case Merge => p.loc.AtMini?
    case WriteBack => p.loc.AtFull?
    case Promote(size) => p.loc.AtBase?
    case Consolidate => !p.loc.AtFull?
  }

  function Reorganise(p: Page, how: Reorg): Page
    requires CanReorg(p, how)
  {
    match how
    case MoveToTail(cold) => p.(loc := p.loc.(c := p.loc.c.(recs := p.loc.c.recs - cold)))
    case Merge =>
      if AnyDirty(p.loc.c.recs) || p.loc.c.changed
      then Page(Node(p.loc.c.version, Absorb(p.base.recs, p.loc.c.recs)), AtBase)
      else p.(loc := AtBase)
    case WriteBack =>
      if AnyDirty(p.loc.c.recs) || p.loc.c.changed
      then Page(Node(p.loc.c.version, Dirtied(p.loc.c.recs)), AtBase)
      else p.(loc := AtBase)
    case Promote(size) => p.(loc := AtFull(Cached(p.base.version, false, size, Cleaned(p.base.recs))))
    case Consolidate => p.(base := p.base.(recs := Live(p.base.recs)))
  }

  lemma AbsorbReads(p: Page, x: Key)
    requires PageOk(p) && p.loc.AtMini?
    ensures RecGet(Absorb(p.base.recs, p.loc.c.recs), x) == Look(p, x)
  {
    if !IsDirty(p.loc.c.recs, x) { assert Look(p, x) == RecGet(p.base.recs, x); }
  }

  lemma LiveReads(recs: Recs, x: Key)
    ensures RecGet(Live(recs), x) == RecGet(recs, x)
    ensures RecGet(Dirtied(recs), x) == RecGet(recs, x)
    ensures RecGet(Cleaned(recs), x) == RecGet(recs, x)
  {
  }

  /** Cache transparency: whatever moves where, every read is what it was. */
  lemma ReorgKeepsReads(p: Page, how: Reorg, x: Key)
    requires PageOk(p) && CanReorg(p, how)
    ensures Look(Reorganise(p, how), x) == Look(p, x)
  {
    match how
    case MoveToTail(cold) =>
    case Merge =>
      AbsorbReads(p, x);
      if !AnyDirty(p.loc.c.recs) { assert !IsDirty(p.loc.c.recs, x); }
    case WriteBack =>
      LiveReads(p.loc.c.recs, x);
      if !AnyDirty(p.loc.c.recs) { assert !IsDirty(p.loc.c.recs, x); }
    case Promote(size) => LiveReads(p.base.recs, x);
    case Consolidate => LiveReads(p.base.recs, x);
  }

  lemma ReorgKeepsOk(p: Page, how: Reorg)
    requires PageOk(p) && CanReorg(p, how)
    ensures PageOk(Reorganise(p, how))
  {
    var p' := Reorganise(p, how);
    if !p'.loc.AtBase? {
      forall x | !IsDirty(p'.loc.c.recs, x) ensures Look(p', x) == RecGet(p'.base.recs, x) {
        ReorgKeepsReads(p, how, x);
        LiveReads(p.base.recs, x);
      }
    }
  }

  /** Exactly one reorganisation can lower a leaf's version: dropping a mini page that has nothing dirty and
      was never marked changed, over a base page with a smaller version. */
  lemma ReorgLowersVersion(p: Page, how: Reorg)
    requires PageOk(p) && CanReorg(p, how)
    ensures Version(Reorganise(p, how)) < Version(p) <==>
      !p.loc.AtBase? && (how.Merge? || how.WriteBack?) &&
      !AnyDirty(p.loc.c.recs) && !p.loc.c.changed && p.base.version < p.loc.c.version
    ensures Version(Reorganise(p, how)) <= Version(p)
  {
  }

  /** And it does happen: a reader in the PREPARE phase caches one record over a base page of an older
      version (no rule of the phase touches that base page), and the new mini page is then dropped. */
  lemma VersionCanFall(base: Node, v: nat, k: Key)
    requires base.version < v && RecGet(base.recs, k).Some? && AllDirty(base.recs)
    ensures var p := Page(base, AtBase);
      var r := Rec(Cache, base.recs[k].value);
      && PageOk(p) && MayWrite(p, k, r)
      && var q := Write(p, NewMini(64), v, k, r);
      PageOk(q) && Version(q) == v && Version(Reorganise(q, Merge)) == base.version < v
  {
    var p := Page(base, AtBase);
    var r := Rec(Cache, base.recs[k].value);
    WriteKeepsOk(p, NewMini(64), v, k, r);
    var q := Write(p, NewMini(64), v, k, r);
    assert q.loc.c.recs == map[k := r];
    assert !AnyDirty(q.loc.c.recs);
  }

  // ---- splits --------------------------------------------------------------------------------------

  /** What a write leaves beside its record: a new mini page has the asked size and version and is unchanged, a
      grown one loses exactly the cold records and stays as changed as it was, and nothing else moves. */
  lemma WriteMarks(p: Page, how: Landing, version: nat, k: Key, r: Rec)
    requires CanLand(p, how, r)
    ensures var q := Write(p, how, version, k, r);
      match how
      case InRoot => q.loc == p.loc && q.base.version == p.base.version
      case InCache =>
        && q.base == p.base && !q.loc.AtBase? && (q.loc.AtFull? <==> p.loc.AtFull?)
        && q.loc.c.version == p.loc.c.version && q.loc.c.changed == p.loc.c.changed && q.loc.c.size == p.loc.c.size
      case NewMini(size) =>
        q.base == p.base && q.loc.AtMini? && q.loc.c.version == version && !q.loc.c.changed && q.loc.c.size == size && q.loc.c.recs.Keys == {k}
      case Grown(size, cold) =>
        && q.base == p.base && q.loc.AtMini? && q.loc.c.version == version && q.loc.c.changed == p.loc.c.changed && q.loc.c.size == size
        && q.loc.c.recs.Keys == p.loc.c.recs.Keys - cold + {k}
        && forall x :: x in p.loc.c.recs && x !in cold && x != k ==> q.loc.c.recs[x] == p.loc.c.recs[x]
  {
  }

  /** What a reorganisation leaves: a moved page loses exactly its cold records, a merged or written-back one is no
      longer cached, a promoted one is a clean copy, and a consolidated base page has its live records only. */
  lemma ReorgMarks(p: Page, how: Reorg)
    requires CanReorg(p, how) && AllDirty(p.base.recs)
    ensures var q := Reorganise(p, how);
      match how
      case MoveToTail(cold) =>
        && q.base == p.base && !q.loc.AtBase? && (q.loc.AtFull? <==> p.loc.AtFull?)
        && q.loc.c.version == p.loc.c.version && q.loc.c.changed == p.loc.c.changed && q.loc.c.size == p.loc.c.size
        && q.loc.c.recs.Keys == p.loc.c.recs.Keys - cold && forall x :: x in q.loc.c.recs ==> q.loc.c.recs[x] == p.loc.c.recs[x]
      case Merge => q.loc.AtBase?
      case WriteBack => q.loc.AtBase?
      case Promote(size) =>
        && q.base == p.base && q.loc.AtFull? && q.loc.c.version == p.base.version && !q.loc.c.changed && q.loc.c.size == size
        && q.loc.c.recs.Keys == p.base.recs.Keys && !AnyDirty(q.loc.c.recs)
      case Consolidate =>
        && q.loc == p.loc && q.base.version == p.base.version
        && forall x :: x in q.base.recs <==> x in p.base.recs && p.base.recs[x].op.Insert?
  {
  }

  function Part(recs: Recs, key: Key, left: bool): Recs {
    map k | k in recs && Lt(k, key) == left :: recs[k]
  }

  /** One half of a leaf split: the live base records on that side with the dirty mini records of that side
      merged in.  Both halves are base pages of the splitting thread's version. */
  function Half(p: Page, key: Key, left: bool, version: nat): Page
    requires !p.loc.AtFull?
  {
    var base := Part(Live(p.base.recs), key, left);
    Page(Node(version, if p.loc.AtMini? then Absorb(base, Part(p.loc.c.recs, key, left)) else base), AtBase)
  }

  /** Each half answers for its own side exactly as the whole leaf did, and holds nothing of the other. */
  lemma HalfReads(p: Page, key: Key, left: bool, version: nat, x: Key)
    requires PageOk(p) && !p.loc.AtFull?
    ensures PageOk(Half(p, key, left, version))
    ensures Look(Half(p, key, left, version), x) == if Lt(x, key) == left then Look(p, x) else None
  {
    LiveReads(p.base.recs, x);
    if p.loc.AtMini? && !IsDirty(p.loc.c.recs, x) { assert Look(p, x) == RecGet(p.base.recs, x); }
  }
}
