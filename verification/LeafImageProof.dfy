/** Inserting into the slotted page refines writing into a map. */
module LeafImageProof {
  import opened Bytes
  import opened TreeShape
  import opened LeafCache
  import opened LeafImage

  // ---- bytes ---------------------------------------------------------------------------------------

  /** Bytes outside the spliced range are what they were. */
  lemma SpliceOutside(b: seq<byte>, at: nat, v: seq<byte>, lo: nat, hi: nat)
    requires at + |v| <= |b| && lo <= hi <= |b| && (hi <= at || at + |v| <= lo)
    ensures |Splice(b, at, v)| == |b| && Splice(b, at, v)[lo..hi] == b[lo..hi]
  {
    var c := Splice(b, at, v);
    forall i | lo <= i < hi ensures c[i] == b[i] { }
  }

  lemma SpliceInside(b: seq<byte>, at: nat, v: seq<byte>)
    requires at + |v| <= |b|
    ensures |Splice(b, at, v)| == |b| && Splice(b, at, v)[at..at + |v|] == v
  {
  }

  lemma SpliceParts(b: seq<byte>, at: nat, x: seq<byte>, y: seq<byte>)
    requires at + |x| + |y| <= |b|
    ensures |Splice(b, at, x + y)| == |b|
    ensures Splice(b, at, x + y)[at..at + |x|] == x && Splice(b, at, x + y)[at + |x|..at + |x| + |y|] == y
  {
  }

  // ---- edits that keep every slot where it is ------------------------------------------------------

  /** Record slot `i` of `p'` reads as slot `j` of `p`. */
  predicate Reads(p: Image, j: nat, p': Image, i: nat)
    requires Laid(p) && Laid(p') && First(p) <= j < |p.slots| && First(p') <= i < |p'.slots|
  {
    Tail(p', i) == Tail(p, j) && ValueAt(p', i) == ValueAt(p, j) && p'.slots[i].op == p.slots[j].op && p'.slots[i].preview == p.slots[j].preview
  }

  /** Only the record at `pos` changed, and it kept its key. */
  predicate EditedAt(p: Image, p': Image, pos: nat)
    requires Laid(p) && Laid(p') && First(p) <= pos < |p.slots|
  {
    && |p'.slots| == |p.slots| && First(p') == First(p)
    && Tail(p', pos) == Tail(p, pos) && p'.slots[pos].preview == p.slots[pos].preview
    && forall i {:trigger Reads(p, i, p', i)} :: First(p) <= i < |p.slots| && i != pos ==> Reads(p, i, p', i)
  }

  lemma EditedFinds(p: Image, p': Image, pos: nat, x: Key)
    requires Ok(p) && Laid(p') && First(p) <= pos < |p.slots| && EditedAt(p, p', pos)
    ensures Ok(p')
    ensures Find(p', x) == if x == Tail(p, pos) then Some(RecAt(p', pos)) else Find(p, x)
  {
    forall i | First(p) <= i < |p.slots| ensures Tail(p', i) == Tail(p, i) && PreviewOk(p', i) {
      assert PreviewOk(p, i);
      assert i != pos ==> Reads(p, i, p', i);
    }
    var q := LowerBound(p, x);
    LowerBoundIs(p', x, q);
    FoundAt(p', pos);
    if q < |p.slots| && q != pos { assert Reads(p, q, p', q); }
    if x == Tail(p, pos) { FoundAt(p, pos); }
  }

  lemma MarkedOk(p: Image, pos: nat)
    requires Ok(p) && First(p) <= pos < |p.slots|
    ensures Laid(Marked(p, pos)) && EditedAt(p, Marked(p, pos), pos)
    ensures RecAt(Marked(p, pos), pos) == Rec(Delete, ValueAt(p, pos))
  {
    var p' := Marked(p, pos);
    forall i | 0 <= i < |p.slots| ensures Placed(p', i) { assert Placed(p, i); }
    forall i, j | 0 <= i < |p.slots| && 0 <= j < |p.slots| ensures Clear(p', i, j) { assert Clear(p, i, j); }
    forall i | First(p) <= i < |p.slots| && i != pos ensures Reads(p, i, p', i) { }
  }

  lemma OverwrittenLaid(p: Image, pos: nat, v: Value, op: Op)
    requires Ok(p) && First(p) <= pos < |p.slots| && |v| <= p.slots[pos].valueLen
    ensures Laid(Overwritten(p, pos, v, op))
  {
    var p' := Overwritten(p, pos, v, op);
    assert Placed(p, pos);
    forall i | 0 <= i < |p.slots| ensures Placed(p', i) { assert Placed(p, i); }
    forall i, j | 0 <= i < |p.slots| && 0 <= j < |p.slots| ensures Clear(p', i, j) { assert Clear(p, i, j); }
  }

  lemma OverwrittenReads(p: Image, pos: nat, v: Value, op: Op, i: nat)
    requires Ok(p) && First(p) <= pos < |p.slots| && |v| <= p.slots[pos].valueLen
    requires First(p) <= i < |p.slots| && i != pos
    ensures Laid(Overwritten(p, pos, v, op)) && Reads(p, i, Overwritten(p, pos, v, op), i)
  {
    OverwrittenLaid(p, pos, v, op);
    assert Placed(p, pos) && Placed(p, i) && Clear(p, i, pos);
    var t := p.slots[i];
    var at := p.slots[pos].offset + p.slots[pos].keyLen - p.prefixLen;
    var mid := t.offset + t.keyLen - p.prefixLen;
    SpliceOutside(p.bytes, at, v, t.offset, mid);
    SpliceOutside(p.bytes, at, v, mid, mid + t.valueLen);
  }

  lemma OverwrittenHolds(p: Image, pos: nat, v: Value, op: Op)
    requires Ok(p) && First(p) <= pos < |p.slots| && |v| <= p.slots[pos].valueLen
    ensures Laid(Overwritten(p, pos, v, op))
    ensures Tail(Overwritten(p, pos, v, op), pos) == Tail(p, pos) && RecAt(Overwritten(p, pos, v, op), pos) == Rec(op, v)
  {
    OverwrittenLaid(p, pos, v, op);
    assert Placed(p, pos);
    var at := p.slots[pos].offset + p.slots[pos].keyLen - p.prefixLen;
    SpliceInside(p.bytes, at, v);
    SpliceOutside(p.bytes, at, v, p.slots[pos].offset, at);
  }

  lemma OverwrittenOk(p: Image, pos: nat, v: Value, op: Op)
    requires Ok(p) && First(p) <= pos < |p.slots| && |v| <= p.slots[pos].valueLen
    ensures Laid(Overwritten(p, pos, v, op)) && EditedAt(p, Overwritten(p, pos, v, op), pos)
    ensures RecAt(Overwritten(p, pos, v, op), pos) == Rec(op, v)
  {
    var p' := Overwritten(p, pos, v, op);
    OverwrittenHolds(p, pos, v, op);
    forall i | First(p) <= i < |p.slots| && i != pos ensures Reads(p, i, p', i) { OverwrittenReads(p, pos, v, op, i); }
  }

  // ---- payloads put below the lowest one -----------------------------------------------------------

  /** A record slot keeps its reading when bytes below every payload change. */
  lemma BelowReads(p: Image, off: nat, w: seq<byte>, p': Image, j: nat, i: nat)
    requires Laid(p) && Laid(p') && off + |w| == Lowest(p) && p'.bytes == Splice(p.bytes, off, w) && p'.prefixLen == p.prefixLen
    requires First(p) <= j < |p.slots| && First(p') <= i < |p'.slots| && p'.slots[i] == p.slots[j]
    ensures Reads(p, j, p', i)
  {
    assert Placed(p, j);
    var t := p.slots[j];
    var mid := t.offset + t.keyLen - p.prefixLen;
    SpliceOutside(p.bytes, off, w, t.offset, mid);
    SpliceOutside(p.bytes, off, w, mid, mid + t.valueLen);
  }

  lemma RegrownLaid(p: Image, pos: nat, tail: Key, v: Value, op: Op)
    requires Ok(p) && First(p) <= pos < |p.slots| && |tail| + |v| <= p.remaining && Tail(p, pos) == tail
    ensures Laid(Regrown(p, pos, tail, v, op))
  {
    var p' := Regrown(p, pos, tail, v, op);
    assert Placed(p, pos);
    forall i | 0 <= i < |p.slots| ensures Placed(p', i) { assert Placed(p, i); }
    forall i, j | 0 <= i < |p.slots| && 0 <= j < |p.slots| ensures Clear(p', i, j) {
      assert Clear(p, i, j) && Placed(p, i) && Placed(p, j);
    }
  }

  lemma RegrownOk(p: Image, pos: nat, tail: Key, v: Value, op: Op)
    requires Ok(p) && First(p) <= pos < |p.slots| && |tail| + |v| <= p.remaining && Tail(p, pos) == tail
    ensures Laid(Regrown(p, pos, tail, v, op)) && EditedAt(p, Regrown(p, pos, tail, v, op), pos)
    ensures RecAt(Regrown(p, pos, tail, v, op), pos) == Rec(op, v)
  {
    var p' := Regrown(p, pos, tail, v, op);
    RegrownLaid(p, pos, tail, v, op);
    var off := Lowest(p) - |tail| - |v|;
    assert Placed(p, pos);
    SpliceParts(p.bytes, off, tail, v);
    forall i | First(p) <= i < |p.slots| && i != pos ensures Reads(p, i, p', i) { BelowReads(p, off, tail + v, p', i, i); }
  }

  // ---- a new slot ----------------------------------------------------------------------------------

  /** Where slot `i` of the grown page comes from. */
  function Source(pos: nat, i: nat): int { if i < pos then i else i - 1 }

  lemma AddedSlots(p: Image, pos: nat, tail: Key, v: Value, op: Op, i: nat)
    requires Laid(p) && First(p) <= pos <= |p.slots| && |tail| + |v| + SLOT <= p.remaining && i <= |p.slots|
    ensures var p' := Added(p, pos, tail, v, op);
      |p'.slots| == |p.slots| + 1 && (i != pos ==> p'.slots[i] == p.slots[Source(pos, i)])
  {
  }

  lemma AddedPlaced(p: Image, pos: nat, tail: Key, v: Value, op: Op, i: nat)
    requires Laid(p) && First(p) <= pos <= |p.slots| && |tail| + |v| + SLOT <= p.remaining && i <= |p.slots|
    ensures |Added(p, pos, tail, v, op).slots| == |p.slots| + 1 && Placed(Added(p, pos, tail, v, op), i)
  {
    AddedSlots(p, pos, tail, v, op, i);
    if i != pos { assert Placed(p, Source(pos, i)); }
  }

  lemma AddedClear(p: Image, pos: nat, tail: Key, v: Value, op: Op, i: nat, j: nat)
    requires Laid(p) && First(p) <= pos <= |p.slots| && |tail| + |v| + SLOT <= p.remaining && i <= |p.slots| && j <= |p.slots|
    ensures |Added(p, pos, tail, v, op).slots| == |p.slots| + 1 && Clear(Added(p, pos, tail, v, op), i, j)
  {
    AddedSlots(p, pos, tail, v, op, i);
    AddedSlots(p, pos, tail, v, op, j);
    if i != pos { assert Placed(p, Source(pos, i)); }
    if j != pos { assert Placed(p, Source(pos, j)); }
    if i != pos && j != pos { assert Clear(p, Source(pos, i), Source(pos, j)); }
  }

  lemma AddedLaid(p: Image, pos: nat, tail: Key, v: Value, op: Op)
    requires Laid(p) && First(p) <= pos <= |p.slots| && |tail| + |v| + SLOT <= p.remaining
    ensures Laid(Added(p, pos, tail, v, op))
  {
    var p' := Added(p, pos, tail, v, op);
    forall i | 0 <= i < |p'.slots| ensures Placed(p', i) { AddedPlaced(p, pos, tail, v, op, i); }
    forall i, j | 0 <= i < |p'.slots| && 0 <= j < |p'.slots| ensures Clear(p', i, j) { AddedClear(p, pos, tail, v, op, i, j); }
  }

  lemma AddedReads(p: Image, pos: nat, tail: Key, v: Value, op: Op, i: nat)
    requires Laid(p) && First(p) <= pos <= |p.slots| && |tail| + |v| + SLOT <= p.remaining && First(p) <= i <= |p.slots|
    ensures Laid(Added(p, pos, tail, v, op)) && |Added(p, pos, tail, v, op).slots| == |p.slots| + 1
    ensures i != pos ==> Reads(p, Source(pos, i), Added(p, pos, tail, v, op), i)
    ensures i == pos ==> Tail(Added(p, pos, tail, v, op), i) == tail && RecAt(Added(p, pos, tail, v, op), i) == Rec(op, v)
  {
    AddedLaid(p, pos, tail, v, op);
    AddedSlots(p, pos, tail, v, op, i);
    var off := Lowest(p) - |tail| - |v|;
    SpliceParts(p.bytes, off, tail, v);
    if i != pos { BelowReads(p, off, tail + v, Added(p, pos, tail, v, op), Source(pos, i), i); }
  }

  /** Slots before `pos` are below the new key and slots from `pos` on are above it. */
  predicate Fits(p: Image, pos: nat, tail: Key)
    requires Laid(p) && First(p) <= pos <= |p.slots|
  {
    && (forall j :: First(p) <= j < pos ==> Lt(Tail(p, j), tail))
    && (forall j :: pos <= j < |p.slots| ==> Lt(tail, Tail(p, j)))
  }

  lemma MissFits(p: Image, tail: Key)
    requires Ok(p) && !Hit(p, tail)
    ensures Fits(p, LowerBound(p, tail), tail)
  {
    var pos := LowerBound(p, tail);
    forall j | pos <= j < |p.slots| ensures Lt(tail, Tail(p, j)) {
      LtTotal(tail, Tail(p, pos));
      if pos < j { LtTransitive(tail, Tail(p, pos), Tail(p, j)); }
    }
  }

  lemma AddedAscending(p: Image, pos: nat, tail: Key, v: Value, op: Op)
    requires Ok(p) && First(p) <= pos <= |p.slots| && |tail| + |v| + SLOT <= p.remaining && Fits(p, pos, tail)
    ensures Ok(Added(p, pos, tail, v, op))
  {
    AddedLaid(p, pos, tail, v, op);
    var p' := Added(p, pos, tail, v, op);
    forall i, j | First(p') <= i < j < |p'.slots| ensures Lt(Tail(p', i), Tail(p', j)) {
      AddedReads(p, pos, tail, v, op, i);
      AddedReads(p, pos, tail, v, op, j);
    }
    forall i | First(p') <= i < |p'.slots| ensures PreviewOk(p', i) {
      AddedReads(p, pos, tail, v, op, i);
      if i != pos { assert PreviewOk(p, Source(pos, i)); }
    }
  }

  lemma AddedFinds(p: Image, pos: nat, tail: Key, v: Value, op: Op, x: Key)
    requires Ok(p) && First(p) <= pos <= |p.slots| && |tail| + |v| + SLOT <= p.remaining && Fits(p, pos, tail)
    ensures Ok(Added(p, pos, tail, v, op))
    ensures Find(Added(p, pos, tail, v, op), x) == if x == tail then Some(Rec(op, v)) else Find(p, x)
  {
    AddedAscending(p, pos, tail, v, op);
    var p' := Added(p, pos, tail, v, op);
    if x == tail {
      AddedReads(p, pos, tail, v, op, pos);
      FoundAt(p', pos);
    } else if Hit(p, x) {
      var j := LowerBound(p, x);
      var i := if j < pos then j else j + 1;
      AddedReads(p, pos, tail, v, op, i);
      FoundAt(p', i);
    } else {
      AddedMisses(p, pos, tail, v, op, x);
    }
  }

  lemma AddedMisses(p: Image, pos: nat, tail: Key, v: Value, op: Op, x: Key)
    requires Ok(p) && First(p) <= pos <= |p.slots| && |tail| + |v| + SLOT <= p.remaining && Ok(Added(p, pos, tail, v, op))
    requires x != tail && !Hit(p, x)
    ensures Find(Added(p, pos, tail, v, op), x) == None
  {
    var p' := Added(p, pos, tail, v, op);
    forall i | First(p') <= i < |p'.slots| ensures Tail(p', i) != x {
      AddedReads(p, pos, tail, v, op, i);
      if i != pos { FoundAt(p, Source(pos, i)); }
    }
    NotFound(p', x);
  }

  // ---- insert --------------------------------------------------------------------------------------

  /** What a successful insert leaves for the key: a deletion marks the record it finds; on a base page it
      leaves nothing where there was nothing. */
  function WriteOne(was: Option<Rec>, v: Value, op: Op, base: bool): Option<Rec> {
    if op.Delete? && was.Some? then Some(was.value.(op := Delete))
    else if op.Delete? && base then None
    else Some(Rec(op, v))
  }

  /** Insert refines a map update: it succeeds and changes its own key only, or fails and changes nothing. */
  lemma InsertFinds(p: Image, tail: Key, v: Value, op: Op, maxFence: nat, x: Key)
    requires Ok(p)
    ensures var r := InsertInto(p, tail, v, op, maxFence);
      && Ok(r.page) && (!r.ok ==> r.page == p)
      && (r.ok ==> Find(r.page, x) == if x == tail then WriteOne(Find(p, tail), v, op, p.base) else Find(p, x))
  {
    var pos := LowerBound(p, tail);
    if Hit(p, tail) {
      if op.Delete? {
        MarkedOk(p, pos);
        EditedFinds(p, Marked(p, pos), pos, x);
      } else if |v| <= p.slots[pos].valueLen {
        OverwrittenOk(p, pos, v, op);
        EditedFinds(p, Overwritten(p, pos, v, op), pos, x);
      } else if |tail| + |v| <= p.remaining {
        RegrownOk(p, pos, tail, v, op);
        EditedFinds(p, Regrown(p, pos, tail, v, op), pos, x);
      }
    } else if !(op.Delete? && p.base) && !FullWithFences(p, |tail| + |v| + SLOT, maxFence) {
      MissFits(p, tail);
      AddedFinds(p, pos, tail, v, op, x);
    }
  }

  /** The page is the map `m`. */
  ghost predicate IsMap(p: Image, m: Recs)
    requires Laid(p)
  {
    forall x :: Find(p, x) == if x in m then Some(m[x]) else None
  }

  /** In the terms of the cache model: base pages take `BaseWrite`, cached pages `CacheWrite`. */
  lemma InsertIsWrite(p: Image, m: Recs, tail: Key, v: Value, op: Op, maxFence: nat)
    requires Ok(p) && IsMap(p, m) && InsertInto(p, tail, v, op, maxFence).ok
    ensures var p' := InsertInto(p, tail, v, op, maxFence).page;
      Ok(p') && IsMap(p', if p.base then BaseWrite(m, tail, Rec(op, v)) else CacheWrite(m, tail, Rec(op, v)))
  {
    InsertFinds(p, tail, v, op, maxFence, tail);
    var p' := InsertInto(p, tail, v, op, maxFence).page;
    var m' := if p.base then BaseWrite(m, tail, Rec(op, v)) else CacheWrite(m, tail, Rec(op, v));
    forall x ensures Find(p', x) == if x in m' then Some(m'[x]) else None {
      InsertFinds(p, tail, v, op, maxFence, x);
      assert Find(p, x) == if x in m then Some(m[x]) else None;
      assert Find(p, tail) == if tail in m then Some(m[tail]) else None;
    }
  }

  // ---- full keys -----------------------------------------------------------------------------------

  /** Prefix compression is exact: for keys that carry the page's prefix, comparing what is stored is
      comparing the keys, and putting the prefix back gives the key. */
  lemma CompressionExact(prefix: Key, a: Key, b: Key)
    requires |prefix| <= |a| && a[..|prefix|] == prefix && |prefix| <= |b| && b[..|prefix|] == prefix
    ensures prefix + a[|prefix|..] == a
    ensures Lt(a, b) <==> Lt(a[|prefix|..], b[|prefix|..])
    ensures a == b <==> a[|prefix|..] == b[|prefix|..]
  {
    assert a == prefix + a[|prefix|..] && b == prefix + b[|prefix|..];
    LtCancel(prefix, a[|prefix|..], b[|prefix|..]);
  }

  /** A slot previews the first two bytes of its key's tail, or all of a shorter one. */
  lemma PreviewBytes(p: Image, i: nat)
    requires Ok(p) && First(p) <= i < |p.slots|
    ensures var tail, preview := Tail(p, i), p.slots[i].preview;
      preview <= tail && |preview| == if |tail| < 2 then |tail| else 2
  {
    assert PreviewOk(p, i);
  }
}
