/** The slotted leaf page as a value: a byte area whose front holds 8-byte slots and whose back holds keys
    and values, with the prefix shared by the two fences left out of every stored key.

    `InsertInto` is the source's in-place insert as a function of the page; `LeafPage` runs it on an array.  What
    is proved here is that a page is a map from keys to records (`Find`), whatever the byte layout. */
module LeafImage {
  import opened Bytes
  import opened TreeShape
  import opened LeafCache

  const SLOT := 8
  const PREVIEW := 2
  const INF_LOW := 65534
  const INF_HIGH := 65535

  /** A slot; `keyLen` is the length of the whole key.  Infinite fences are marked by their offset. */
  datatype Slot = Slot(offset: nat, keyLen: nat, valueLen: nat, op: Op, preview: Key)

  datatype Image = Image(bytes: seq<byte>, slots: seq<Slot>, remaining: nat, prefixLen: nat, fenced: bool, base: bool)

  function First(p: Image): nat { if p.fenced then 2 else 0 }

  function Lowest(p: Image): nat { SLOT * |p.slots| + p.remaining }

  predicate Finite(s: Slot) { s.offset < INF_LOW }

  /** Bytes a slot owns: the low fence is stored whole, everything else without the prefix. */
  function Len(p: Image, i: nat): int
    requires i < |p.slots|
  {
    if p.fenced && i == 0 then p.slots[i].keyLen else p.slots[i].keyLen - p.prefixLen + p.slots[i].valueLen
  }

  predicate Placed(p: Image, i: nat)
    requires i < |p.slots|
  {
    && (Finite(p.slots[i]) ==>
          Lowest(p) <= p.slots[i].offset && 0 <= Len(p, i) && p.slots[i].offset + Len(p, i) <= |p.bytes|)
    && (i >= First(p) ==> Finite(p.slots[i]) && p.prefixLen <= p.slots[i].keyLen)
  }

  predicate Clear(p: Image, i: nat, j: nat)
    requires i < |p.slots| && j < |p.slots|
  {
    i != j && Finite(p.slots[i]) && Finite(p.slots[j]) ==>
      p.slots[i].offset + Len(p, i) <= p.slots[j].offset || p.slots[j].offset + Len(p, j) <= p.slots[i].offset
  }

  /** Slots and payloads stay inside the page and out of each other's way. */
  predicate Laid(p: Image) {
    && Lowest(p) <= |p.bytes| < INF_LOW && First(p) <= |p.slots|
    && (forall i {:trigger Placed(p, i)} :: 0 <= i < |p.slots| ==> Placed(p, i))
    && (forall i, j {:trigger Clear(p, i, j)} :: 0 <= i < |p.slots| && 0 <= j < |p.slots| ==> Clear(p, i, j))
  }

  /** A stored key without the prefix. */
  function Tail(p: Image, i: nat): Key
    requires Laid(p) && First(p) <= i < |p.slots|
  {
    assert Placed(p, i);
    p.bytes[p.slots[i].offset..p.slots[i].offset + p.slots[i].keyLen - p.prefixLen]
  }

  function ValueAt(p: Image, i: nat): Value
    requires Laid(p) && First(p) <= i < |p.slots|
  {
    assert Placed(p, i);
    var at := p.slots[i].offset + p.slots[i].keyLen - p.prefixLen;
    p.bytes[at..at + p.slots[i].valueLen]
  }

  predicate PreviewOk(p: Image, i: nat)
    requires Laid(p) && First(p) <= i < |p.slots|
  {
    p.slots[i].preview == Front(Tail(p, i), PREVIEW)
  }

  predicate Ascending(p: Image)
    requires Laid(p)
  {
    && (forall i, j :: First(p) <= i < j < |p.slots| ==> Lt(Tail(p, i), Tail(p, j)))
    && (forall i :: First(p) <= i < |p.slots| ==> PreviewOk(p, i))
  }

  predicate Ok(p: Image) { Laid(p) && Ascending(p) }

  // ---- searching -----------------------------------------------------------------------------------

  /** First record slot whose stored key is not below `tail`. */
  function LowerFrom(p: Image, tail: Key, i: nat): (pos: nat)
    requires Laid(p) && First(p) <= i <= |p.slots|
    ensures i <= pos <= |p.slots|
    ensures forall j :: i <= j < pos ==> Lt(Tail(p, j), tail)
    ensures pos < |p.slots| ==> !Lt(Tail(p, pos), tail)
    decreases |p.slots| - i
  {
    if i < |p.slots| && Lt(Tail(p, i), tail) then LowerFrom(p, tail, i + 1) else i
  }

  function LowerBound(p: Image, tail: Key): (pos: nat)
    requires Laid(p)
    ensures First(p) <= pos <= |p.slots|
  {
    LowerFrom(p, tail, First(p))
  }

  lemma LowerBoundIs(p: Image, tail: Key, pos: nat)
    requires Ok(p) && First(p) <= pos <= |p.slots|
    requires forall j :: First(p) <= j < pos ==> Lt(Tail(p, j), tail)
    requires pos < |p.slots| ==> !Lt(Tail(p, pos), tail)
    ensures LowerBound(p, tail) == pos
  {
    var q := LowerBound(p, tail);
    assert q == pos;
  }

  predicate Hit(p: Image, tail: Key)
    requires Laid(p)
  {
    LowerBound(p, tail) < |p.slots| && Tail(p, LowerBound(p, tail)) == tail
  }

  /** The record of a stored key, if there is one. */
  function Find(p: Image, tail: Key): Option<Rec>
    requires Laid(p)
  {
    if Hit(p, tail) then Some(RecAt(p, LowerBound(p, tail))) else None
  }

  function RecAt(p: Image, i: nat): Rec
    requires Laid(p) && First(p) <= i < |p.slots|
  {
    Rec(p.slots[i].op, ValueAt(p, i))
  }

  /** A key that is stored somewhere is the one the search finds. */
  lemma FoundAt(p: Image, i: nat)
    requires Ok(p) && First(p) <= i < |p.slots|
    ensures LowerBound(p, Tail(p, i)) == i && Hit(p, Tail(p, i)) && Find(p, Tail(p, i)) == Some(RecAt(p, i))
  {
    LtTotal(Tail(p, i), Tail(p, i));
    LowerBoundIs(p, Tail(p, i), i);
  }

  lemma NotFound(p: Image, tail: Key)
    requires Ok(p) && forall i :: First(p) <= i < |p.slots| ==> Tail(p, i) != tail
    ensures Find(p, tail) == None
  {
  }

  // ---- insert --------------------------------------------------------------------------------------

  function Splice(b: seq<byte>, at: nat, v: seq<byte>): seq<byte>
    requires at + |v| <= |b|
  {
    b[..at] + v + b[at + |v|..]
  }

  /** `full_with_fences`: no room, or no room left for the longest fences. */
  predicate FullWithFences(p: Image, need: nat, maxFence: nat)
    requires First(p) <= |p.slots|
  {
    p.remaining < need || (p.fenced && p.remaining + FenceLens(p) < need + maxFence)
  }

  function FenceLens(p: Image): nat
    requires First(p) <= |p.slots|
  {
    if !p.fenced then 0
    else (if Finite(p.slots[0]) then p.slots[0].keyLen else 0) + if Finite(p.slots[1]) then p.slots[1].keyLen else 0
  }

  datatype Outcome = Outcome(page: Image, ok: bool)

  /** Duplicate, deletion: mark the record. */
  function Marked(p: Image, pos: nat): Image
    requires pos < |p.slots|
  {
    p.(slots := p.slots[pos := p.slots[pos].(op := Delete)])
  }

  /** Duplicate, the old value is no shorter: overwrite it where it is. */
  function Overwritten(p: Image, pos: nat, v: Value, op: Op): Image
    requires Laid(p) && First(p) <= pos < |p.slots| && |v| <= p.slots[pos].valueLen
  {
    assert Placed(p, pos);
    p.(bytes := Splice(p.bytes, p.slots[pos].offset + p.slots[pos].keyLen - p.prefixLen, v),
       slots := p.slots[pos := p.slots[pos].(valueLen := |v|, op := op)])
  }

  /** Duplicate, the new value is longer: a new payload, the old one becomes a hole. */
  function Regrown(p: Image, pos: nat, tail: Key, v: Value, op: Op): Image
    requires Laid(p) && First(p) <= pos < |p.slots| && |tail| + |v| <= p.remaining
  {
    var off := Lowest(p) - |tail| - |v|;
    p.(bytes := Splice(p.bytes, off, tail + v),
       slots := p.slots[pos := p.slots[pos].(offset := off, valueLen := |v|, op := op)],
       remaining := p.remaining - |tail| - |v|)
  }

  /** A new record: slots from `pos` on move up by one. */
  function Added(p: Image, pos: nat, tail: Key, v: Value, op: Op): Image
    requires Laid(p) && First(p) <= pos <= |p.slots| && |tail| + |v| + SLOT <= p.remaining
  {
    var off := Lowest(p) - |tail| - |v|;
    var s := Slot(off, p.prefixLen + |tail|, |v|, op, Front(tail, PREVIEW));
    p.(bytes := Splice(p.bytes, off, tail + v),
       slots := p.slots[..pos] + [s] + p.slots[pos..],
       remaining := p.remaining - |tail| - |v| - SLOT)
  }

  /** The source's `insert`, for a key with the page's prefix and the rest `tail`. */
  function InsertInto(p: Image, tail: Key, v: Value, op: Op, maxFence: nat): Outcome
    requires Laid(p)
  {
    var pos := LowerBound(p, tail);
    if pos < |p.slots| && Tail(p, pos) == tail then
      if op.Delete? then Outcome(Marked(p, pos), true)
      else if |v| <= p.slots[pos].valueLen then Outcome(Overwritten(p, pos, v, op), true)
      else if p.remaining < |tail| + |v| then Outcome(p, false)
      else Outcome(Regrown(p, pos, tail, v, op), true)
    else if op.Delete? && p.base then Outcome(p, true)
    else if FullWithFences(p, |tail| + |v| + SLOT, maxFence) then Outcome(p, false)
    else Outcome(Added(p, pos, tail, v, op), true)
  }
}
