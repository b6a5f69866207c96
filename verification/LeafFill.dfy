/** Building leaf pages: fences, the space account, and filling a page with a list of records. */
module LeafFill {
  import opened Bytes
  import opened TreeShape
  import opened LeafCache
  import opened LeafImage
  import opened LeafImageProof

  // ---- fences --------------------------------------------------------------------------------------

  /** `initialize` with fences on a page whose old bytes are `junk`; an empty fence is an infinite one. */
  function Fenced(junk: seq<byte>, low: Key, high: Key, base: bool): Image
    requires |low| + |high| + 2 * SLOT <= |junk|
  {
    var n := PrefixLen(low, high);
    var off0 := |junk| - |low|;
    var off1 := off0 - (|high| - n);
    Image(Splice(Splice(junk, off0, low), off1, high[n..]), [FenceSlot(low, 0, off0, INF_LOW), FenceSlot(high, n, off1, INF_HIGH)],
          |junk| - 2 * SLOT - |low| - (|high| - n), n, true, base)
  }

  function FenceSlot(key: Key, n: nat, off: nat, infinite: nat): Slot
    requires n <= |key|
  {
    if key == [] then Slot(infinite, 0, 0, Insert, []) else Slot(off, |key|, 0, Insert, Front(key[n..], PREVIEW))
  }

  /** One more fence, below what the page holds. */
  function WithFence(p: Image, key: Key, n: nat, infinite: nat): Image
    requires n <= |key| && SLOT + |key| - n <= p.remaining && Lowest(p) <= |p.bytes|
  {
    var off := Lowest(p) - (|key| - n);
    p.(bytes := Splice(p.bytes, off, key[n..]), slots := p.slots + [FenceSlot(key, n, off, infinite)],
       remaining := p.remaining - SLOT - (|key| - n))
  }

  lemma OneFence(p: Image, key: Key)
    requires SLOT + |key| <= p.remaining && Lowest(p) <= |p.bytes|
    ensures var off := Lowest(p) - |key|;
      WithFence(p, key, 0, INF_LOW) == p.(bytes := Splice(p.bytes, off, key), slots := p.slots + [FenceSlot(key, 0, off, INF_LOW)],
                                            remaining := p.remaining - SLOT - |key|)
  {
    assert key[0..] == key;
  }

  lemma TwoFences(junk: seq<byte>, low: Key, high: Key, base: bool)
    requires |low| + |high| + 2 * SLOT <= |junk|
    ensures var n := PrefixLen(low, high);
      var p := WithFence(Image(junk, [], |junk|, n, true, base), low, 0, INF_LOW);
      && SLOT + |high| - n <= p.remaining && Lowest(p) <= |p.bytes|
      && WithFence(p, high, n, INF_HIGH) == Fenced(junk, low, high, base)
  {
    OneFence(Image(junk, [], |junk|, PrefixLen(low, high), true, base), low);
  }

  /** The prefix every stored key leaves out. */
  function Prefix(p: Image): Key
    requires Laid(p)
  {
    if p.prefixLen == 0 || !p.fenced || !Finite(p.slots[0]) then []
    else
      assert Placed(p, 0);
      p.bytes[p.slots[0].offset..p.slots[0].offset + Min(p.prefixLen, p.slots[0].keyLen)]
  }

  /** The page carries these fences. */
  predicate HasFences(p: Image, low: Key, high: Key)
    requires Laid(p)
  {
    && p.fenced && p.prefixLen == PrefixLen(low, high)
    && LowKey(p) == low && HighTail(p) == high[p.prefixLen..] && (high == [] <==> !Finite(p.slots[1]))
  }

  function LowKey(p: Image): Key
    requires Laid(p) && p.fenced
  {
    if !Finite(p.slots[0]) then [] else assert Placed(p, 0); p.bytes[p.slots[0].offset..p.slots[0].offset + p.slots[0].keyLen]
  }

  function HighTail(p: Image): Key
    requires Laid(p) && p.fenced
  {
    if !Finite(p.slots[1]) then [] else assert Placed(p, 1); p.bytes[p.slots[1].offset..p.slots[1].offset + Len(p, 1)]
  }

  lemma FencedOk(junk: seq<byte>, low: Key, high: Key, base: bool)
    requires |low| + |high| + 2 * SLOT <= |junk| < INF_LOW
    ensures Ok(Fenced(junk, low, high, base)) && HasFences(Fenced(junk, low, high, base), low, high)
    ensures forall x :: Find(Fenced(junk, low, high, base), x) == None
  {
    var p := Fenced(junk, low, high, base);
    var n := PrefixLen(low, high);
    var off0 := |junk| - |low|;
    var off1 := off0 - (|high| - n);
    SpliceInside(junk, off0, low);
    SpliceInside(Splice(junk, off0, low), off1, high[n..]);
    SpliceOutside(Splice(junk, off0, low), off1, high[n..], off0, off0 + |low|);
    assert Placed(p, 0) && Placed(p, 1);
    assert Clear(p, 0, 1) && Clear(p, 1, 0);
    forall i | 0 <= i < |p.slots| ensures Placed(p, i) { }
    forall i, j | 0 <= i < |p.slots| && 0 <= j < |p.slots| ensures Clear(p, i, j) { }
  }

  /** The page's prefix is the one its fences share. */
  lemma PrefixShared(p: Image, low: Key, high: Key)
    requires Laid(p) && HasFences(p, low, high)
    ensures Prefix(p) == low[..p.prefixLen]
  {
    if p.prefixLen > 0 { assert Placed(p, 0); }
  }

  // ---- fences stay through inserts -----------------------------------------------------------------

  lemma FenceSame(p: Image, p': Image, at: nat, w: seq<byte>, low: Key, high: Key)
    requires Laid(p) && Laid(p') && HasFences(p, low, high) && p'.fenced && p'.prefixLen == p.prefixLen
    requires |p'.slots| >= 2 && p'.slots[0] == p.slots[0] && p'.slots[1] == p.slots[1]
    requires at + |w| <= |p.bytes| && p'.bytes == Splice(p.bytes, at, w)
    requires forall i :: 0 <= i < 2 && Finite(p.slots[i]) ==>
      at + |w| <= p.slots[i].offset || p.slots[i].offset + Len(p, i) <= at
    ensures HasFences(p', low, high)
  {
    if Finite(p.slots[0]) {
      assert Placed(p, 0);
      SpliceOutside(p.bytes, at, w, p.slots[0].offset, p.slots[0].offset + p.slots[0].keyLen);
    }
    if Finite(p.slots[1]) {
      assert Placed(p, 1);
      SpliceOutside(p.bytes, at, w, p.slots[1].offset, p.slots[1].offset + Len(p, 1));
    }
  }

  lemma MarkedFences(p: Image, pos: nat, low: Key, high: Key)
    requires Ok(p) && HasFences(p, low, high) && First(p) <= pos < |p.slots|
    ensures Laid(Marked(p, pos)) && HasFences(Marked(p, pos), low, high)
  {
    MarkedOk(p, pos);
    assert p.bytes == Splice(p.bytes, 0, []);
    FenceSame(p, Marked(p, pos), 0, [], low, high);
  }

  lemma OverwrittenFences(p: Image, pos: nat, v: Value, op: Op, low: Key, high: Key)
    requires Ok(p) && HasFences(p, low, high) && First(p) <= pos < |p.slots| && |v| <= p.slots[pos].valueLen
    ensures Laid(Overwritten(p, pos, v, op)) && HasFences(Overwritten(p, pos, v, op), low, high)
  {
    OverwrittenLaid(p, pos, v, op);
    assert Placed(p, pos) && Clear(p, pos, 0) && Clear(p, pos, 1) && Placed(p, 0) && Placed(p, 1);
    FenceSame(p, Overwritten(p, pos, v, op), p.slots[pos].offset + p.slots[pos].keyLen - p.prefixLen, v, low, high);
  }

  lemma RegrownFences(p: Image, pos: nat, tail: Key, v: Value, op: Op, low: Key, high: Key)
    requires Ok(p) && HasFences(p, low, high) && First(p) <= pos < |p.slots| && |tail| + |v| <= p.remaining && Tail(p, pos) == tail
    ensures Laid(Regrown(p, pos, tail, v, op)) && HasFences(Regrown(p, pos, tail, v, op), low, high)
  {
    RegrownLaid(p, pos, tail, v, op);
    assert Placed(p, 0) && Placed(p, 1);
    FenceSame(p, Regrown(p, pos, tail, v, op), Lowest(p) - |tail| - |v|, tail + v, low, high);
  }

  lemma AddedFences(p: Image, pos: nat, tail: Key, v: Value, op: Op, low: Key, high: Key)
    requires Ok(p) && HasFences(p, low, high) && First(p) <= pos <= |p.slots| && |tail| + |v| + SLOT <= p.remaining
    ensures Laid(Added(p, pos, tail, v, op)) && HasFences(Added(p, pos, tail, v, op), low, high)
  {
    AddedLaid(p, pos, tail, v, op);
    assert Placed(p, 0) && Placed(p, 1);
    FenceSame(p, Added(p, pos, tail, v, op), Lowest(p) - |tail| - |v|, tail + v, low, high);
  }

  lemma InsertKeepsFences(p: Image, tail: Key, v: Value, op: Op, maxFence: nat, low: Key, high: Key)
    requires Ok(p) && HasFences(p, low, high)
    ensures Ok(InsertInto(p, tail, v, op, maxFence).page) && HasFences(InsertInto(p, tail, v, op, maxFence).page, low, high)
  {
    InsertFinds(p, tail, v, op, maxFence, tail);
    var pos := LowerBound(p, tail);
    if Hit(p, tail) {
      if op.Delete? {
        MarkedFences(p, pos, low, high);
      } else if |v| <= p.slots[pos].valueLen {
        OverwrittenFences(p, pos, v, op, low, high);
      } else if |tail| + |v| <= p.remaining {
        RegrownFences(p, pos, tail, v, op, low, high);
      }
    } else if !(op.Delete? && p.base) && !FullWithFences(p, |tail| + |v| + SLOT, maxFence) {
      AddedFences(p, pos, tail, v, op, low, high);
    }
  }

  // ---- the space account ---------------------------------------------------------------------------

  function Payload(s: Slot, n: nat): int { s.keyLen - n + s.valueLen }

  /** Payload bytes of the given slots with a prefix of `n`. */
  function Sum(slots: seq<Slot>, n: nat): int {
    if slots == [] then 0 else Sum(slots[..|slots| - 1], n) + Payload(slots[|slots| - 1], n)
  }

  lemma {:induction false} SumAppend(a: seq<Slot>, b: seq<Slot>, n: nat)
    ensures Sum(a + b, n) == Sum(a, n) + Sum(b, n)
    decreases |b|
  {
    if b == [] {
      assert a + b == a;
    } else {
      SumAppend(a, b[..|b| - 1], n);
      assert (a + b)[..|a + b| - 1] == a + b[..|b| - 1];
    }
  }

  lemma SumUpdate(a: seq<Slot>, i: nat, s: Slot, n: nat)
    requires i < |a|
    ensures Sum(a[i := s], n) == Sum(a, n) - Payload(a[i], n) + Payload(s, n)
  {
    assert a == a[..i] + [a[i]] + a[i + 1..];
    assert a[i := s] == a[..i] + [s] + a[i + 1..];
    SumAppend(a[..i] + [a[i]], a[i + 1..], n);
    SumAppend(a[..i], [a[i]], n);
    SumAppend(a[..i] + [s], a[i + 1..], n);
    SumAppend(a[..i], [s], n);
    assert Sum([s], n) == Payload(s, n) && Sum([a[i]], n) == Payload(a[i], n);
  }

  function FencePayload(p: Image): int
    requires First(p) <= |p.slots|
  {
    if !p.fenced then 0
    else (if Finite(p.slots[0]) then p.slots[0].keyLen else 0) + if Finite(p.slots[1]) then p.slots[1].keyLen - p.prefixLen else 0
  }

  /** Slots, free space and live payload never exceed the page. */
  predicate Accounted(p: Image)
    requires First(p) <= |p.slots|
  {
    Lowest(p) + FencePayload(p) + Sum(p.slots[First(p)..], p.prefixLen) <= |p.bytes|
  }

  lemma FencedAccounted(junk: seq<byte>, low: Key, high: Key, base: bool)
    requires |low| + |high| + 2 * SLOT <= |junk| < INF_LOW
    ensures Accounted(Fenced(junk, low, high, base))
  {
    var p := Fenced(junk, low, high, base);
    assert p.slots[First(p)..] == [];
  }

  /** What an insert keeps besides the records. */
  predicate SameFrame(p: Image, p': Image)
    requires First(p) <= |p.slots|
  {
    && First(p') <= |p'.slots| && |p'.bytes| == |p.bytes| && p'.prefixLen == p.prefixLen && p'.base == p.base
    && p'.fenced == p.fenced && FenceLens(p') == FenceLens(p)
  }

  lemma EditAccounted(p: Image, pos: nat, s: Slot, p': Image)
    requires Ok(p) && Accounted(p) && First(p) <= pos < |p.slots| && SameFrame(p, p')
    requires p'.slots == p.slots[pos := s]
    requires p'.remaining + Payload(s, p.prefixLen) <= p.remaining + Payload(p.slots[pos], p.prefixLen)
    ensures Accounted(p')
  {
    var f := First(p);
    assert p'.slots[f..] == p.slots[f..][pos - f := s];
    SumUpdate(p.slots[f..], pos - f, s, p.prefixLen);
  }

  lemma HitAccounted(p: Image, pos: nat, tail: Key, v: Value, op: Op)
    requires Ok(p) && Accounted(p) && First(p) <= pos < |p.slots| && Tail(p, pos) == tail
    ensures SameFrame(p, Marked(p, pos)) && Accounted(Marked(p, pos))
    ensures |v| <= p.slots[pos].valueLen ==> SameFrame(p, Overwritten(p, pos, v, op)) && Accounted(Overwritten(p, pos, v, op))
    ensures |tail| + |v| <= p.remaining ==> SameFrame(p, Regrown(p, pos, tail, v, op)) && Accounted(Regrown(p, pos, tail, v, op))
  {
    assert Placed(p, pos);
    EditAccounted(p, pos, Marked(p, pos).slots[pos], Marked(p, pos));
    if |v| <= p.slots[pos].valueLen {
      EditAccounted(p, pos, Overwritten(p, pos, v, op).slots[pos], Overwritten(p, pos, v, op));
    }
    if |tail| + |v| <= p.remaining {
      EditAccounted(p, pos, Regrown(p, pos, tail, v, op).slots[pos], Regrown(p, pos, tail, v, op));
    }
  }

  lemma SumInsert(a: seq<Slot>, i: nat, s: Slot, n: nat)
    requires i <= |a|
    ensures Sum(a[..i] + [s] + a[i..], n) == Sum(a, n) + Payload(s, n)
  {
    SumAppend(a[..i] + [s], a[i..], n);
    SumAppend(a[..i], [s], n);
    SumAppend(a[..i], a[i..], n);
    assert a[..i] + a[i..] == a && Sum([s], n) == Payload(s, n);
  }

  lemma AddedFrame(p: Image, pos: nat, tail: Key, v: Value, op: Op)
    requires Laid(p) && First(p) <= pos <= |p.slots| && |tail| + |v| + SLOT <= p.remaining
    ensures SameFrame(p, Added(p, pos, tail, v, op))
  {
  }

  lemma AddedAccounted(p: Image, pos: nat, tail: Key, v: Value, op: Op)
    requires Laid(p) && Accounted(p) && First(p) <= pos <= |p.slots| && |tail| + |v| + SLOT <= p.remaining
    ensures SameFrame(p, Added(p, pos, tail, v, op)) && Accounted(Added(p, pos, tail, v, op))
  {
    var f, p' := First(p), Added(p, pos, tail, v, op);
    AddedFrame(p, pos, tail, v, op);
    var s := p'.slots[pos];
    assert p'.slots[f..] == p.slots[f..][..pos - f] + [s] + p.slots[f..][pos - f..];
    SumInsert(p.slots[f..], pos - f, s, p.prefixLen);
  }

  /** An insert keeps the account and takes no more than the record's own bytes. */
  lemma InsertAccounted(p: Image, tail: Key, v: Value, op: Op, maxFence: nat)
    requires Ok(p) && Accounted(p)
    ensures var p' := InsertInto(p, tail, v, op, maxFence).page;
      && SameFrame(p, p') && Accounted(p')
      && p.remaining - (if op.Delete? && p.base then 0 else |tail| + |v| + SLOT) <= p'.remaining
  {
    var pos := LowerBound(p, tail);
    if Hit(p, tail) {
      HitAccounted(p, pos, tail, v, op);
    } else if !(op.Delete? && p.base) && !FullWithFences(p, |tail| + |v| + SLOT, maxFence) {
      AddedAccounted(p, pos, tail, v, op);
    }
  }

  /** Room for the record, and for the reserve beside it, is enough. */
  lemma RoomIsEnough(p: Image, tail: Key, v: Value, op: Op, f: nat)
    requires Laid(p)
    requires (op.Delete? && p.base) || (|tail| + |v| + SLOT <= p.remaining && (p.fenced ==> |tail| + |v| + SLOT + f <= p.remaining + FenceLens(p)))
    ensures InsertInto(p, tail, v, op, f).ok
  {
  }

  /** When an insert is taken, and what room it takes: a record that is there is marked or overwritten in place
      unless its value grows, and then only the bare room for key and value counts; a new record needs its slot
      and the reserve as well. */
  lemma InsertExactly(p: Image, tail: Key, v: Value, op: Op, f: nat)
    requires Ok(p)
    ensures var r, kv := InsertInto(p, tail, v, op, f), |tail| + |v|;
      match Find(p, tail)
      case Some(x) =>
        && (r.ok <==> op.Delete? || |v| <= |x.value| || kv <= p.remaining)
        && (r.ok ==> r.page.remaining == p.remaining - if op.Delete? || |v| <= |x.value| then 0 else kv)
      case None =>
        && (r.ok <==> (op.Delete? && p.base) || (kv + 8 <= p.remaining && (p.fenced ==> kv + 8 + f <= p.remaining + FenceLens(p))))
        && (r.ok ==> r.page.remaining == p.remaining - if op.Delete? && p.base then 0 else kv + 8)
  {
    if Hit(p, tail) { assert Placed(p, LowerBound(p, tail)); }
  }
}
