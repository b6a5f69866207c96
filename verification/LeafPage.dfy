/** The leaf page in place: a byte array and its slots, changed by the source's steps. */
module LeafPage {
  import opened Bytes
  import opened TreeShape
  import opened LeafCache
  import opened LeafImage
  import opened LeafImageProof
  import opened LeafFill
  import opened LeafSplit

  datatype ReadResult = Found(value: Value) | Deleted | Missing

  /** What a read of the map answers: a live record's value, that the record is deleted, or that there is none. */
  ghost predicate Answers(m: Recs, key: Key, r: ReadResult) {
    && (forall v :: r == Found(v) <==> RecGet(m, key) == Some(v))
    && (r == Deleted <==> key in m && RecGet(m, key) == None)
    && (r == Missing <==> key !in m)
  }

  /** The same of one record found, or of none. */
  ghost predicate Tells(found: Option<Rec>, r: ReadResult) {
    match r
    case Found(v) => found.Some? && AsOption(found.value) == Some(v)
    case Deleted => found.Some? && AsOption(found.value) == None
    case Missing => found.None?
  }

  lemma TellsMap(p: Image, m: Recs, key: Key, r: ReadResult)
    requires Laid(p) && Holds(p, m) && HasPrefix(p, key) && Tells(Find(p, key[p.prefixLen..]), r)
    ensures Answers(m, key, r)
  {
  }

  class LeafPage {
    const data: array<byte>
    var slots: seq<Slot>
    var remaining: nat
    var prefixLen: nat
    var fenced: bool
    var base: bool

    function View(): Image
      reads this, data
    {
      Image(data[..], slots, remaining, prefixLen, fenced, base)
    }

    predicate Valid()
      reads this, data
    {
      Ok(View())
    }

    /** A page for `image`. */
    constructor (image: Image)
      ensures View() == image && fresh(data)
    {
      var d := new byte[|image.bytes|](i requires 0 <= i < |image.bytes| => image.bytes[i]);
      data := d;
      slots, remaining, prefixLen, fenced, base := image.slots, image.remaining, image.prefixLen, image.fenced, image.base;
      new;
      assert data[..] == image.bytes;
    }

    /** Compare a stored key with `tail`: two preview bytes first, the key only if they agree. */
    method CompareAt(i: nat, tail: Key) returns (o: Ordering)
      requires Valid() && First(View()) <= i < |slots|
      ensures o == Cmp(Tail(View(), i), tail)
    {
      assert PreviewOk(View(), i);
      PreviewDecides(Tail(View(), i), tail, PREVIEW);
      o := Cmp(slots[i].preview, Front(tail, PREVIEW));
      if o == Equal {
        assert Placed(View(), i);
        o := Cmp(data[slots[i].offset..slots[i].offset + slots[i].keyLen - prefixLen], tail);
      }
    }

    /** Binary search; it stops early on an equal key. */
    method LowerBoundOf(key: Key) returns (pos: nat)
      requires Valid() && prefixLen <= |key|
      ensures pos == LowerBound(View(), key[prefixLen..])
    {
      ghost var p, tail := View(), key[prefixLen..];
      var lower, upper := First(View()), |slots|;
      while lower < upper
        invariant First(p) <= lower <= upper <= |slots|
        invariant forall j :: First(p) <= j < lower ==> Lt(Tail(p, j), tail)
        invariant upper < |slots| ==> !Lt(Tail(p, upper), tail)
        decreases upper - lower
      {
        var mid := lower + (upper - lower) / 2;
        var o := CompareAt(mid, key[prefixLen..]);
        LtTotal(Tail(p, mid), tail);
        match o
        case Greater => upper := mid;
        case Equal =>
          FoundAt(p, mid);
          return mid;
        case Less =>
          Before(p, mid, tail);
          lower := mid + 1;
      }
      LowerBoundIs(p, tail, lower);
      pos := lower;
    }

    /** Linear search, the option for mini pages: same position. */
    method LinearLowerBoundOf(key: Key) returns (pos: nat)
      requires Valid() && prefixLen <= |key|
      ensures pos == LowerBound(View(), key[prefixLen..])
    {
      ghost var p, tail := View(), key[prefixLen..];
      pos := First(View());
      while pos < |slots|
        invariant First(p) <= pos <= |slots|
        invariant forall j :: First(p) <= j < pos ==> Lt(Tail(p, j), tail)
      {
        var o := CompareAt(pos, key[prefixLen..]);
        LtTotal(Tail(p, pos), tail);
        if o != Less { break; }
        pos := pos + 1;
      }
      LowerBoundIs(p, tail, pos);
    }

    method KeyTail(i: nat) returns (tail: Key)
      requires Valid() && First(View()) <= i < |slots|
      ensures tail == Tail(View(), i)
    {
      assert Placed(View(), i);
      tail := data[slots[i].offset..slots[i].offset + slots[i].keyLen - prefixLen];
    }

    method ValueOf(i: nat) returns (v: Value)
      requires Valid() && First(View()) <= i < |slots|
      ensures v == ValueAt(View(), i)
    {
      assert Placed(View(), i);
      var at := slots[i].offset + slots[i].keyLen - prefixLen;
      v := data[at..at + slots[i].valueLen];
    }

    method ReadByKey(key: Key, binary: bool) returns (r: ReadResult)
      requires Valid() && prefixLen <= |key|
      ensures Tells(Find(View(), key[prefixLen..]), r)
      ensures forall m :: Holds(View(), m) && HasPrefix(View(), key) ==> Answers(m, key, r)
    {
      r := ReadTail(key, binary);
      forall m | Holds(View(), m) && HasPrefix(View(), key) ensures Answers(m, key, r) { TellsMap(View(), m, key, r); }
    }

    method ReadTail(key: Key, binary: bool) returns (r: ReadResult)
      requires Valid() && prefixLen <= |key|
      ensures Tells(Find(View(), key[prefixLen..]), r)
    {
      var pos: nat;
      if binary { pos := LowerBoundOf(key); } else { pos := LinearLowerBoundOf(key); }
      if pos >= |slots| { return Missing; }
      var tail := KeyTail(pos);
      if tail != key[prefixLen..] { return Missing; }
      if slots[pos].op.Absent() { return Deleted; }
      var v := ValueOf(pos);
      r := Found(v);
    }

    method Copy(at: nat, src: seq<byte>)
      requires at + |src| <= data.Length
      modifies data
      ensures data[..] == Splice(old(data[..]), at, src)
    {
      for i := 0 to |src|
        invariant forall j :: 0 <= j < data.Length ==> data[j] == if at <= j < at + i then src[j - at] else old(data[j])
      {
        data[at + i] := src[i];
      }
    }

    /** `install_fence_key`: the low fence is stored whole, the high fence without the shared prefix. */
    method InstallFence(key: Key, n: nat, infinite: nat)
      requires n <= |key| && SLOT + |key| - n <= remaining && Lowest(View()) <= data.Length
      modifies this`slots, this`remaining, data
      ensures View() == WithFence(old(View()), key, n, infinite)
    {
      var off := SLOT * |slots| + remaining - (|key| - n);
      Copy(off, key[n..]);
      slots := slots + [FenceSlot(key, n, off, infinite)];
      remaining := remaining - SLOT - (|key| - n);
    }

    /** `initialize` with fences. */
    method Initialize(low: Key, high: Key, isBase: bool)
      requires |low| + |high| + 2 * SLOT <= data.Length
      modifies this, data
      ensures View() == Fenced(old(data[..]), low, high, isBase)
    {
      var n := CommonPrefixLen(low, high);
      slots, remaining, prefixLen, fenced, base := [], data.Length, n, true, isBase;
      TwoFences(data[..], low, high, isBase);
      InstallFence(low, 0, INF_LOW);
      InstallFence(high, n, INF_HIGH);
    }

    predicate HasRoom(need: nat, maxFence: nat)
      reads this, data
      requires First(View()) <= |slots|
    {
      !FullWithFences(View(), need, maxFence)
    }

    /** The duplicate-key branch. */
    method Rewrite(pos: nat, tail: Key, v: Value, op: Op) returns (ok: bool)
      requires Valid() && First(View()) <= pos < |slots| && Tail(View(), pos) == tail && op != Cache
      modifies this, data
      ensures View() ==
        if op.Delete? then Marked(old(View()), pos)
        else if |v| <= old(slots[pos].valueLen) then Overwritten(old(View()), pos, v, op)
        else if |tail| + |v| <= old(remaining) then Regrown(old(View()), pos, tail, v, op) else old(View())
      ensures ok <==> op.Delete? || |v| <= old(slots[pos].valueLen) || |tail| + |v| <= old(remaining)
    {
      assert Placed(View(), pos);
      if op.Delete? {
        slots := slots[pos := slots[pos].(op := Delete)];
        return true;
      }
      if |v| <= slots[pos].valueLen {
        Copy(slots[pos].offset + slots[pos].keyLen - prefixLen, v);
        slots := slots[pos := slots[pos].(valueLen := |v|, op := op)];
        return true;
      }
      if remaining < |tail| + |v| { return false; }
      Regrow(pos, tail, v, op);
      ok := true;
    }

    /** The record moves to the free space, its slot staying where it is. */
    method Regrow(pos: nat, tail: Key, v: Value, op: Op)
      requires Valid() && First(View()) <= pos < |slots| && Tail(View(), pos) == tail && |tail| + |v| <= remaining
      modifies this, data
      ensures View() == Regrown(old(View()), pos, tail, v, op)
    {
      var off := SLOT * |slots| + remaining - |tail| - |v|;
      Copy(off, tail + v);
      slots := slots[pos := slots[pos].(offset := off, valueLen := |v|, op := op)];
      remaining := remaining - |tail| - |v|;
    }

    /** The new-key branch: the slots from `pos` on move up. */
    method AddAt(pos: nat, tail: Key, v: Value, op: Op)
      requires Valid() && First(View()) <= pos <= |slots| && |tail| + |v| + SLOT <= remaining
      modifies this, data
      ensures View() == Added(old(View()), pos, tail, v, op)
    {
      var off := SLOT * |slots| + remaining - |tail| - |v|;
      Copy(off, tail + v);
      slots := slots[..pos] + [Slot(off, prefixLen + |tail|, |v|, op, Front(tail, PREVIEW))] + slots[pos..];
      remaining := remaining - |tail| - |v| - SLOT;
    }

    /** `insert`.  A clean record is only ever inserted for a key the page lacks. */
    method InsertRecord(key: Key, v: Value, op: Op, maxFence: nat) returns (ok: bool)
      requires Valid() && prefixLen <= |key|
      requires op.Cache? ==> !Hit(View(), key[prefixLen..])
      modifies this, data
      ensures View() == InsertInto(old(View()), key[old(prefixLen)..], v, op, maxFence).page
      ensures ok == InsertInto(old(View()), key[old(prefixLen)..], v, op, maxFence).ok
      ensures Valid()
    {
      var tail := key[prefixLen..];
      InsertFinds(View(), tail, v, op, maxFence, tail);
      var pos := LowerBoundOf(key);
      if pos < |slots| {
        var t := KeyTail(pos);
        if t == tail {
          ok := Rewrite(pos, tail, v, op);
          return;
        }
      }
      if op.Delete? && base { return true; }
      if !HasRoom(|tail| + |v| + SLOT, maxFence) { return false; }
      AddAt(pos, tail, v, op);
      ok := true;
    }
  }

  lemma Before(p: Image, mid: nat, tail: Key)
    requires Ok(p) && First(p) <= mid < |p.slots| && Lt(Tail(p, mid), tail)
    ensures forall j :: First(p) <= j <= mid ==> Lt(Tail(p, j), tail)
  {
    forall j | First(p) <= j < mid ensures Lt(Tail(p, j), tail) { LtTransitive(Tail(p, j), Tail(p, mid), tail); }
  }
}
