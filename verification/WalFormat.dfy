/** The byte format of the write-ahead log, and its reader. */
module WalFormat {
  import opened Bytes
  import opened LeafCache

  const HEADER := 24
  const U16 := 65536
  const U64 := 18446744073709551616

  // ---- little-endian integers ----------------------------------------------------------------------

  function Pow256(n: nat): (p: nat)
    ensures p > 0
  {
    if n == 0 then 1 else 256 * Pow256(n - 1)
  }

  /** The low `n` bytes of `x`, least significant first. */
  function Le(x: nat, n: nat): (s: seq<byte>)
    ensures |s| == n
  {
    if n == 0 then [] else [x % 256] + Le(x / 256, n - 1)
  }

  function FromLe(s: seq<byte>): nat { if s == [] then 0 else s[0] + 256 * FromLe(s[1..]) }

  lemma {:induction false} LeRoundTrip(x: nat, n: nat)
    requires x < Pow256(n)
    ensures FromLe(Le(x, n)) == x
  {
    if n > 0 {
      assert x / 256 < Pow256(n - 1);
      LeRoundTrip(x / 256, n - 1);
      assert Le(x, n)[1..] == Le(x / 256, n - 1);
    }
  }

  /** Byte `i` is the `i`-th lowest digit. */
  lemma {:induction false} LeDigits(x: nat, n: nat, i: nat)
    requires i < n
    ensures Le(x, n)[i] == x / Pow256(i) % 256
  {
    if i > 0 {
      LeDigits(x / 256, n - 1, i - 1);
      DivDiv(x, Pow256(i - 1));
    }
  }

  lemma DivDiv(x: nat, p: nat)
    requires p > 0
    ensures x / 256 / p == x / (256 * p)
  {
    var q, r := x / 256 / p, x / 256 % p;
    assert x == 256 * (q * p + r) + x % 256;
    assert x == q * (256 * p) + (256 * r + x % 256);
    QuotientIs(x, 256 * p, q, 256 * r + x % 256);
  }

  lemma QuotientIs(x: nat, d: nat, q: nat, r: nat)
    requires d > 0 && x == q * d + r && r < d
    ensures x / d == q
  {
    var e := x / d;
    assert (q - e) * d == x % d - r;
    Multiple(q - e, d);
  }

  lemma Multiple(k: int, d: nat)
    ensures k >= 1 ==> k * d >= d
    ensures k <= -1 ==> k * d + d <= 0
  {
  }

  lemma Widths()
    ensures Pow256(8) == U64 && Pow256(2) == U16
  {
    assert Pow256(1) == 256 && Pow256(2) == U16 && Pow256(3) == 256 * U16 && Pow256(4) == U16 * U16;
    assert Pow256(5) == 256 * (U16 * U16) && Pow256(6) == U16 * U16 * U16;
    assert Pow256(7) == 256 * (U16 * U16 * U16);
  }

  // ---- log entries ---------------------------------------------------------------------------------

  /** An entry: its LSN, the page it belongs to, and what was logged. */
  datatype Entry = Entry(lsn: nat, page: nat, payload: seq<byte>)

  function Size(e: Entry): nat { HEADER + |e.payload| }

  predicate EntryOk(e: Entry) { e.lsn < U64 && e.page < U64 && |e.payload| > 0 && Size(e) < U64 }

  /** Header -- length, LSN, page offset -- and payload. */
  function Encode(e: Entry): (s: seq<byte>)
    ensures |s| == Size(e)
  {
    Le(Size(e), 8) + Le(e.lsn, 8) + Le(e.page, 8) + e.payload
  }

  /** Where an entry's fields are: eight bytes each for the length of all, the LSN and the page offset, lowest byte
      first, and the payload behind them. */
  lemma EntryLayout(e: Entry, i: nat)
    requires i < 8
    ensures var b := Encode(e);
      && |b| == 24 + |e.payload| && b[24..] == e.payload
      && b[i] == |b| / Pow256(i) % 256 && b[8 + i] == e.lsn / Pow256(i) % 256 && b[16 + i] == e.page / Pow256(i) % 256
  {
    var b := Encode(e);
    LeDigits(Size(e), 8, i);
    LeDigits(e.lsn, 8, i);
    LeDigits(e.page, 8, i);
    assert b[i] == Le(Size(e), 8)[i] && b[8 + i] == Le(e.lsn, 8)[i] && b[16 + i] == Le(e.page, 8)[i];
  }

  function EncodeAll(es: seq<Entry>): seq<byte> {
    if es == [] then [] else EncodeAll(es[..|es| - 1]) + Encode(es[|es| - 1])
  }

  // ---- the reader ----------------------------------------------------------------------------------

  function LenAt(seg: seq<byte>, off: nat): nat
    requires off + 8 <= |seg|
  {
    FromLe(seg[off..off + 8])
  }

  function EntryAt(seg: seq<byte>, off: nat): Entry
    requires off + HEADER <= |seg| && HEADER <= LenAt(seg, off) && off + LenAt(seg, off) <= |seg|
  {
    Entry(FromLe(seg[off + 8..off + 16]), FromLe(seg[off + 16..off + 24]), seg[off + HEADER..off + LenAt(seg, off)])
  }

  /** The entry iterator: it stops where no header fits or the length is zero.  (A length that runs off the
      segment would panic; `ReadsBack` shows that no flushed segment has one.) */
  function ReadFrom(seg: seq<byte>, off: nat): seq<Entry>
    decreases |seg| - off
  {
    if off + HEADER >= |seg| then []
    else if LenAt(seg, off) == 0 then []
    else if LenAt(seg, off) < HEADER || off + LenAt(seg, off) > |seg| then []
    else [EntryAt(seg, off)] + ReadFrom(seg, off + LenAt(seg, off))
  }

  /** The segment iterator over a whole file. */
  function ReadFile(file: seq<byte>, segment: nat): seq<Entry>
    requires segment > 0
    decreases |file|
  {
    if |file| < segment then [] else ReadFrom(file[..segment], 0) + ReadFile(file[segment..], segment)
  }

  // ---- reading back what was written ---------------------------------------------------------------

  lemma SubSlice(seg: seq<byte>, off: nat, n: nat, a: nat, b: nat)
    requires off + n <= |seg| && a <= b <= n
    ensures seg[off + a..off + b] == seg[off..off + n][a..b]
  {
    var x, y := seg[off + a..off + b], seg[off..off + n][a..b];
    forall i | 0 <= i < |x| ensures x[i] == y[i] { }
  }

  lemma Field(s: seq<byte>, x: nat)
    requires x < U64 && s == Le(x, 8)
    ensures FromLe(s) == x
  {
    Widths();
    LeRoundTrip(x, 8);
  }

  lemma EncodeParts(e: Entry)
    ensures var s := Encode(e); s[0..8] == Le(Size(e), 8) && s[8..16] == Le(e.lsn, 8) && s[16..24] == Le(e.page, 8) && s[24..] == e.payload
  {
  }

  lemma FieldLies(seg: seq<byte>, off: nat, n: nat, a: nat, x: nat)
    requires off + n <= |seg| && a + 8 <= n && x < U64 && seg[off..off + n][a..a + 8] == Le(x, 8)
    ensures FromLe(seg[off + a..off + a + 8]) == x
  {
    SubSlice(seg, off, n, a, a + 8);
    Field(seg[off + a..off + a + 8], x);
  }

  /** One encoded entry, wherever it lies in a segment. */
  lemma LenReadsBack(seg: seq<byte>, off: nat, e: Entry)
    requires EntryOk(e) && off + Size(e) <= |seg| && seg[off..off + Size(e)] == Encode(e)
    ensures LenAt(seg, off) == Size(e)
  {
    EncodeParts(e);
    FieldLies(seg, off, Size(e), 0, Size(e));
  }

  lemma LsnReadsBack(seg: seq<byte>, off: nat, e: Entry)
    requires EntryOk(e) && off + Size(e) <= |seg| && seg[off..off + Size(e)] == Encode(e)
    ensures FromLe(seg[off + 8..off + 16]) == e.lsn
  {
    EncodeParts(e);
    FieldLies(seg, off, Size(e), 8, e.lsn);
  }

  lemma PageReadsBack(seg: seq<byte>, off: nat, e: Entry)
    requires EntryOk(e) && off + Size(e) <= |seg| && seg[off..off + Size(e)] == Encode(e)
    ensures FromLe(seg[off + 16..off + 24]) == e.page && seg[off + 24..off + Size(e)] == e.payload
  {
    EncodeParts(e);
    FieldLies(seg, off, Size(e), 16, e.page);
    SubSlice(seg, off, Size(e), 24, Size(e));
  }

  lemma EntryReadsBack(seg: seq<byte>, off: nat, e: Entry)
    requires EntryOk(e) && off + Size(e) <= |seg| && seg[off..off + Size(e)] == Encode(e) && LenAt(seg, off) == Size(e)
    ensures EntryAt(seg, off) == e
  {
    LsnReadsBack(seg, off, e);
    PageReadsBack(seg, off, e);
  }

  /** The segment ends after `end`: nothing more fits, or the next length is cleared. */
  predicate EndsAt(seg: seq<byte>, end: nat) {
    end <= |seg| && (end + 8 <= |seg| ==> seg[end..end + 8] == [0, 0, 0, 0, 0, 0, 0, 0])
  }

  lemma EndStops(seg: seq<byte>, end: nat)
    requires EndsAt(seg, end)
    ensures ReadFrom(seg, end) == []
  {
    if end + HEADER < |seg| {
      var z := [0, 0, 0, 0, 0, 0, 0, 0];
      assert z[1..] == [0, 0, 0, 0, 0, 0, 0] && z[1..][1..] == [0, 0, 0, 0, 0, 0];
      ZeroLe(z);
    }
  }

  lemma {:induction false} ZeroLe(s: seq<byte>)
    requires forall i :: 0 <= i < |s| ==> s[i] == 0
    ensures FromLe(s) == 0
  {
    if s != [] { ZeroLe(s[1..]); }
  }

  lemma {:induction false} EncodePrefix(es: seq<Entry>, i: nat)
    requires i <= |es|
    ensures |EncodeAll(es[..i])| <= |EncodeAll(es)| && EncodeAll(es)[..|EncodeAll(es[..i])|] == EncodeAll(es[..i])
    decreases |es|
  {
    if i < |es| {
      EncodePrefix(es[..|es| - 1], i);
      assert es[..|es| - 1][..i] == es[..i];
    } else {
      assert es[..i] == es;
    }
  }

  lemma EncodeNext(es: seq<Entry>, i: nat)
    requires i < |es|
    ensures EncodeAll(es[..i + 1]) == EncodeAll(es[..i]) + Encode(es[i])
  {
    assert es[..i + 1][..i] == es[..i];
  }

  /** Where entry `i` lies in a segment that starts with all of them. */
  lemma EntryLies(seg: seq<byte>, es: seq<Entry>, i: nat)
    requires i < |es| && |EncodeAll(es)| <= |seg| && seg[..|EncodeAll(es)|] == EncodeAll(es)
    ensures var off := |EncodeAll(es[..i])|;
      && off + Size(es[i]) <= |seg| && seg[off..off + Size(es[i])] == Encode(es[i])
      && |EncodeAll(es[..i + 1])| == off + Size(es[i])
  {
    var off, end := |EncodeAll(es[..i])|, |EncodeAll(es[..i + 1])|;
    EncodeNext(es, i);
    EncodePrefix(es, i + 1);
    assert seg[..end] == seg[..|EncodeAll(es)|][..end] == EncodeAll(es[..i]) + Encode(es[i]);
    assert seg[off..end] == seg[..end][off..];
  }

  lemma ReadsNext(seg: seq<byte>, off: nat, e: Entry, end: nat)
    requires EntryOk(e) && end == off + Size(e) <= |seg| && seg[off..end] == Encode(e)
    ensures ReadFrom(seg, off) == [e] + ReadFrom(seg, end)
  {
    LenReadsBack(seg, off, e);
    EntryReadsBack(seg, off, e);
  }

  lemma EntryNext(seg: seq<byte>, es: seq<Entry>, i: nat)
    requires i < |es| && EntryOk(es[i]) && |EncodeAll(es)| <= |seg| && seg[..|EncodeAll(es)|] == EncodeAll(es)
    ensures ReadFrom(seg, |EncodeAll(es[..i])|) == [es[i]] + ReadFrom(seg, |EncodeAll(es[..i + 1])|)
  {
    EntryLies(seg, es, i);
    ReadsNext(seg, |EncodeAll(es[..i])|, es[i], |EncodeAll(es[..i + 1])|);
  }

  /** A segment that starts with the entries `es` and ends after them. */
  predicate Holds(seg: seq<byte>, es: seq<Entry>) {
    && (forall j :: 0 <= j < |es| ==> EntryOk(es[j]))
    && |EncodeAll(es)| <= |seg| && seg[..|EncodeAll(es)|] == EncodeAll(es) && EndsAt(seg, |EncodeAll(es)|)
  }

  lemma {:induction false} ReadsBackFrom(seg: seq<byte>, es: seq<Entry>, i: nat, off: nat)
    requires Holds(seg, es) && i <= |es| && off == |EncodeAll(es[..i])|
    ensures ReadFrom(seg, off) == es[i..]
    decreases |es| - i
  {
    if i == |es| {
      assert es[..i] == es;
      EndStops(seg, off);
    } else {
      EntryNext(seg, es, i);
      ReadsBackFrom(seg, es, i + 1, |EncodeAll(es[..i + 1])|);
      assert es[i..] == [es[i]] + es[i + 1..];
    }
  }

  /** Reading a segment gives back exactly the entries written to it, whatever bytes are left over from
      earlier use of the buffer behind the cleared header. */
  lemma ReadsBack(seg: seq<byte>, es: seq<Entry>)
    requires Holds(seg, es)
    ensures ReadFrom(seg, 0) == es
  {
    ReadsBackFrom(seg, es, 0, 0);
  }

  /** The file consists of whole segments. */
  predicate Whole(file: seq<byte>, segment: nat)
    requires segment > 0
    decreases |file|
  {
    |file| == 0 || (|file| >= segment && Whole(file[segment..], segment))
  }

  /** Reading a file of whole segments with one more behind it. */
  lemma {:induction false} ReadFileAppend(file: seq<byte>, seg: seq<byte>, segment: nat)
    requires segment > 0 && Whole(file, segment) && |seg| == segment
    ensures ReadFile(file + seg, segment) == ReadFile(file, segment) + ReadFrom(seg, 0) && Whole(file + seg, segment)
    decreases |file|
  {
    if |file| == 0 {
      assert file + seg == seg && seg[..segment] == seg && seg[segment..] == [];
      assert ReadFile([], segment) == [];
    } else {
      ReadFileAppend(file[segment..], seg, segment);
      assert (file + seg)[..segment] == file[..segment] && (file + seg)[segment..] == file[segment..] + seg;
    }
  }

  // ---- write operations ----------------------------------------------------------------------------

  datatype WriteOp = WriteOp(key: Key, value: Value, op: Op)

  function OpCode(op: Op): byte { match op case Insert => 0 case Delete => 1 case Cache => 2 case Phantom => 3 }

  function OpOf(b: byte): Op { if b == 0 then Insert else if b == 1 then Delete else if b == 2 then Cache else Phantom }

  /** Key length, value length, kind, key, value. */
  function WriteOpBytes(w: WriteOp): seq<byte> {
    Le(|w.key|, 2) + Le(|w.value|, 2) + [OpCode(w.op)] + w.key + w.value
  }

  predicate CanRead(b: seq<byte>) {
    |b| >= 5 && 5 + FromLe(b[0..2]) <= |b| && |b| - 5 - FromLe(b[0..2]) == FromLe(b[2..4])
  }

  function ReadWriteOp(b: seq<byte>): WriteOp
    requires CanRead(b)
  {
    var n := FromLe(b[0..2]);
    WriteOp(b[5..5 + n], b[5 + n..], OpOf(b[4]))
  }

  /** Where a write's fields are: two bytes each for the lengths, lowest byte first, one for the kind, then key
      and value. */
  lemma WriteOpLayout(w: WriteOp)
    ensures var b := WriteOpBytes(w);
      && b[0] == |w.key| % 256 && b[1] == |w.key| / 256 % 256 && b[2] == |w.value| % 256 && b[3] == |w.value| / 256 % 256
      && (b[4] == 0 <==> w.op.Insert?) && (b[4] == 1 <==> w.op.Delete?) && (b[4] == 2 <==> w.op.Cache?) && (b[4] == 3 <==> w.op.Phantom?)
      && b[5..] == w.key + w.value
  {
    var b := WriteOpBytes(w);
    assert Pow256(0) == 1 && Pow256(1) == 256;
    LeDigits(|w.key|, 2, 0);
    LeDigits(|w.key|, 2, 1);
    LeDigits(|w.value|, 2, 0);
    LeDigits(|w.value|, 2, 1);
    assert b[0..2] == Le(|w.key|, 2) && b[2..4] == Le(|w.value|, 2) && b[4] == OpCode(w.op);
  }

  /** A logged write reads back as itself; lengths are 16 bits wide. */
  lemma WriteOpRoundTrip(w: WriteOp)
    requires |w.key| < U16 && |w.value| < U16
    ensures CanRead(WriteOpBytes(w)) && ReadWriteOp(WriteOpBytes(w)) == w
    ensures |WriteOpBytes(w)| == 5 + |w.key| + |w.value|
  {
    var b := WriteOpBytes(w);
    Widths();
    LeRoundTrip(|w.key|, 2);
    LeRoundTrip(|w.value|, 2);
    assert b[0..2] == Le(|w.key|, 2) && b[2..4] == Le(|w.value|, 2) && b[4] == OpCode(w.op);
    assert b[5..5 + |w.key|] == w.key && b[5 + |w.key|..] == w.value;
  }

  /** Beyond 16 bits the key length wraps, and the entry no longer reads back. */
  lemma LongKeyWraps(w: WriteOp)
    requires |w.key| == U16 && |w.value| == 0
    ensures !CanRead(WriteOpBytes(w))
  {
    var b := WriteOpBytes(w);
    assert b[0..2] == Le(U16, 2) && b[2..4] == Le(0, 2);
    assert Le(U16, 2) == [0] + Le(256, 1) && Le(256, 1) == [0] + Le(1, 0);
    assert Le(0, 2) == [0] + Le(0, 1) && Le(0, 1) == [0] + Le(0, 0);
    ZeroLe(b[0..2]);
    ZeroLe(b[2..4]);
  }

  lemma {:induction false} FromLeBound(s: seq<byte>)
    ensures FromLe(s) < Pow256(|s|)
  {
    if s != [] { FromLeBound(s[1..]); }
  }

  /** Exactly when a write reads back: both lengths fit their 16-bit fields. */
  lemma WriteOpExact(w: WriteOp)
    ensures (CanRead(WriteOpBytes(w)) && ReadWriteOp(WriteOpBytes(w)) == w) <==> |w.key| < U16 && |w.value| < U16
  {
    var b := WriteOpBytes(w);
    assert b[0..2] == Le(|w.key|, 2) && b[2..4] == Le(|w.value|, 2);
    FromLeBound(b[0..2]);
    FromLeBound(b[2..4]);
    Widths();
    if |w.key| < U16 && |w.value| < U16 { WriteOpRoundTrip(w); }
    if CanRead(b) && ReadWriteOp(b) == w { assert |ReadWriteOp(b).key| == FromLe(b[0..2]); }
  }
}
