/** The write-ahead log: appends go into one segment buffer, a flush writes the whole buffer to the file --
    over the same segment again while it is less than half full, and otherwise moving on to a new one with
    the old bytes still in the buffer. */
module Wal {
  import opened Bytes
  import opened WalFormat

  /** The log's state. */
  datatype Log = Log(buf: seq<byte>, file: seq<byte>, cursor: nat, fileOffset: nat, nextLsn: nat, flushedLsn: nat)

  /** What has happened: all entries appended, how many of them lie in segments the log has moved on from,
      and how many are in the file. */
  datatype Past = Past(entries: seq<Entry>, closed: nat, durable: nat)

  function Splice(b: seq<byte>, at: nat, v: seq<byte>): seq<byte>
    requires at + |v| <= |b|
  {
    b[..at] + v + b[at + |v|..]
  }

  // ---- invariant -----------------------------------------------------------------------------------

  predicate Counted(l: Log, h: Past) {
    && 0 < |l.buf| < U64 && l.cursor <= |l.buf| && h.closed <= h.durable <= |h.entries| == l.nextLsn <= U64
    && (forall i :: 0 <= i < |h.entries| ==> EntryOk(h.entries[i]) && h.entries[i].lsn == i)
    && l.flushedLsn == if h.durable == 0 then 0 else h.durable - 1
  }

  /** The buffer starts with the entries of the open segment. */
  predicate Buffered(l: Log, h: Past)
    requires l.cursor <= |l.buf| && h.closed <= |h.entries|
  {
    l.cursor == |EncodeAll(h.entries[h.closed..])| && l.buf[..l.cursor] == EncodeAll(h.entries[h.closed..])
  }

  /** A reader of the file finds the entries of the last flush, in order. */
  predicate Filed(l: Log, h: Past)
    requires |l.buf| > 0 && h.closed <= h.durable <= |h.entries|
  {
    && l.fileOffset <= |l.file| && Whole(l.file[..l.fileOffset], |l.buf|)
    && ReadFile(l.file[..l.fileOffset], |l.buf|) == h.entries[..h.closed]
    && ReadFile(l.file, |l.buf|) == h.entries[..h.durable]
    && |l.file| == l.fileOffset + (if h.durable > h.closed then |l.buf| else 0)
    && (h.closed == 0 ==> l.fileOffset == 0)
  }

  predicate LogOk(l: Log, h: Past) { Counted(l, h) && Buffered(l, h) && Filed(l, h) }

  // ---- append --------------------------------------------------------------------------------------

  function Appended(l: Log, e: Entry): Log
    requires l.cursor + Size(e) <= |l.buf|
  {
    l.(buf := Splice(l.buf, l.cursor, Encode(e)), cursor := l.cursor + Size(e), nextLsn := l.nextLsn + 1)
  }

  lemma OpenGrows(h: Past, e: Entry)
    requires h.closed <= |h.entries|
    ensures EncodeAll((h.entries + [e])[h.closed..]) == EncodeAll(h.entries[h.closed..]) + Encode(e)
  {
    var open := h.entries[h.closed..];
    assert (h.entries + [e])[h.closed..] == open + [e];
    assert (open + [e])[..|open|] == open;
  }

  lemma AppendBuffered(l: Log, h: Past, e: Entry)
    requires l.cursor + Size(e) <= |l.buf| && h.closed <= |h.entries| && Buffered(l, h)
    ensures Buffered(Appended(l, e), h.(entries := h.entries + [e]))
  {
    OpenGrows(h, e);
    var l' := Appended(l, e);
    assert l'.buf[..l'.cursor] == l.buf[..l.cursor] + Encode(e);
  }

  /** An append adds its entry to the open segment and leaves the file alone. */
  lemma AppendOk(l: Log, h: Past, e: Entry)
    requires LogOk(l, h) && EntryOk(e) && e.lsn == l.nextLsn && l.nextLsn < U64 && l.cursor + Size(e) <= |l.buf|
    ensures LogOk(Appended(l, e), h.(entries := h.entries + [e]))
  {
    AppendBuffered(l, h, e);
    var h' := h.(entries := h.entries + [e]);
    assert h'.entries[..h.closed] == h.entries[..h.closed] && h'.entries[..h.durable] == h.entries[..h.durable];
  }

  // ---- flush ---------------------------------------------------------------------------------------

  /** `clear_next_header`: a zero length behind the last entry, if one fits. */
  function Cleared(l: Log): seq<byte>
    requires l.cursor <= |l.buf|
  {
    if l.cursor + 8 <= |l.buf| then Splice(l.buf, l.cursor, [0, 0, 0, 0, 0, 0, 0, 0]) else l.buf
  }

  function Flushed(l: Log): Log
    requires l.cursor <= |l.buf| && l.fileOffset <= |l.file|
  {
    if l.cursor == 0 then l
    else
      var seg := Cleared(l);
      var stay := l.cursor < |l.buf| / 2;
      Log(seg, l.file[..l.fileOffset] + seg, if stay then l.cursor else 0,
          if stay then l.fileOffset else l.fileOffset + |seg|, l.nextLsn, if l.nextLsn == 0 then 0 else l.nextLsn - 1)
  }

  function AfterFlush(l: Log, h: Past): Past {
    if l.cursor == 0 then h
    else Past(h.entries, if l.cursor < |l.buf| / 2 then h.closed else |h.entries|, |h.entries|)
  }

  lemma NothingOpen(l: Log, h: Past)
    requires LogOk(l, h) && l.cursor == 0
    ensures h.closed == h.durable == |h.entries|
  {
    NonEmptyIsLong(h.entries[h.closed..]);
  }

  lemma NonEmptyIsLong(es: seq<Entry>)
    ensures es != [] ==> |EncodeAll(es)| >= HEADER
  {
  }

  /** The segment about to be written reads back as the open entries. */
  lemma SegmentReads(l: Log, h: Past)
    requires LogOk(l, h)
    ensures |Cleared(l)| == |l.buf| && Cleared(l)[..l.cursor] == l.buf[..l.cursor]
    ensures ReadFrom(Cleared(l), 0) == h.entries[h.closed..]
  {
    var seg, open := Cleared(l), h.entries[h.closed..];
    assert seg[..l.cursor] == l.buf[..l.cursor];
    assert EndsAt(seg, l.cursor);
    ReadsBack(seg, open);
  }

  lemma FileReads(l: Log, h: Past)
    requires LogOk(l, h)
    ensures var file := l.file[..l.fileOffset] + Cleared(l);
      && ReadFile(file, |l.buf|) == h.entries && Whole(file, |l.buf|) && |file| == l.fileOffset + |l.buf|
  {
    SegmentReads(l, h);
    ReadFileAppend(l.file[..l.fileOffset], Cleared(l), |l.buf|);
    assert h.entries[..h.closed] + h.entries[h.closed..] == h.entries;
  }

  lemma SomethingOpen(l: Log, h: Past)
    requires LogOk(l, h) && l.cursor > 0
    ensures h.closed < |h.entries|
  {
    assert h.entries[|h.entries|..] == [];
  }

  lemma FlushFiled(l: Log, h: Past)
    requires LogOk(l, h) && l.cursor > 0
    ensures |Flushed(l).buf| == |l.buf| && Filed(Flushed(l), AfterFlush(l, h))
  {
    FileReads(l, h);
    SegmentReads(l, h);
    SomethingOpen(l, h);
    var file := l.file[..l.fileOffset] + Cleared(l);
    assert file[..l.fileOffset] == l.file[..l.fileOffset] && file[..|file|] == file;
    assert h.entries[..|h.entries|] == h.entries;
  }

  lemma FlushBuffered(l: Log, h: Past)
    requires LogOk(l, h) && l.cursor > 0
    ensures |Flushed(l).buf| == |l.buf| && Flushed(l).cursor <= |l.buf| && Buffered(Flushed(l), AfterFlush(l, h))
  {
    SegmentReads(l, h);
    assert h.entries[|h.entries|..] == [];
  }

  /** Round trip: after a flush the reader decodes exactly the entries appended so far, in LSN order, with no
      stale bytes of earlier segments. */
  lemma FlushOk(l: Log, h: Past)
    requires LogOk(l, h)
    ensures LogOk(Flushed(l), AfterFlush(l, h)) && AfterFlush(l, h).durable == |h.entries|
    ensures ReadFile(Flushed(l).file, |l.buf|) == h.entries
  {
    if l.cursor == 0 {
      NothingOpen(l, h);
    } else {
      FlushFiled(l, h);
      FlushBuffered(l, h);
      SomethingOpen(l, h);
    }
    assert h.entries[..|h.entries|] == h.entries;
  }

  // ---- durability ----------------------------------------------------------------------------------

  /** The append of LSN `lsn` may return. */
  predicate MayReturn(l: Log, h: Past, lsn: nat) { lsn < |h.entries| && lsn <= l.flushedLsn }

  /** An append that may return is in the file exactly when its LSN is not 0 or the file is not empty.  LSN 0
      is let through before any flush because `flushed_lsn` starts at 0. */
  lemma ReturnedIsDurable(l: Log, h: Past, lsn: nat)
    requires LogOk(l, h) && MayReturn(l, h, lsn)
    ensures var found := ReadFile(l.file, |l.buf|);
      (lsn < |found| && found[lsn] == h.entries[lsn]) <==> lsn >= 1 || l.file != []
  {
    var found := ReadFile(l.file, |l.buf|);
    assert found == h.entries[..h.durable];
    if l.file == [] { assert found == []; }
  }

  // ---- whole runs ----------------------------------------------------------------------------------

  datatype Op = DoAppend(page: nat, payload: seq<byte>) | DoFlush

  datatype Moment = Moment(log: Log, past: Past)

  predicate StepTo(s: Moment, op: Op, s': Moment) {
    && s.log.cursor <= |s.log.buf| && s.log.fileOffset <= |s.log.file|
    && match op
       case DoAppend(page, payload) =>
         var e := Entry(s.log.nextLsn, page, payload);
         && EntryOk(e) && s.log.nextLsn < U64 && s.log.cursor + Size(e) <= |s.log.buf|
         && s' == Moment(Appended(s.log, e), s.past.(entries := s.past.entries + [e]))
       case DoFlush => s' == Moment(Flushed(s.log), AfterFlush(s.log, s.past))
  }

  /** From an empty file, with whatever bytes the fresh buffer has. */
  predicate Run(run: seq<Moment>, ops: seq<Op>) {
    && |run| == |ops| + 1 && 0 < |run[0].log.buf| < U64
    && run[0] == Moment(Log(run[0].log.buf, [], 0, 0, 0, 0), Past([], 0, 0))
    && forall i {:trigger ops[i]} :: 0 <= i < |ops| ==> StepTo(run[i], ops[i], run[i + 1])
  }

  /** Log round trip: at every moment of every run the reader decodes exactly the entries that had been
      appended at the last flush, in LSN order, and every append with an LSN of 1 or more that may have
      returned is among them. */
  lemma {:induction false} RunReadsBack(run: seq<Moment>, ops: seq<Op>, i: nat)
    requires Run(run, ops) && i < |run|
    ensures var l, h := run[i].log, run[i].past;
      && LogOk(l, h) && ReadFile(l.file, |l.buf|) == h.entries[..h.durable]
      && (i > 0 && ops[i - 1].DoFlush? ==> h.durable == |h.entries|)
      && (forall lsn :: 1 <= lsn && MayReturn(l, h, lsn) ==> lsn < h.durable)
    decreases i
  {
    if i > 0 {
      RunReadsBack(run, ops, i - 1);
      var s := run[i - 1];
      assert StepTo(s, ops[i - 1], run[i]);
      match ops[i - 1]
      case DoAppend(page, payload) => AppendOk(s.log, s.past, Entry(s.log.nextLsn, page, payload));
      case DoFlush => FlushOk(s.log, s.past);
    }
  }

  // ---- the log in place ----------------------------------------------------------------------------

  class WriteAheadLog {
    const buffer: array<byte>
    var file: seq<byte>
    var cursor: nat
    var fileOffset: nat
    var nextLsn: nat
    var flushedLsn: nat
    ghost var past: Past

    function View(): Log
      reads this, buffer
    {
      Log(buffer[..], file, cursor, fileOffset, nextLsn, flushedLsn)
    }

    ghost predicate Valid()
      reads this, buffer
    {
      LogOk(View(), past)
    }

    constructor (segment: nat)
      requires 0 < segment < U64
      ensures Valid() && past == Past([], 0, 0) && file == [] && buffer.Length == segment && fresh(buffer)
    {
      buffer := new byte[segment];
      file, cursor, fileOffset, nextLsn, flushedLsn := [], 0, 0, 0, 0;
      past := Past([], 0, 0);
    }

    method Copy(at: nat, src: seq<byte>)
      requires at + |src| <= buffer.Length
      modifies buffer
      ensures buffer[..] == Splice(old(buffer[..]), at, src)
    {
      for i := 0 to |src|
        invariant forall j :: 0 <= j < buffer.Length ==> buffer[j] == if at <= j < at + i then src[j - at] else old(buffer[j])
      {
        buffer[at + i] := src[i];
      }
    }

    /** The branch of `append_and_wait` for an entry that fits; the caller then waits for `flushedLsn`. */
    method Append(page: nat, payload: seq<byte>) returns (lsn: nat)
      requires Valid() && |payload| > 0 && page < U64 && nextLsn < U64 && cursor + HEADER + |payload| <= buffer.Length
      modifies this, buffer
      ensures Valid() && lsn == old(nextLsn) && file == old(file) && flushedLsn == old(flushedLsn)
      ensures past == old(past).(entries := old(past).entries + [Entry(lsn, page, payload)])
    {
      lsn := nextLsn;
      var e := Entry(lsn, page, payload);
      AppendOk(View(), past, e);
      Copy(cursor, Encode(e));
      cursor, nextLsn := cursor + Size(e), nextLsn + 1;
      past := past.(entries := past.entries + [e]);
    }

    method ClearNextHeader()
      requires cursor <= buffer.Length
      modifies buffer
      ensures buffer[..] == Cleared(old(View()))
    {
      if cursor + 8 <= buffer.Length { Copy(cursor, [0, 0, 0, 0, 0, 0, 0, 0]); }
    }

    method WriteOut()
      requires cursor <= buffer.Length && fileOffset <= |file|
      modifies this, buffer
      ensures View() == Flushed(old(View())) && past == old(past)
    {
      if cursor == 0 { return; }
      ClearNextHeader();
      file := file[..fileOffset] + buffer[..];
      if !(cursor < buffer.Length / 2) { fileOffset, cursor := fileOffset + buffer.Length, 0; }
      flushedLsn := if nextLsn == 0 then 0 else nextLsn - 1;
    }

    /** `flush`: afterwards the reader decodes exactly the entries appended so far. */
    method Flush()
      requires Valid()
      modifies this, buffer
      ensures Valid() && past.entries == old(past).entries
      ensures past.durable == |past.entries| && ReadFile(file, buffer.Length) == past.entries
      ensures nextLsn == old(nextLsn) && (old(cursor) > 0 ==> flushedLsn == nextLsn - 1)
      ensures var half := buffer.Length / 2;
        if old(cursor) < half || old(cursor) == 0 then cursor == old(cursor) && fileOffset == old(fileOffset)
        else cursor == 0 && fileOffset == old(fileOffset) + buffer.Length
    {
      FlushOk(View(), past);
      ghost var after := AfterFlush(View(), past);
      WriteOut();
      past := after;
    }
  }

  /** LSN 0 really returns early: the first append is let through, and a reader of the file finds nothing. */
  method FirstAppendReturnsEarly(page: nat, payload: seq<byte>) returns (w: WriteAheadLog, lsn: nat)
    requires 0 < |payload| < 1000 && page < U64
    ensures w.Valid() && MayReturn(w.View(), w.past, lsn) && ReadFile(w.file, w.buffer.Length) == []
  {
    w := new WriteAheadLog(4096);
    lsn := w.Append(page, payload);
  }
}
