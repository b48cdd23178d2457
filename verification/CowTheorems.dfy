/**
 The overlay's promises: crash atomicity of an append, recovery, what a reader sees, and both over
 every sequence of opens and writes with failing I/O.
 */
module CowTheorems {
  import opened Bytes
  import opened Wrappers
  import opened CowLog
  import opened CowScan
  import opened CowState

  // ---- crashes ----

  /** Reopening a log with `n` bytes of the next record behind it. */
  lemma ReopenTorn(p: Params, fmt: Format, ws: seq<BlockWrite>, w: BlockWrite, n: nat)
    requires ValidParams(p) && fmt == CowFormat(p) && ValidWrites(p, ws) && ValidWrite(p, w) && n <= RecordSize(p)
    requires |fmt.enc(|ws| + 1, w)| == RecordSize(p)
    requires |FileOf(fmt, ws)| + RecordSize(p) <= MAX_FILE
    ensures var o := Open(p, Some(FileOf(fmt, ws) + fmt.enc(|ws| + 1, w)[..n]));
            && o.Ok? && !o.value.poisoned
            && Tracks(p, fmt, o.value, if n == RecordSize(p) then ws + [w] else ws, Option.None)
            && (o.value.scan.tail <==> 0 < n < RecordSize(p))
  {
    CowFormatOk(p);
    var r := fmt.enc(|ws| + 1, w);
    OneMore(p, fmt, ws, w);
    if n == RecordSize(p) {
      assert r[..n] == r;
      ReopenLog(p, ws + [w], []);
      assert FileOf(fmt, ws + [w]) + [] == FileOf(fmt, ws) + r[..n];
    } else {
      ReopenLog(p, ws, r[..n]);
    }
  }

  lemma ReopenLog(p: Params, ws: seq<BlockWrite>, tail: seq<Byte>)
    requires ValidParams(p) && ValidWrites(p, ws) && |tail| < RecordSize(p) && |FileOf(CowFormat(p), ws) + tail| <= MAX_FILE
    ensures var o := Open(p, Some(FileOf(CowFormat(p), ws) + tail));
            && o.Ok? && !o.value.poisoned && o.value.open && o.value.disk == Some(FileOf(CowFormat(p), ws) + tail)
            && Tracks(p, CowFormat(p), o.value, ws, Option.None) && (o.value.scan.tail <==> tail != [])
  {
    CowFormatOk(p);
    assert Log(p, ws) == FileOf(CowFormat(p), ws);
    ScanFindsLog(p, ws, tail);
    FileTail(FileOf(CowFormat(p), ws), tail);
    HeaderInFile(CowFormat(p), ws);
  }

  lemma FileTail<T>(a: seq<T>, b: seq<T>)
    ensures a <= a + b && (a + b)[|a|..] == b
  {
  }

  lemma HeaderInFile(fmt: Format, ws: seq<BlockWrite>)
    ensures |FileOf(fmt, ws)| >= |fmt.header|
  {
    LogPrefix(fmt.header, fmt.enc, [], ws);
    assert [] + ws == ws;
    assert LogOf(fmt.header, fmt.enc, []) == fmt.header;
  }

  /** File contents at some moment of writing block `w` through an overlay that has its file: as
      before, with the torn tail cut off, or with some first part of the new record appended. */
  ghost predicate DuringWrite(p: Params, fmt: Format, o: Overlay, w: BlockWrite, file: seq<Byte>)
    requires o.disk.Some? && o.committedEnd <= |o.disk.value|
  {
    || file == o.disk.value
    || exists n: nat :: n <= |fmt.enc(o.nextSequence, w)|
                        && file == o.disk.value[..o.committedEnd] + fmt.enc(o.nextSequence, w)[..n]
  }

  /** Crash atomicity: whatever moment of a write a crash hits, the file reopens to exactly the old
      or exactly the new logical image. */
  lemma CrashIsAtomic(p: Params, o: Overlay, ws: seq<BlockWrite>, q: Option<BlockWrite>, w: BlockWrite, file: seq<Byte>)
    requires Tracks(p, CowFormat(p), o, ws, q) && o.open && !o.poisoned && ValidWrite(p, w)
    requires |FileOf(CowFormat(p), ws)| + RecordSize(p) <= MAX_FILE
    requires DuringWrite(p, CowFormat(p), o, w, file)
    ensures var r := Open(p, Some(file));
            && r.Ok?
            && (Tracks(p, CowFormat(p), r.value, ws, Option.None)
                || Tracks(p, CowFormat(p), r.value, ws + [w], Option.None))
  {
    var fmt := CowFormat(p);
    var torn := CrashFile(p, fmt, o, ws, q, w, file);
    match torn {
      case Some(n) => ReopenTorn(p, fmt, ws, w, n);
      case None => ReopenLog(p, ws, file[|FileOf(fmt, ws)|..]);
    }
  }

  /** The file a crash leaves: the committed log with the tail it had, or with `n` bytes of the new
      record. */
  lemma CrashFile(p: Params, fmt: Format, o: Overlay, ws: seq<BlockWrite>, q: Option<BlockWrite>, w: BlockWrite, file: seq<Byte>)
    returns (n: Option<nat>)
    requires Tracks(p, fmt, o, ws, q) && o.open && !o.poisoned && ValidWrite(p, w)
    requires DuringWrite(p, fmt, o, w, file)
    ensures n.Some? ==> n.value <= RecordSize(p) && file == FileOf(fmt, ws) + fmt.enc(|ws| + 1, w)[..n.value]
    ensures n.None? ==> FileOf(fmt, ws) <= file && |file| <= MAX_FILE && |file| - |FileOf(fmt, ws)| < RecordSize(p)
                        && file == FileOf(fmt, ws) + file[|FileOf(fmt, ws)|..]
  {
    var log := FileOf(fmt, ws);
    if file == o.disk.value {
      n := Option.None;
      assert file == log + file[|log|..];
    } else {
      var k: nat :| k <= |fmt.enc(o.nextSequence, w)|
                    && file == o.disk.value[..o.committedEnd] + fmt.enc(o.nextSequence, w)[..k];
      assert o.disk.value[..o.committedEnd] == log;
      n := Option.Some(k);
    }
  }

  /** After any recovery, a write whose I/O succeeds discards the torn tail and continues the
      sequence: the file is exactly the log with one more record. */
  lemma RecoveryContinues(p: Params, o: Overlay, ws: seq<BlockWrite>, q: Option<BlockWrite>, w: BlockWrite)
    requires Tracks(p, CowFormat(p), o, ws, q) && !o.poisoned && ValidWrite(p, w)
    requires |FileOf(CowFormat(p), ws)| + RecordSize(p) <= MAX_FILE
    ensures var (o', r) := Write(p, CowFormat(p), o, w.index, w.data, WriteFaults(Created, true, Option.None, RolledBack));
            r.Ok? && o'.disk == Some(FileOf(CowFormat(p), ws + [w]))
  {
    CleanWrite(p, CowFormat(p), o, ws, q, w);
  }

  lemma CleanWrite(p: Params, fmt: Format, o: Overlay, ws: seq<BlockWrite>, q: Option<BlockWrite>, w: BlockWrite)
    requires Tracks(p, fmt, o, ws, q) && !o.poisoned && ValidWrite(p, w)
    requires |FileOf(fmt, ws)| + RecordSize(p) <= MAX_FILE
    ensures var (o', r) := Write(p, fmt, o, w.index, w.data, WriteFaults(Created, true, Option.None, RolledBack));
            r.Ok? && o'.disk == Some(FileOf(fmt, ws + [w]))
  {
    var f := WriteFaults(Created, true, Option.None, RolledBack);
    WriteTracks(p, fmt, o, ws, q, w.index, w.data, f);
    WorkingWriteSucceeds(p, fmt, o, ws, q, w);
    var o' := Write(p, fmt, o, w.index, w.data, f).0;
    assert BlockWrite(w.index, w.data) == w;
    WholeLog(p, fmt, o', ws + [w], Some(w));
  }

  /** With no torn tail behind it, the file is exactly the log. */
  lemma WholeLog(p: Params, fmt: Format, o: Overlay, ws: seq<BlockWrite>, q: Option<BlockWrite>)
    requires Tracks(p, fmt, o, ws, q) && o.open && !o.poisoned && !o.scan.tail
    ensures o.disk == Some(FileOf(fmt, ws))
  {
    var log := FileOf(fmt, ws);
    assert o.disk.value[|log|..] == [];
    assert o.disk.value == log;
  }

  lemma WorkingWriteSucceeds(p: Params, fmt: Format, o: Overlay, ws: seq<BlockWrite>, q: Option<BlockWrite>, w: BlockWrite)
    requires Tracks(p, fmt, o, ws, q) && !o.poisoned && ValidWrite(p, w)
    requires |FileOf(fmt, ws)| + RecordSize(p) <= MAX_FILE
    ensures Write(p, fmt, o, w.index, w.data, WriteFaults(Created, true, Option.None, RolledBack)).1.Ok?
  {
  }

  // ---- reading ----

  /** What a reader gets for the byte at `pos`, through the index. */
  function PhysicalByte(p: Params, o: Overlay, pos: nat): Byte
    requires ValidParams(p) && pos < |p.base|
    requires pos / p.blockSize in o.scan.latest ==>
               o.disk.Some? && o.scan.latest[pos / p.blockSize] + pos % p.blockSize < |o.disk.value|
  {
    var b := pos / p.blockSize;
    if b in o.scan.latest then o.disk.value[o.scan.latest[b] + pos % p.blockSize] else p.base[pos]
  }

  /** The latest data of a block is in the file, where the index says. */
  lemma LatestInFile(p: Params, fmt: Format, o: Overlay, ws: seq<BlockWrite>, q: Option<BlockWrite>, b: nat)
    requires Tracks(p, fmt, o, ws, q)
    ensures b in o.scan.latest <==> b in Latest(ws)
    ensures b in o.scan.latest ==>
              && o.open && o.disk.Some? && |Latest(ws)[b]| == p.blockSize
              && o.scan.latest[b] + p.blockSize <= |o.disk.value|
              && forall i :: 0 <= i < p.blockSize ==> o.disk.value[o.scan.latest[b] + i] == Latest(ws)[b][i]
  {
    hide Leftover;
    IndexPointsAtLatest(fmt.enc, RecordSize(p), Writable(p), fmt.header, ws, b);
    if b in o.scan.latest {
      var log := FileOf(fmt, ws);
      forall i | 0 <= i < p.blockSize ensures o.disk.value[o.scan.latest[b] + i] == Latest(ws)[b][i] {
        IndexedByte(log, o.disk.value, o.scan.latest[b], Latest(ws)[b], i);
      }
    }
  }

  /** Every byte read is the byte of the logical image. */
  lemma ReadsAreImage(p: Params, fmt: Format, o: Overlay, ws: seq<BlockWrite>, q: Option<BlockWrite>, pos: nat)
    requires Tracks(p, fmt, o, ws, q) && pos < |p.base|
    ensures var b := pos / p.blockSize;
            b in o.scan.latest ==> o.open && o.disk.Some? && o.scan.latest[b] + p.blockSize <= |o.disk.value|
    ensures PhysicalByte(p, o, pos) == Image(p, ws)[pos]
  {
    hide Tracks;
    TracksValid(p, fmt, o, ws, q);
    LatestInFile(p, fmt, o, ws, q, pos / p.blockSize);
  }

  lemma TracksValid(p: Params, fmt: Format, o: Overlay, ws: seq<BlockWrite>, q: Option<BlockWrite>)
    requires Tracks(p, fmt, o, ws, q)
    ensures ValidParams(p)
  {
  }

  lemma IndexedByte<T>(log: seq<T>, disk: seq<T>, at: nat, data: seq<T>, i: nat)
    requires log <= disk && at + |data| <= |log| && log[at..][..|data|] == data && i < |data|
    ensures disk[at + i] == data[i]
  {
    assert log[at..][..|data|][i] == log[at + i];
  }

  // ---- runs ----

  datatype Op = WriteOp(index: nat, data: seq<Byte>, faults: WriteFaults) | ReopenOp

  /** A session whose file could not be reopened holds no overlay. */
  datatype Session = Live(o: Overlay) | Rejected

  function StepSession(p: Params, s: Session, op: Op): (t: Session)
    requires ValidParams(p) && (s.Live? ==> Sane(s.o))
    ensures t.Live? ==> Sane(t.o)
  {
    if s.Rejected? then s
    else
      match op
      case WriteOp(index, data, faults) => Live(Write(p, CowFormat(p), s.o, index, data, faults).0)
      case ReopenOp => match Open(p, s.o.disk) case Ok(o) => Live(o) case Err(_) => Rejected
  }

  /** The reference: a list of committed writes, and the failed write, if any, whose rollback also
      failed. */
  datatype Abstract = Abstract(writes: seq<BlockWrite>, pending: Option<BlockWrite>)

  /** What an operation may do to the reference, given the overlay's answer. */
  ghost predicate AbstractStep(p: Params, s: Session, op: Op, a: Abstract, b: Abstract)
    requires ValidParams(p) && (s.Live? ==> Sane(s.o))
  {
    if s.Rejected? then b == a
    else
      match op
      case WriteOp(index, data, faults) =>
        var w := BlockWrite(index, data);
        if Write(p, CowFormat(p), s.o, index, data, faults).1.Ok? then ValidWrite(p, w) && b.writes == a.writes + [w]
        else b.writes == a.writes && b.pending == if s.o.poisoned then a.pending else Some(w)
      case ReopenOp =>
        && (s.o.open || s.o.disk.None? ==> Open(p, s.o.disk).Ok?)
        && (b.writes == a.writes || (s.o.poisoned && a.pending.Some? && b.writes == a.writes + [a.pending.value]))
  }

  ghost predicate Holds(p: Params, s: Session, a: Abstract) {
    s.Live? ==> Tracks(p, CowFormat(p), s.o, a.writes, a.pending)
  }

  /** One operation of a session is one step of the reference. */
  lemma SessionStep(p: Params, s: Session, op: Op, a: Abstract) returns (b: Abstract)
    requires ValidParams(p) && Holds(p, s, a)
    ensures Holds(p, StepSession(p, s, op), b) && AbstractStep(p, s, op, a, b)
  {
    b := a;
    if s.Live? {
      match op {
        case WriteOp(index, data, faults) =>
          WriteTracks(p, CowFormat(p), s.o, a.writes, a.pending, index, data, faults);
          var w := BlockWrite(index, data);
          var r := Write(p, CowFormat(p), s.o, index, data, faults).1;
          b := Abstract(if r.Ok? then a.writes + [w] else a.writes, if s.o.poisoned then a.pending else Some(w));
        case ReopenOp =>
          b := ReopenStep(p, s.o, a);
      }
    }
  }

  lemma ReopenStep(p: Params, o: Overlay, a: Abstract) returns (b: Abstract)
    requires Tracks(p, CowFormat(p), o, a.writes, a.pending)
    ensures Open(p, o.disk).Ok? ==> Tracks(p, CowFormat(p), Open(p, o.disk).value, b.writes, b.pending)
    ensures b.writes == a.writes || (o.poisoned && a.pending.Some? && b.writes == a.writes + [a.pending.value])
    ensures o.open ==> Open(p, o.disk).Ok?
  {
    b := Abstract(a.writes, Option.None);
    if o.open {
      var tail := OpenTail(p, CowFormat(p), o, a);
      if |tail| < RecordSize(p) {
        ReopenLog(p, a.writes, tail);
      } else {
        b := Abstract(a.writes + [a.pending.value], Option.None);
        ReopenTorn(p, CowFormat(p), a.writes, a.pending.value, RecordSize(p));
      }
    } else if Open(p, o.disk).Ok? {
      var ws := OpenTracks(p, o.disk);
      if o.disk.Some? {
        NothingWritten(p, CowFormat(p), Open(p, o.disk).value, ws);
      }
    }
  }

  lemma OpenTail(p: Params, fmt: Format, o: Overlay, a: Abstract) returns (tail: seq<Byte>)
    requires Tracks(p, fmt, o, a.writes, a.pending) && o.open
    ensures o.disk.Some? && o.disk.value == FileOf(fmt, a.writes) + tail && |o.disk.value| <= MAX_FILE
    ensures |tail| < RecordSize(p) || (o.poisoned && a.pending.Some? && ValidWrite(p, a.pending.value)
                                       && |fmt.enc(|a.writes| + 1, a.pending.value)| == RecordSize(p)
                                       && tail == fmt.enc(|a.writes| + 1, a.pending.value)[..RecordSize(p)])
  {
    var log := FileOf(fmt, a.writes);
    tail := o.disk.value[|log|..];
    assert o.disk.value == log + tail;
    assert tail[..|tail|] == tail;
  }

  /** A file no longer than a header holds no record. */
  lemma NothingWritten(p: Params, fmt: Format, o: Overlay, ws: seq<BlockWrite>)
    requires Tracks(p, fmt, o, ws, Option.None) && o.open && |o.disk.value| <= HEADER_SIZE
    ensures ws == []
  {
    LogLength(fmt.header, fmt.enc, RecordSize(p), Writable(p), ws);
    CountBounded(|ws|, RecordSize(p));
  }

  /** The session after the operations `ops`. */
  function RunSession(p: Params, s: Session, ops: seq<Op>): (t: Session)
    requires ValidParams(p) && (s.Live? ==> Sane(s.o))
    ensures t.Live? ==> Sane(t.o)
    decreases |ops|
  {
    if ops == [] then s else StepSession(p, RunSession(p, s, ops[..|ops| - 1]), ops[|ops| - 1])
  }

  /** Over every sequence of writes and reopenings, with I/O failing anywhere: there is a run of the
      reference that takes one step for each operation, a write that reports success commits exactly
      its block, one that reports failure commits nothing, and only reopening after a failed rollback
      may still add that one write. Every byte the final overlay reads is the reference's. */
  lemma {:induction false} SessionsFollowReference(p: Params, s: Session, ops: seq<Op>, a: Abstract) returns (trace: seq<Abstract>)
    requires ValidParams(p) && Holds(p, s, a) && (s.Live? ==> Sane(s.o))
    ensures |trace| == |ops| + 1 && trace[0] == a
    ensures forall i :: 0 <= i < |ops| ==> AbstractStep(p, RunSession(p, s, ops[..i]), ops[i], trace[i], trace[i + 1])
    ensures var t := RunSession(p, s, ops);
            Holds(p, t, trace[|ops|])
            && (t.Live? ==> forall pos :: 0 <= pos < |p.base| ==>
                  (pos / p.blockSize in t.o.scan.latest ==>
                     t.o.disk.Some? && t.o.scan.latest[pos / p.blockSize] + p.blockSize <= |t.o.disk.value|)
                  && PhysicalByte(p, t.o, pos) == Image(p, trace[|ops|].writes)[pos])
    decreases |ops|
  {
    hide AbstractStep, StepSession, PhysicalByte, Image, Tracks;
    if ops == [] {
      trace := [a];
      assert ops[..0] == ops;
    } else {
      var n := |ops| - 1;
      var init := SessionsFollowReference(p, s, ops[..n], a);
      var b := SessionStep(p, RunSession(p, s, ops[..n]), ops[n], init[n]);
      trace := init + [b];
      forall i | 0 <= i < |ops|
        ensures AbstractStep(p, RunSession(p, s, ops[..i]), ops[i], trace[i], trace[i + 1])
      {
        if i < n {
          assert ops[..n][..i] == ops[..i] && ops[..n][i] == ops[i];
        }
      }
    }
    var t := RunSession(p, s, ops);
    if t.Live? {
      forall pos | 0 <= pos < |p.base|
        ensures pos / p.blockSize in t.o.scan.latest ==>
                  t.o.disk.Some? && t.o.scan.latest[pos / p.blockSize] + p.blockSize <= |t.o.disk.value|
        ensures PhysicalByte(p, t.o, pos) == Image(p, trace[|ops|].writes)[pos]
      {
        ReadsAreImage(p, CowFormat(p), t.o, trace[|ops|].writes, trace[|ops|].pending, pos);
      }
    }
  }
}
