/**
 The copy-on-write overlay as a state machine: opening, writing a block with I/O that may fail
 after any prefix, and what a reader sees.
 */
module CowState {
  import opened Bytes
  import opened Wrappers
  import opened CowLog
  import opened CowScan


  /** How creating the overlay file goes: not at all, or the header write fails after some bytes
      and the file is then removed or not. */
  datatype CreateFault = Created | NotCreated | HeaderFailed(written: nat, removed: bool)
  datatype Rollback = RolledBack | NotTruncated | NotSynced

  /** Outcome of every I/O call one write may make. `append` is the number of record bytes that had
      reached the file when the append (or its final sync) failed. */
  datatype WriteFaults = WriteFaults(create: CreateFault, truncated: bool, append: Option<nat>, rollback: Rollback)

  /** The overlay and the file at its path. `open` says whether it holds the file. */
  datatype Overlay = Overlay(
    disk: Option<seq<Byte>>, open: bool, scan: Scan, nextSequence: nat, committedEnd: nat, poisoned: bool)

  /** What the overlay needs to know of its file format. */
  datatype Format = Format(header: seq<Byte>, enc: Encoder)

  function CowFormat(p: Params): Format {
    Format(MakeHeader(p), RecordEncoder(p))
  }

  ghost predicate FormatOk(p: Params, fmt: Format) {
    && ValidParams(p) && |fmt.header| == HEADER_SIZE
    && (forall k: nat, w :: ValidWrite(p, w) ==>
          |fmt.enc(k, w)| == RecordSize(p) && fmt.enc(k, w)[RECORD_HEADER_SIZE..] == w.data)
  }

  function FileOf(fmt: Format, ws: seq<BlockWrite>): seq<Byte> {
    LogOf(fmt.header, fmt.enc, ws)
  }

  /** An open overlay's committed data is inside its file. */
  predicate Sane(o: Overlay) {
    if o.open then o.disk.Some? && o.committedEnd <= |o.disk.value| else o.committedEnd == HEADER_SIZE
  }

  function EmptyScan(): Scan {
    Scan(0, false, map[], HEADER_SIZE)
  }

  function Open(p: Params, disk: Option<seq<Byte>>): (r: CowResult<Overlay>)
    ensures r.Ok? ==> Sane(r.value)
  {
    if p.device > 3 then Err(Invalid("unsupported COW device type"))
    else if p.base == [] then Err(Invalid("base image must be non-empty"))
    else if !(1 <= p.blockSize <= 4096) then Err(Invalid("block size must be in 1..=4096"))
    else if |p.base| > MAX_FILE then Err(Io)
    else
      match disk
      case None => Ok(Overlay(None, false, EmptyScan(), 1, HEADER_SIZE, false))
      case Some(file) =>
        if file == [] then Err(Invalid("empty COW file"))
        else match ScanFile(p, file)
          case Err(e) => Err(e)
          case Ok(scan) => Ok(Overlay(disk, true, scan, scan.records + 1, scan.validEnd, false))
  }

  function Min(a: nat, b: nat): nat {
    if a < b then a else b
  }

  /** Bytes written at an offset inside or at the end of a file. */
  function WriteAt(file: seq<Byte>, at: nat, bytes: seq<Byte>): seq<Byte>
    requires at <= |file|
  {
    file[..at] + bytes + file[Min(at + |bytes|, |file|)..]
  }

  /** Creating the file with its header, if the overlay has none yet. */
  function CreateFile(header: seq<Byte>, o: Overlay, f: CreateFault): (Overlay, bool) {
    if o.open then (o, true)
    else if o.disk.Some? || f.NotCreated? then (o, false)
    else if f.HeaderFailed? then
      if f.removed then (o, false)
      else (o.(disk := Some(header[..Min(f.written, |header|)]), poisoned := true), false)
    else (o.(disk := Some(header), open := true), true)
  }

  /** Cutting a torn tail off before the first append after recovery. */
  function CutTail(o: Overlay, truncated: bool): (Overlay, bool)
    requires o.disk.Some? && o.committedEnd <= |o.disk.value|
  {
    if !o.scan.tail then (o, true)
    else if !truncated then (o.(poisoned := true), false)
    else (o.(disk := Some(o.disk.value[..o.committedEnd]), scan := o.scan.(tail := false)), true)
  }

  /** The append and, if it fails, the rollback. */
  function Append(o: Overlay, index: nat, record: seq<Byte>, f: WriteFaults): (Overlay, bool)
    requires o.disk.Some? && o.committedEnd <= |o.disk.value|
  {
    var start, disk := o.committedEnd, o.disk.value;
    if f.append.None? && start + |record| <= MAX_FILE then
      var end := start + |record|;
      (o.(disk := Some(WriteAt(disk, start, record)), nextSequence := o.nextSequence + 1, committedEnd := end,
          scan := Scan(o.scan.records + 1, false, o.scan.latest[index := start + RECORD_HEADER_SIZE], end)), true)
    else
      var room := if start <= MAX_FILE then MAX_FILE - start else 0;
      var n := Min(Min(if f.append.Some? then f.append.value else room, |record|), room);
      var torn := WriteAt(disk, start, record[..n]);
      match f.rollback
      case RolledBack => (o.(disk := Some(torn[..start])), false)
      case NotSynced => (o.(disk := Some(torn[..start]), poisoned := true), false)
      case NotTruncated => (o.(disk := Some(torn), poisoned := true), false)
  }

  /** `write_block`. */
  function Write(p: Params, fmt: Format, o: Overlay, index: nat, data: seq<Byte>, f: WriteFaults)
    : (r: (Overlay, CowResult<()>))
    requires ValidParams(p) && |fmt.header| == HEADER_SIZE && Sane(o)
    ensures Sane(r.0)
  {
    if o.poisoned then (o, Err(WritePoisoned))
    else if |data| != p.blockSize then (o, Err(Invalid("write must contain exactly one full block")))
    else if index >= BlockCount(p) then (o, Err(Invalid("COW block index out of range")))
    else
      var (o1, created) := CreateFile(fmt.header, o, f.create);
      if !created then (o1, Err(Io))
      else
        var (o2, cut) := CutTail(o1, f.truncated);
        if !cut then (o2, Err(Io))
        else
          var (o3, done) := Append(o2, index, fmt.enc(o2.nextSequence, BlockWrite(index, data)), f);
          (o3, if done then Ok(()) else Err(Io))
  }

  // ---- the logical image ----

  /** The image after the writes `ws`: written blocks over the base. */
  function Image(p: Params, ws: seq<BlockWrite>): (image: seq<Byte>)
    requires ValidParams(p)
    ensures |image| == |p.base|
  {
    seq(|p.base|, (i: nat) requires i < |p.base| =>
      var b := i / p.blockSize;
      if b in Latest(ws) && i % p.blockSize < |Latest(ws)[b]| then Latest(ws)[b][i % p.blockSize] else p.base[i])
  }

  /** An accepted write changes exactly the bytes of its block. */
  lemma WriteChangesOneBlock(p: Params, ws: seq<BlockWrite>, w: BlockWrite, i: nat)
    requires ValidParams(p) && ValidWrites(p, ws) && ValidWrite(p, w) && i < |p.base|
    ensures Image(p, ws + [w])[i]
         == if i / p.blockSize == w.index then w.data[i % p.blockSize] else Image(p, ws)[i]
  {
    assert (ws + [w])[..|ws|] == ws;
  }

  // ---- what every operation keeps ----

  /** Bytes behind the committed log that a failed rollback may leave: less than a record, or the
      complete record of the write `pending`, which was reported as failed. */
  predicate Leftover(p: Params, fmt: Format, ws: seq<BlockWrite>, pending: Option<BlockWrite>, tail: seq<Byte>)
    requires ValidParams(p)
  {
    || |tail| < RecordSize(p)
    || (pending.Some? && ValidWrite(p, pending.value) && tail == fmt.enc(|ws| + 1, pending.value))
  }

  /** The overlay stands for exactly the writes `ws`; a poisoned one was poisoned by `pending`. */
  ghost predicate Tracks(p: Params, fmt: Format, o: Overlay, ws: seq<BlockWrite>, pending: Option<BlockWrite>) {
    && FormatOk(p, fmt) && ValidWrites(p, ws)
    && o.scan.latest == IndexOf(RecordSize(p), ws) && o.scan.records == |ws| && o.nextSequence == |ws| + 1
    && o.committedEnd == |FileOf(fmt, ws)| <= MAX_FILE && o.scan.validEnd == o.committedEnd
    && (o.scan.tail ==> o.open)
    && if o.open then
         && o.disk.Some? && FileOf(fmt, ws) <= o.disk.value && |o.disk.value| <= MAX_FILE
         && var tail := o.disk.value[|FileOf(fmt, ws)|..];
            if o.poisoned then Leftover(p, fmt, ws, pending, tail) else |tail| < RecordSize(p) && (o.scan.tail <==> tail != [])
       else ws == [] && (o.disk.Some? ==> o.poisoned && |o.disk.value| <= HEADER_SIZE)
  }

  lemma CowFormatOk(p: Params)
    requires ValidParams(p)
    ensures FormatOk(p, CowFormat(p))
  {
    RecordsAreRecognised(p);
    forall k: nat, w | ValidWrite(p, w)
      ensures |CowFormat(p).enc(k, w)| == RecordSize(p) && CowFormat(p).enc(k, w)[RECORD_HEADER_SIZE..] == w.data
    {
      assert Writable(p)(w);
    }
  }

  lemma OpenTracks(p: Params, disk: Option<seq<Byte>>) returns (ws: seq<BlockWrite>)
    requires Open(p, disk).Ok? && (disk.Some? ==> |disk.value| <= MAX_FILE)
    ensures Tracks(p, CowFormat(p), Open(p, disk).value, ws, None) && !Open(p, disk).value.poisoned
    ensures disk.None? ==> ws == []
  {
    CowFormatOk(p);
    if disk.None? {
      ws := [];
    } else {
      ws := ScannedIsLog(p, disk.value);
      assert Log(p, ws) == FileOf(CowFormat(p), ws);
    }
  }

  // ---- one write ----

  /** One more write in the log. */
  lemma OneMore(p: Params, fmt: Format, ws: seq<BlockWrite>, w: BlockWrite)
    requires FormatOk(p, fmt) && ValidWrites(p, ws) && ValidWrite(p, w)
    ensures FileOf(fmt, ws + [w]) == FileOf(fmt, ws) + fmt.enc(|ws| + 1, w)
    ensures IndexOf(RecordSize(p), ws + [w]) == IndexOf(RecordSize(p), ws)[w.index := |FileOf(fmt, ws)| + RECORD_HEADER_SIZE]
    ensures ValidWrites(p, ws + [w])
  {
    LogSnoc(fmt.header, fmt.enc, ws, w);
    IndexSnoc(RecordSize(p), ws, w);
    LogLength(fmt.header, fmt.enc, RecordSize(p), Writable(p), ws);
  }

  lemma AppendTracks(p: Params, fmt: Format, o: Overlay, ws: seq<BlockWrite>, q: Option<BlockWrite>,
                     w: BlockWrite, f: WriteFaults)
    requires Tracks(p, fmt, o, ws, q) && o.open && !o.poisoned && !o.scan.tail && ValidWrite(p, w)
    ensures var (o', done) := Append(o, w.index, fmt.enc(|ws| + 1, w), f);
            Tracks(p, fmt, o', if done then ws + [w] else ws, Some(w)) && (done ==> o'.open && !o'.poisoned && !o'.scan.tail)
  {
    hide FileOf, IndexOf, ValidWrites;
    var log, record := FileOf(fmt, ws), fmt.enc(|ws| + 1, w);
    assert o.disk.value == log;
    OneMore(p, fmt, ws, w);
    var (o', done) := Append(o, w.index, record, f);
    if done {
      assert o'.disk.value == log + record;
    } else {
      var room := MAX_FILE - |log|;
      var n := Min(Min(if f.append.Some? then f.append.value else room, |record|), room);
      TornFile(log, record, n);
    }
  }

  lemma TornFile(log: seq<Byte>, record: seq<Byte>, n: nat)
    requires n <= |record|
    ensures WriteAt(log, |log|, record[..n]) == log + record[..n]
    ensures (log + record[..n])[..|log|] == log && (log + record[..n])[|log|..] == record[..n]
    ensures log <= log + record[..n] && (n == |record| ==> record[..n] == record)
  {
  }

  /** A write, whatever its I/O does, either commits exactly its block or commits nothing; a
      poisoned overlay never touches its file again. */
  lemma WriteTracks(p: Params, fmt: Format, o: Overlay, ws: seq<BlockWrite>, q: Option<BlockWrite>,
                    index: nat, data: seq<Byte>, f: WriteFaults)
    requires Tracks(p, fmt, o, ws, q)
    ensures var (o', r) := Write(p, fmt, o, index, data, f);
            && Tracks(p, fmt, o', if r.Ok? then ws + [BlockWrite(index, data)] else ws,
                      if o.poisoned then q else Some(BlockWrite(index, data)))
            && (r.Ok? ==> ValidWrite(p, BlockWrite(index, data)) && o'.open && !o'.poisoned && !o'.scan.tail)
            && (o.poisoned ==> o' == o && r == Err(WritePoisoned))
  {
    hide CreateFile, CutTail, Append, FileOf, IndexOf, ValidWrites, Leftover;
    var w := BlockWrite(index, data);
    if !o.poisoned && ValidWrite(p, w) {
      var (o1, created) := CreateFile(fmt.header, o, f.create);
      CreateTracks(p, fmt, o, ws, Some(w), f.create);
      if created {
        var (o2, cut) := CutTail(o1, f.truncated);
        CutTracks(p, fmt, o1, ws, Some(w), f.truncated);
        if cut {
          AppendTracks(p, fmt, o2, ws, Some(w), w, f);
        }
      }
    }
  }

  lemma CreateTracks(p: Params, fmt: Format, o: Overlay, ws: seq<BlockWrite>, q: Option<BlockWrite>, f: CreateFault)
    requires Tracks(p, fmt, o, ws, q) && !o.poisoned
    ensures var (o', created) := CreateFile(fmt.header, o, f);
            Tracks(p, fmt, o', ws, q) && (created ==> o'.open && !o'.poisoned)
  {
  }

  lemma CutTracks(p: Params, fmt: Format, o: Overlay, ws: seq<BlockWrite>, q: Option<BlockWrite>, truncated: bool)
    requires Tracks(p, fmt, o, ws, q) && o.open && !o.poisoned
    ensures var (o', cut) := CutTail(o, truncated);
            Tracks(p, fmt, o', ws, q) && (cut ==> o'.open && !o'.poisoned && !o'.scan.tail)
  {
  }
}
