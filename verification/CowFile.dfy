/**
 The overlay as the object the emulator holds: opening, block writes and byte reads in place, each
 against the state machine of `CowState`.
 */
module CowFile {
  import opened Bytes
  import opened Numbers
  import opened Wrappers
  import opened CowLog
  import opened CowScan
  import opened CowState
  import CowScanner
  import CowTheorems

  class CowOverlay {
    const p: Params
    /** The file at the overlay's path; `hasFile` says whether the overlay holds it open. */
    var disk: Option<seq<Byte>>
    var hasFile: bool
    var scan: Scan
    var nextSequence: nat
    var committedEnd: nat
    var poisoned: bool

    ghost function Value(): Overlay
      reads this
    {
      Overlay(disk, hasFile, scan, nextSequence, committedEnd, poisoned)
    }

    ghost predicate Valid()
      reads this
    {
      ValidParams(p) && Sane(Value())
    }

    constructor (p: Params, disk: Option<seq<Byte>>, hasFile: bool, scan: Scan)
      requires ValidParams(p) && (if hasFile then disk.Some? && scan.validEnd <= |disk.value| else scan.validEnd == HEADER_SIZE)
      ensures Valid() && this.p == p
      ensures Value() == Overlay(disk, hasFile, scan, scan.records + 1, scan.validEnd, false)
    {
      this.p := p;
      this.disk := disk;
      this.hasFile := hasFile;
      this.scan := scan;
      nextSequence := scan.records + 1;
      committedEnd := scan.validEnd;
      poisoned := false;
    }

    /** `open`: the overlay of a file, or of no file yet. */
    static method OpenPath(p: Params, disk: Option<seq<Byte>>) returns (overlay: CowOverlay?, error: Option<CowError>)
      ensures Open(p, disk).Ok? <==> overlay != null
      ensures overlay != null ==>
                fresh(overlay) && overlay.Valid() && overlay.p == p && Open(p, disk) == Ok(overlay.Value())
      ensures Open(p, disk).Err? ==> error == Some(Open(p, disk).error)
    {
      overlay, error := null, Option.None;
      if p.device > 3 {
        error := Some(Invalid("unsupported COW device type"));
        return;
      }
      if p.base == [] {
        error := Some(Invalid("base image must be non-empty"));
        return;
      }
      if !(1 <= p.blockSize <= 4096) {
        error := Some(Invalid("block size must be in 1..=4096"));
        return;
      }
      if |p.base| > MAX_FILE {
        error := Some(Io);
        return;
      }
      if disk.None? {
        overlay := new CowOverlay(p, disk, false, EmptyScan());
        return;
      }
      if disk.value == [] {
        error := Some(Invalid("empty COW file"));
        return;
      }
      var scanned := CowScanner.ScanCowFromFile(p, disk.value);
      if scanned.Err? {
        error := Some(scanned.error);
        return;
      }
      overlay := new CowOverlay(p, disk, true, scanned.value);
    }

    method EnsureFile(f: CreateFault) returns (ok: bool)
      requires Valid()
      modifies this
      ensures Valid() && (Value(), ok) == CreateFile(MakeHeader(p), old(Value()), f)
      ensures ok ==> hasFile
    {
      if hasFile {
        return true;
      }
      if disk.Some? || f.NotCreated? {
        return false;
      }
      var header := MakeHeader(p);
      if f.HeaderFailed? {
        if !f.removed {
          disk := Some(header[..Min(f.written, |header|)]);
          poisoned := true;
        }
        return false;
      }
      disk := Some(header);
      hasFile := true;
      return true;
    }

    method DiscardTail(truncated: bool) returns (ok: bool)
      requires Valid() && hasFile
      modifies this
      ensures Valid() && hasFile && (Value(), ok) == CutTail(old(Value()), truncated)
    {
      if scan.tail {
        if !truncated {
          poisoned := true;
          return false;
        }
        disk := Some(disk.value[..committedEnd]);
        scan := scan.(tail := false);
      }
      return true;
    }

    method AppendRecord(index: nat, record: seq<Byte>, f: WriteFaults) returns (ok: bool)
      requires Valid() && hasFile
      modifies this
      ensures Valid() && (Value(), ok) == Append(old(Value()), index, record, f)
    {
      var start, file := committedEnd, disk.value;
      if f.append.Some? || start + |record| > MAX_FILE {
        var room := if start <= MAX_FILE then MAX_FILE - start else 0;
        var n := Min(Min(if f.append.Some? then f.append.value else room, |record|), room);
        disk := Some(WriteAt(file, start, record[..n]));
        if !f.rollback.NotTruncated? {
          disk := Some(disk.value[..start]);
        }
        if !f.rollback.RolledBack? {
          poisoned := true;
        }
        return false;
      }
      disk := Some(WriteAt(file, start, record));
      scan := scan.(latest := scan.latest[index := start + RECORD_HEADER_SIZE]);
      scan := scan.(records := scan.records + 1);
      nextSequence := nextSequence + 1;
      committedEnd := start + |record|;
      scan := scan.(validEnd := committedEnd);
      scan := scan.(tail := false);
      return true;
    }

    /** `write_block`. */
    method WriteBlock(index: nat, data: seq<Byte>, f: WriteFaults) returns (r: CowResult<()>)
      requires Valid()
      modifies this
      ensures Valid() && (Value(), r) == Write(p, CowFormat(p), old(Value()), index, data, f)
    {
      if poisoned {
        return Err(WritePoisoned);
      }
      if |data| != p.blockSize {
        return Err(Invalid("write must contain exactly one full block"));
      }
      if index >= BlockCount(p) {
        return Err(Invalid("COW block index out of range"));
      }
      var ok := EnsureFile(f.create);
      if !ok {
        return Err(Io);
      }
      ok := DiscardTail(f.truncated);
      if !ok {
        return Err(Io);
      }
      ok := AppendRecord(index, Record(p, nextSequence, BlockWrite(index, data)), f);
      r := if ok then Ok(()) else Err(Io);
    }

    /** The part of a read that lies in the block of `position`, at most `want` bytes. */
    method ReadChunk(position: nat, want: nat) returns (bytes: seq<Byte>)
      requires Valid() && Readable(p, Value()) && 0 < want && position + want <= |p.base|
      ensures 0 < |bytes| <= want && bytes == ReadBytes(p, Value(), position, |bytes|)
    {
      var block, within := Locate(position, p.blockSize);
      var count := Min(want, p.blockSize - within);
      if block in scan.latest {
        var from := scan.latest[block] + within;
        bytes := disk.value[from..][..count];
      } else {
        bytes := p.base[position..][..count];
      }
      ChunkIsBytes(p, Value(), position, block, within, bytes);
    }

    /** `read_at`: chunk by chunk, from the file or the base. `chunks` reads succeed before one
        fails, if it is given. */
    method ReadAt(offset: nat, output: array<Byte>, chunks: Option<nat>) returns (r: CowResult<()>)
      requires Valid() && Readable(p, Value())
      modifies output
      ensures offset + output.Length > |p.base| ==> r.Err? && output[..] == old(output[..])
      ensures offset + output.Length <= |p.base| && chunks.None? ==> r.Ok?
      ensures r.Ok? ==> offset + output.Length <= |p.base| && output[..] == ReadBytes(p, Value(), offset, output.Length)
      ensures offset + output.Length <= |p.base| && r.Err? ==>
                exists n :: 0 <= n < output.Length && output[..n] == ReadBytes(p, Value(), offset, output.Length)[..n]
                            && output[n..] == old(output[n..])
    {
      if offset + output.Length > |p.base| {
        return Err(Invalid("read range exceeds logical image"));
      }
      ghost var image := ReadBytes(p, Value(), offset, output.Length);
      var done, fetched := 0, 0;
      while done < output.Length
        invariant 0 <= done <= output.Length
        invariant output[..done] == image[..done] && output[done..] == old(output[done..])
        decreases output.Length - done
      {
        if chunks == Some(fetched) {
          return Err(Io);
        }
        var bytes := ReadChunk(offset + done, output.Length - done);
        BytesSplit(p, Value(), offset, done, |bytes|, output.Length);
        CopyInto(output, done, bytes);
        done := done + |bytes|;
        fetched := fetched + 1;
      }
      assert output[..output.Length] == output[..] && image[..output.Length] == image;
      return Ok(());
    }
  }

  /** The block of a position, and how far into it the position is. */
  method Locate(position: nat, size: nat) returns (block: nat, within: nat)
    requires size > 0
    ensures block == position / size && within == position % size < size
  {
    return position / size, position % size;
  }

  method CopyInto(output: array<Byte>, at: nat, bytes: seq<Byte>)
    requires at + |bytes| <= output.Length
    modifies output
    ensures output[..at + |bytes|] == old(output[..at]) + bytes
    ensures output[at + |bytes|..] == old(output[at + |bytes|..])
  {
    forall k | 0 <= k < |bytes| {
      output[at + k] := bytes[k];
    }
  }

  /** The index points at whole blocks inside the file. */
  ghost predicate Readable(p: Params, o: Overlay) {
    ValidParams(p) && forall b :: b in o.scan.latest ==> o.disk.Some? && o.scan.latest[b] + p.blockSize <= |o.disk.value|
  }

  ghost function ReadByte(p: Params, o: Overlay, position: nat): Byte
    requires Readable(p, o) && position < |p.base|
  {
    CowTheorems.PhysicalByte(p, o, position)
  }

  /** The `n` bytes a reader gets at `offset`. */
  ghost function ReadBytes(p: Params, o: Overlay, offset: nat, n: nat): (bytes: seq<Byte>)
    requires Readable(p, o) && offset + n <= |p.base|
    ensures |bytes| == n
  {
    seq<Byte>(n, (k: nat) requires k < n => ReadByte(p, o, offset + k))
  }

  /** Whatever writes the overlay stands for, reads are slices of their image. */
  lemma BytesAreImage(p: Params, fmt: Format, o: Overlay, ws: seq<BlockWrite>, q: Option<BlockWrite>, offset: nat, n: nat)
    requires Tracks(p, fmt, o, ws, q) && offset + n <= |p.base|
    ensures Readable(p, o) && ReadBytes(p, o, offset, n) == Image(p, ws)[offset..offset + n]
  {
    forall b | b in o.scan.latest ensures o.disk.Some? && o.scan.latest[b] + p.blockSize <= |o.disk.value| {
      IndexPointsAtLatest(fmt.enc, RecordSize(p), Writable(p), fmt.header, ws, b);
    }
    forall k | 0 <= k < n ensures ReadBytes(p, o, offset, n)[k] == Image(p, ws)[offset + k] {
      CowTheorems.ReadsAreImage(p, fmt, o, ws, q, offset + k);
      assert ReadBytes(p, o, offset, n)[k] == ReadByte(p, o, offset + k);
    }
  }

  lemma BytesSplit(p: Params, o: Overlay, offset: nat, done: nat, count: nat, n: nat)
    requires Readable(p, o) && offset + n <= |p.base| && done + count <= n
    ensures ReadBytes(p, o, offset, n)[..done + count] == ReadBytes(p, o, offset, n)[..done] + ReadBytes(p, o, offset + done, count)
  {
    forall k | done <= k < done + count
      ensures ReadBytes(p, o, offset, n)[k] == ReadBytes(p, o, offset + done, count)[k - done]
    {
      assert offset + done + (k - done) == offset + k;
    }
  }

  lemma ChunkIsBytes(p: Params, o: Overlay, position: nat, block: nat, within: nat, bytes: seq<Byte>)
    requires Readable(p, o) && position + |bytes| <= |p.base| && block == position / p.blockSize
    requires within == position % p.blockSize && within + |bytes| <= p.blockSize
    requires bytes == if block in o.scan.latest then o.disk.value[o.scan.latest[block] + within..][..|bytes|]
                      else p.base[position..][..|bytes|]
    ensures bytes == ReadBytes(p, o, position, |bytes|)
  {
    forall k | 0 <= k < |bytes| ensures bytes[k] == ReadBytes(p, o, position, |bytes|)[k] {
      ShortStep(position, p.blockSize, k);
      assert ReadBytes(p, o, position, |bytes|)[k] == ReadByte(p, o, position + k);
      if block in o.scan.latest {
        assert bytes[k] == o.disk.value[o.scan.latest[block] + within..][k];
      } else {
        assert bytes[k] == p.base[position..][k];
      }
    }
  }
}
