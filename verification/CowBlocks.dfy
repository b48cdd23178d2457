/**
 The overlay's blocks and its file, in plain numbers: the blocks cover the image, every byte of it can be
 written and read back, and where each field of the file stands.
 */
module CowBlocks {
  import opened Bytes
  import opened Numbers
  import opened Wrappers
  import opened CowLog
  import opened CowScan
  import opened CowState
  import opened CowTheorems

  // ---- blocks ----

  /** A block exists exactly if it begins inside the image, so every byte has a block. */
  lemma BlocksCover(p: Params, b: nat)
    requires ValidParams(p)
    ensures b < BlockCount(p) <==> b * p.blockSize < |p.base|
    ensures b < |p.base| ==> b / p.blockSize < BlockCount(p)
  {
    RoundedUp(|p.base|, p.blockSize, b);
    if b < |p.base| {
      var q, r := Division(b, p.blockSize);
      RoundedUp(|p.base|, p.blockSize, q);
    }
  }

  lemma RoundedUp(n: nat, m: nat, b: nat)
    requires m > 0
    ensures b < (n + m - 1) / m <==> b * m < n
  {
    var q, r := Division(n + m - 1, m);
    if b < q {
      Products(b + 1, q, m);
    } else {
      Products(q, b, m);
    }
  }

  lemma Products(x: nat, y: nat, m: nat)
    requires x <= y
    ensures x * m <= y * m && (x + 1) * m == x * m + m
  {
  }

  /** A new overlay opens on exactly these base images, devices and block sizes. */
  lemma OpensNew(p: Params)
    ensures Open(p, Option.None).Ok? <==>
              p.device in {0, 1, 2, 3} && 0 < |p.base| <= 0x7FFF_FFFF_FFFF_FFFF && 1 <= p.blockSize <= 4096
  {
  }

  /** I/O that succeeds. */
  function Working(): WriteFaults {
    WriteFaults(Created, true, Option.None, RolledBack)
  }

  /** Where a byte is read from is in the file. */
  predicate Readable(p: Params, o: Overlay, pos: nat)
    requires ValidParams(p)
  {
    pos / p.blockSize in o.scan.latest ==>
      o.disk.Some? && o.scan.latest[pos / p.blockSize] + pos % p.blockSize < |o.disk.value|
  }

  /** Main result: on any usable overlay with room for a record, a write whose I/O works succeeds exactly if it
      is one full block that begins inside the image. Then every byte of the image that lies in the block
      reads as written, and all others as before. */
  lemma WrittenIsRead(p: Params, o: Overlay, ws: seq<BlockWrite>, q: Option<BlockWrite>, index: nat, data: seq<Byte>)
    requires Tracks(p, CowFormat(p), o, ws, q) && !o.poisoned && o.committedEnd + 32 + p.blockSize <= MAX_FILE
    ensures ValidParams(p) && Sane(o)
    ensures var (u, r) := Write(p, CowFormat(p), o, index, data, Working());
            && (r.Ok? <==> |data| == p.blockSize && index * p.blockSize < |p.base|)
            && (r.Err? ==> r.error.Invalid? && u == o)
            && (r.Ok? ==> forall i :: 0 <= i < |p.base| ==>
                  && Readable(p, o, i) && Readable(p, u, i)
                  && PhysicalByte(p, u, i) == if index * p.blockSize <= i < index * p.blockSize + p.blockSize
                                              then data[i - index * p.blockSize] else PhysicalByte(p, o, i))
  {
    TracksValid(p, CowFormat(p), o, ws, q);
    BlocksCover(p, index);
    TracksSane(p, CowFormat(p), o, ws, q);
    hide *;
    WriteAnswers(p, CowFormat(p), o, ws, q, index, data);
    var (u, r) := Write(p, CowFormat(p), o, index, data, Working());
    if r.Ok? {
      forall i | 0 <= i < |p.base|
        ensures Readable(p, o, i) && Readable(p, u, i)
        ensures PhysicalByte(p, u, i) == if index * p.blockSize <= i < index * p.blockSize + p.blockSize
                                         then data[i - index * p.blockSize] else PhysicalByte(p, o, i)
      {
        WriteTracks(p, CowFormat(p), o, ws, q, index, data, Working());
        ReadsAs(p, o, ws, q, i);
        ReadsAs(p, u, ws + [BlockWrite(index, data)], Some(BlockWrite(index, data)), i);
        TracksWrites(p, CowFormat(p), o, ws, q);
        WriteChangesOneBlock(p, ws, BlockWrite(index, data), i);
        InBlock(i, p.blockSize, index);
      }
    }
  }

  lemma InBlock(i: nat, m: nat, b: nat)
    requires m > 0
    ensures i / m == b <==> b * m <= i < b * m + m
    ensures i / m == b ==> i % m == i - b * m
  {
    var q, r := Division(i, m);
    if b * m <= i < b * m + m {
      Quotient(i, m, b, i - b * m);
    }
  }

  lemma TracksSane(p: Params, fmt: Format, o: Overlay, ws: seq<BlockWrite>, q: Option<BlockWrite>)
    requires Tracks(p, fmt, o, ws, q)
    ensures Sane(o) && |fmt.header| == HEADER_SIZE
  {
    hide IndexOf, Leftover;
  }

  lemma TracksWrites(p: Params, fmt: Format, o: Overlay, ws: seq<BlockWrite>, q: Option<BlockWrite>)
    requires Tracks(p, fmt, o, ws, q)
    ensures ValidParams(p) && ValidWrites(p, ws)
  {
  }

  lemma ReadsAs(p: Params, o: Overlay, ws: seq<BlockWrite>, q: Option<BlockWrite>, i: nat)
    requires Tracks(p, CowFormat(p), o, ws, q) && i < |p.base|
    ensures ValidParams(p) && Readable(p, o, i) && PhysicalByte(p, o, i) == Image(p, ws)[i]
  {
    hide *;
    TracksValid(p, CowFormat(p), o, ws, q);
    ReadsAreImage(p, CowFormat(p), o, ws, q, i);
    ReadableInBlock(p, o, i);
  }

  lemma ReadableInBlock(p: Params, o: Overlay, i: nat)
    requires ValidParams(p) && i < |p.base|
    requires var b := i / p.blockSize;
             b in o.scan.latest ==> o.disk.Some? && o.scan.latest[b] + p.blockSize <= |o.disk.value|
    ensures Readable(p, o, i)
  {
  }

  lemma WriteAnswers(p: Params, fmt: Format, o: Overlay, ws: seq<BlockWrite>, q: Option<BlockWrite>, index: nat, data: seq<Byte>)
    requires Tracks(p, fmt, o, ws, q) && !o.poisoned && o.committedEnd + 32 + p.blockSize <= MAX_FILE
    requires ValidParams(p) && Sane(o) && |fmt.header| == HEADER_SIZE
    ensures var (u, r) := Write(p, fmt, o, index, data, Working());
            && (r.Ok? <==> |data| == p.blockSize && index < BlockCount(p))
            && (r.Err? ==> r.error.Invalid? && u == o)
  {
    if |data| == p.blockSize && index < BlockCount(p) {
      WorkingWriteSucceeds(p, fmt, o, ws, q, BlockWrite(index, data));
    }
  }

  /** A write into a file replaces the bytes it covers, keeps all others, and may make the file longer. */
  lemma WriteCovers(file: seq<Byte>, at: nat, bytes: seq<Byte>, i: nat)
    requires at <= |file|
    ensures |WriteAt(file, at, bytes)| == if at + |bytes| > |file| then at + |bytes| else |file|
    ensures i < |WriteAt(file, at, bytes)| ==> WriteAt(file, at, bytes)[i] == if at <= i < at + |bytes| then bytes[i - at] else file[i]
  {
  }

  // ---- the bytes of the file ----

  lemma {:induction false} LittleEndian(n: nat, w: nat, k: nat)
    requires k < w
    ensures LE(n, w)[k] == n / Pow256(k) % 256
    decreases w
  {
    if k > 0 {
      LittleEndian(n / 256, w - 1, k - 1);
      Shifted(n, Pow256(k - 1));
    }
  }

  lemma Shifted(n: nat, m: nat)
    requires m > 0
    ensures (n / 256) / m == n / (256 * m)
  {
    var h, r := Division(n, 256);
    var q, s := Division(h, m);
    assert n == q * (256 * m) + (256 * s + r);
    assert 256 * s + r < 256 * m;
    Quotient(n, 256 * m, q, 256 * s + r);
  }

  /** The `w` bytes at offset `at` are `n`, least significant byte first. */
  predicate Field(file: seq<Byte>, at: nat, w: nat, n: nat)
    requires at + w <= |file|
  {
    forall k :: 0 <= k < w ==> file[at + k] == n / Pow256(k) % 256
  }

  lemma FieldAt(file: seq<Byte>, at: nat, w: nat, n: nat)
    requires at + w <= |file| && file[at..at + w] == LE(n, w)
    ensures Field(file, at, w, n)
  {
    forall k | 0 <= k < w ensures file[at + k] == n / Pow256(k) % 256 {
      assert file[at + k] == file[at..at + w][k];
      LittleEndian(n, w, k);
    }
  }

  /** The header: "CPTCOW1" and a zero, version 1, header size 64, device, two zeros, block size, image
      size, the base image's digest, and the checksum of all that. */
  lemma HeaderBytes(p: Params)
    ensures var h := MakeHeader(p);
            && h[..8] == [0x43, 0x50, 0x54, 0x43, 0x4F, 0x57, 0x31, 0x00] && h[14..16] == [0, 0] && h[28..60] == p.h.sha(p.base)
            && Field(h, 8, 2, 1) && Field(h, 10, 2, 64) && Field(h, 12, 2, p.device) && Field(h, 16, 4, p.blockSize)
            && Field(h, 20, 8, |p.base|) && Field(h, 60, 4, p.h.crc(h[..60]))
  {
    hide Field, LE;
    var h := MakeHeader(p);
    SlicesOfHeader(h, HeaderMagic(), LE(1, 2), LE(64, 2), LE(p.device, 2), [0, 0], LE(p.blockSize, 4), LE(|p.base|, 8),
                   p.h.sha(p.base), LE(p.h.crc(HeaderBody(p)), 4));
    assert h[..60] == HeaderBody(p);
    FieldAt(h, 8, 2, 1);
    FieldAt(h, 10, 2, 64);
    FieldAt(h, 12, 2, p.device);
    FieldAt(h, 16, 4, p.blockSize);
    FieldAt(h, 20, 8, |p.base|);
    FieldAt(h, 60, 4, p.h.crc(h[..60]));
  }

  /** A record: "BLK1", block index, sequence number, checksum of the data, checksum of the record header
      with zeros for itself, four zeros, and the data. */
  lemma RecordBytes(p: Params, sequence: nat, w: BlockWrite)
    ensures var r := Record(p, sequence, w);
            && r[..4] == [0x42, 0x4C, 0x4B, 0x31] && r[28..32] == [0, 0, 0, 0] && r[32..] == w.data
            && Field(r, 4, 8, w.index) && Field(r, 12, 8, sequence) && Field(r, 20, 4, p.h.crc(w.data))
            && Field(r, 24, 4, p.h.crc(r[..24] + [0, 0, 0, 0, 0, 0, 0, 0]))
  {
    hide Field, LE;
    var r := Record(p, sequence, w);
    var i, s, d := LE(w.index, 8), LE(sequence, 8), LE(p.h.crc(w.data), 4);
    var fields := RecordFields(w.index, sequence, p.h.crc(w.data));
    var c := LE(p.h.crc(fields + Zeros(8)), 4);
    assert r == RecordMagic() + i + s + d + c + Zeros(4) + w.data;
    SlicesOfParts(r, RecordMagic(), i, s, d, c, Zeros(4), w.data);
    assert Zeros(8) == [0, 0, 0, 0, 0, 0, 0, 0];
    FieldAt(r, 4, 8, w.index);
    FieldAt(r, 12, 8, sequence);
    FieldAt(r, 20, 4, p.h.crc(w.data));
    FieldAt(r, 24, 4, p.h.crc(r[..24] + [0, 0, 0, 0, 0, 0, 0, 0]));
  }

  /** The file behind the header: record `k`, counting from 0, stands at offset 64 + k * (32 + block size)
      and has sequence number k + 1. */
  lemma RecordPlace(p: Params, ws: seq<BlockWrite>, k: nat, at: nat, size: nat)
    requires ValidParams(p) && ValidWrites(p, ws) && k < |ws| && size == 32 + p.blockSize && at == 64 + k * size
    ensures |Log(p, ws)| == 64 + |ws| * size && MakeHeader(p) <= Log(p, ws)
    ensures at + size <= |Log(p, ws)| && Log(p, ws)[at..at + size] == Record(p, k + 1, ws[k])
  {
    hide MakeHeader, Record, LogOf;
    var done, rest := ws[..k + 1], ws[k + 1..];
    var header, enc := MakeHeader(p), RecordEncoder(p);
    assert done + rest == ws && ws[..k] + [ws[k]] == done;
    LogLength(header, enc, size, Writable(p), ws);
    LogLength(header, enc, size, Writable(p), ws[..k]);
    PrefixOfLog(header, enc, ws, []);
    assert Log(p, ws) + [] == Log(p, ws);
    LogSnoc(header, enc, ws[..k], ws[k]);
    LogPrefix(header, enc, done, rest);
    SliceOfPrefix(Log(p, ws), LogOf(header, enc, ws[..k]), enc(k + 1, ws[k]));
  }
}
