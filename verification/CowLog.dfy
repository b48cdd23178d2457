/**
 On-disk format of a copy-on-write overlay: a 64-byte header and an append-only log of block
 records, with an index of the latest record of each block. CRC32C and SHA-256 are parameters.
 */
module CowLog {
  import opened Bytes
  import opened Wrappers

  type Digest = s: seq<Byte> | |s| == 32 witness seq(32, i => 0)
  type U64 = n: nat | n < 0x1_0000_0000_0000_0000

  /** Files are at most this long: offsets are signed 64-bit numbers to the operating system. */
  const MAX_FILE: nat := 0x7FFF_FFFF_FFFF_FFFF
  const HEADER_SIZE: nat := 64
  const RECORD_HEADER_SIZE: nat := 32

  datatype Hashes = Hashes(crc: seq<Byte> -> U32, sha: seq<Byte> -> Digest)

  type CowResult<+T> = Result<T, CowError>
  datatype CowError = Io | Invalid(reason: string) | BaseMismatch | ReadOnly | WritePoisoned

  /** The overlay's fixed parameters: base image, device type and block size. */
  datatype Params = Params(h: Hashes, base: seq<Byte>, device: U16, blockSize: U32)

  predicate ValidParams(p: Params) {
    p.device <= 3 && 0 < |p.base| <= MAX_FILE && 1 <= p.blockSize <= 4096
  }

  function BlockCount(p: Params): nat
    requires ValidParams(p)
  {
    (|p.base| + p.blockSize - 1) / p.blockSize
  }

  function HeaderMagic(): seq<Byte> { [0x43, 0x50, 0x54, 0x43, 0x4F, 0x57, 0x31, 0] }
  function RecordMagic(): seq<Byte> { [0x42, 0x4C, 0x4B, 0x31] }

  function HeaderBody(p: Params): (b: seq<Byte>)
    ensures |b| == 60
  {
    HeaderMagic() + LE(1, 2) + LE(64, 2) + LE(p.device, 2) + [0, 0] + LE(p.blockSize, 4) + LE(|p.base|, 8) + p.h.sha(p.base)
  }

  function MakeHeader(p: Params): (b: seq<Byte>)
    ensures |b| == HEADER_SIZE
  {
    HeaderBody(p) + LE(p.h.crc(HeaderBody(p)), 4)
  }

  /** One committed block write. */
  datatype BlockWrite = BlockWrite(index: nat, data: seq<Byte>)

  predicate ValidWrite(p: Params, w: BlockWrite)
    requires ValidParams(p)
  {
    w.index < BlockCount(p) && |w.data| == p.blockSize
  }

  predicate ValidWrites(p: Params, ws: seq<BlockWrite>)
    requires ValidParams(p)
  {
    forall k :: 0 <= k < |ws| ==> ValidWrite(p, ws[k])
  }

  /** Record header fields; the header CRC covers the header with its own four bytes zeroed. */
  function RecordFields(index: nat, sequence: nat, dataCrc: nat): (b: seq<Byte>)
    ensures |b| == 24
  {
    RecordMagic() + LE(index, 8) + LE(sequence, 8) + LE(dataCrc, 4)
  }

  function RecordHeader(h: Hashes, index: nat, sequence: nat, dataCrc: nat): (b: seq<Byte>)
    ensures |b| == RECORD_HEADER_SIZE
  {
    var fields := RecordFields(index, sequence, dataCrc);
    fields + LE(h.crc(fields + Zeros(8)), 4) + Zeros(4)
  }

  function Record(p: Params, sequence: nat, w: BlockWrite): (b: seq<Byte>)
    ensures |b| == RECORD_HEADER_SIZE + |w.data|
  {
    RecordHeader(p.h, w.index, sequence, p.h.crc(w.data)) + w.data
  }

  function RecordSize(p: Params): nat {
    RECORD_HEADER_SIZE + p.blockSize
  }

  /** The bytes of the `k`-th record, counting from 1. */
  type Encoder = (nat, BlockWrite) -> seq<Byte>
  /** Accepts or refuses the bytes of the `k`-th record; the result is its block index. */
  type Checker = (seq<Byte>, nat) -> CowResult<nat>

  function RecordEncoder(p: Params): Encoder {
    (k: nat, w: BlockWrite) => Record(p, k, w)
  }

  /** A header followed by the records of the writes `ws`. */
  function LogOf(header: seq<Byte>, enc: Encoder, ws: seq<BlockWrite>): seq<Byte> {
    if ws == [] then header else LogOf(header, enc, ws[..|ws| - 1]) + enc(|ws|, ws[|ws| - 1])
  }

  /** The file after exactly the writes `ws`. */
  function Log(p: Params, ws: seq<BlockWrite>): seq<Byte> {
    LogOf(MakeHeader(p), RecordEncoder(p), ws)
  }

  /** Where the data of the latest write of each block is, for records of `size` bytes. */
  function IndexOf(size: nat, ws: seq<BlockWrite>): map<nat, nat> {
    if ws == [] then map[]
    else IndexOf(size, ws[..|ws| - 1])[ws[|ws| - 1].index := DataOffset(size, |ws| - 1)]
  }

  function DataOffset(size: nat, k: nat): nat {
    HEADER_SIZE + k * size + RECORD_HEADER_SIZE
  }

  // ---- scanning ----

  /** What a scan finds: the latest-record index, whether a torn record follows, and where valid
      data ends. */
  datatype Scan = Scan(records: nat, tail: bool, latest: map<nat, nat>, validEnd: nat)

  /** Header fields as the scanners read them. */
  predicate HeaderFieldsOk(p: Params, h: seq<Byte>)
    requires |h| == HEADER_SIZE
  {
    && h[..8] == HeaderMagic()
    && FromLE(h[8..10]) == 1
    && FromLE(h[10..12]) == 64
    && FromLE(h[12..14]) == p.device
    && FromLE(h[14..16]) == 0
    && FromLE(h[16..20]) == p.blockSize
    && FromLE(h[20..28]) == |p.base|
    && p.h.crc(h[..60]) == FromLE(h[60..64])
  }

  /** A record as the scanners read it; `covered` is what the header CRC covers. */
  datatype RecordView = RecordView(
    magic: seq<Byte>, index: nat, sequence: nat, dataCrc: nat, headerCrc: nat, reserved: nat,
    covered: seq<Byte>, data: seq<Byte>)

  function View(r: seq<Byte>): RecordView
    requires |r| >= RECORD_HEADER_SIZE
  {
    RecordView(r[..4], FromLE(r[4..12]), FromLE(r[12..20]), FromLE(r[20..24]), FromLE(r[24..28]), FromLE(r[28..32]),
               r[..24] + Zeros(4) + r[28..32], r[RECORD_HEADER_SIZE..])
  }

  /** Validation of one complete record: its block index, or why it is refused. */
  function CheckView(p: Params, v: RecordView, sequence: nat): CowResult<nat>
    requires ValidParams(p)
  {
    if v.magic != RecordMagic() || v.reserved != 0 then Err(Invalid("invalid COW record header"))
    else if p.h.crc(v.covered) != v.headerCrc then Err(Invalid("invalid COW record header CRC32C"))
    else if v.sequence != sequence then Err(Invalid("invalid COW record sequence"))
    else if v.index >= BlockCount(p) then Err(Invalid("COW block index out of range"))
    else if p.h.crc(v.data) != v.dataCrc then Err(Invalid("invalid COW block data CRC32C"))
    else Ok(v.index)
  }

  function CheckRecord(p: Params, r: seq<Byte>, sequence: nat): CowResult<nat>
    requires ValidParams(p) && |r| == RecordSize(p)
  {
    CheckView(p, View(r), sequence)
  }

  function RecordChecker(p: Params): Checker
    requires ValidParams(p)
  {
    (r: seq<Byte>, k: nat) => if |r| == RecordSize(p) then CheckRecord(p, r, k) else Err(Io)
  }

  /** The scan of a file from offset `at` on, after `records` records indexed by `latest`. */
  function ScanFrom(check: Checker, size: nat, file: seq<Byte>, at: nat, records: nat, latest: map<nat, nat>)
    : (r: CowResult<Scan>)
    requires at <= |file| && size > 0
    ensures r.Ok? ==> r.value.validEnd <= |file|
    decreases |file| - at
  {
    if at == |file| then Ok(Scan(records, false, latest, at))
    else if at + size > |file| then Ok(Scan(records, true, latest, at))
    else
      match check(file[at..at + size], records + 1)
      case Err(e) => Err(e)
      case Ok(index) => ScanFrom(check, size, file, at + size, records + 1, latest[index := at + RECORD_HEADER_SIZE])
  }

  /** The whole scan, with the error order of the scanner that `open` uses. */
  function ScanFile(p: Params, file: seq<Byte>): CowResult<Scan>
    requires ValidParams(p)
  {
    if |file| < HEADER_SIZE then Err(Invalid("truncated COW header"))
    else if !HeaderFieldsOk(p, file[..HEADER_SIZE]) then Err(Invalid("invalid or mismatched COW header"))
    else if file[28..60] != p.h.sha(p.base) then Err(BaseMismatch)
    else ScanFrom(RecordChecker(p), RecordSize(p), file, HEADER_SIZE, 0, map[])
  }

  // ---- the scanner accepts exactly the logs ----

  lemma {:induction false} FieldZero(s: seq<Byte>)
    requires FromLE(s) == 0
    ensures s == Zeros(|s|)
  {
    if s == [] {
    } else {
      FieldZero(s[1..]);
      assert s == [s[0]] + s[1..];
    }
  }

  lemma {:induction false} ZerosRead(n: nat)
    ensures FromLE(Zeros(n)) == 0
  {
    if n == 0 {
    } else {
      assert Zeros(n)[1..] == Zeros(n - 1);
      ZerosRead(n - 1);
    }
  }

  /** Slices of a record made of its parts. */
  lemma ViewOfParts(r: seq<Byte>, m: seq<Byte>, i: seq<Byte>, s: seq<Byte>, d: seq<Byte>, c: seq<Byte>, z: seq<Byte>,
                    data: seq<Byte>)
    requires |m| == 4 && |i| == 8 && |s| == 8 && |d| == 4 && |c| == 4 && |z| == 4
    requires r == m + i + s + d + c + z + data
    ensures View(r) == RecordView(m, FromLE(i), FromLE(s), FromLE(d), FromLE(c), FromLE(z),
                                  m + i + s + d + Zeros(4) + z, data)
  {
    SlicesOfParts(r, m, i, s, d, c, z, data);
  }

  lemma SlicesOfParts<T>(r: seq<T>, m: seq<T>, i: seq<T>, s: seq<T>, d: seq<T>, c: seq<T>, z: seq<T>, data: seq<T>)
    requires |m| == 4 && |i| == 8 && |s| == 8 && |d| == 4 && |c| == 4 && |z| == 4
    requires r == m + i + s + d + c + z + data
    ensures r[..4] == m && r[4..12] == i && r[12..20] == s && r[20..24] == d && r[24..28] == c && r[28..32] == z
    ensures r[..24] == m + i + s + d && r[32..] == data
  {
  }

  /** A record is made of its slices. */
  lemma RecordParts(r: seq<Byte>)
    requires |r| >= RECORD_HEADER_SIZE
    ensures r == r[..4] + r[4..12] + r[12..20] + r[20..24] + r[24..28] + r[28..32] + r[RECORD_HEADER_SIZE..]
  {
  }

  lemma CheckAcceptsRecord(p: Params, sequence: U64, w: BlockWrite)
    requires ValidParams(p) && ValidWrite(p, w)
    ensures CheckRecord(p, Record(p, sequence, w), sequence) == Ok(w.index)
  {
    var i, s, d := LE(w.index, 8), LE(sequence, 8), LE(p.h.crc(w.data), 4);
    var fields := RecordFields(w.index, sequence, p.h.crc(w.data));
    var c := LE(p.h.crc(fields + Zeros(8)), 4);
    assert Zeros(8) == Zeros(4) + Zeros(4);
    assert fields + Zeros(8) == RecordMagic() + i + s + d + Zeros(4) + Zeros(4);
    assert Record(p, sequence, w) == RecordMagic() + i + s + d + c + Zeros(4) + w.data;
    Pow256Values();
    BlockCountFits(p);
    LERoundTrip(w.index, 8);
    LERoundTrip(sequence, 8);
    LERoundTrip(p.h.crc(w.data), 4);
    LERoundTrip(p.h.crc(fields + Zeros(8)), 4);
    ZerosRead(4);
    ViewOfParts(Record(p, sequence, w), RecordMagic(), i, s, d, c, Zeros(4), w.data);
  }

  lemma BlockCountFits(p: Params)
    requires ValidParams(p)
    ensures BlockCount(p) <= |p.base|
  {
    DivisionBound(|p.base|, p.blockSize, BlockCount(p));
  }

  lemma DivisionBound(n: nat, b: nat, q: nat)
    requires n > 0 && b > 0 && q == (n + b - 1) / b
    ensures q <= n
  {
    MulMonotone(1, b, n);
    if q > n {
      MulMonotone(n + 1, q, b);
    }
  }

  lemma MulMonotone(x: nat, y: nat, z: nat)
    requires x <= y
    ensures x * z <= y * z
  {
  }

  lemma CheckedIsRecord(p: Params, r: seq<Byte>, sequence: nat)
    requires ValidParams(p) && |r| == RecordSize(p) && CheckRecord(p, r, sequence).Ok?
    ensures var w := BlockWrite(CheckRecord(p, r, sequence).value, r[RECORD_HEADER_SIZE..]);
            ValidWrite(p, w) && r == Record(p, sequence, w)
  {
    var m, i, s, d, c, z := r[..4], r[4..12], r[12..20], r[20..24], r[24..28], r[28..32];
    var data := r[RECORD_HEADER_SIZE..];
    RecordParts(r);
    ViewOfParts(r, m, i, s, d, c, z, data);
    LEInverse(i);
    LEInverse(s);
    LEInverse(d);
    LEInverse(c);
    FieldZero(z);
    RecordGlue(p, r, sequence, BlockWrite(FromLE(i), data), m, i, s, d, c, z);
  }

  lemma RecordGlue(p: Params, r: seq<Byte>, sequence: nat, w: BlockWrite, m: seq<Byte>, i: seq<Byte>, s: seq<Byte>,
                   d: seq<Byte>, c: seq<Byte>, z: seq<Byte>)
    requires r == m + i + s + d + c + z + w.data && |m| == 4 && z == Zeros(4)
    requires m == RecordMagic() && i == LE(w.index, 8) && s == LE(sequence, 8) && d == LE(p.h.crc(w.data), 4)
    requires c == LE(p.h.crc(m + i + s + d + Zeros(4) + z), 4)
    ensures r == Record(p, sequence, w)
  {
    var fields := RecordFields(w.index, sequence, p.h.crc(w.data));
    assert fields == m + i + s + d;
    assert fields + Zeros(8) == m + i + s + d + Zeros(4) + z;
  }

  lemma SlicesOfHeader<T>(h: seq<T>, m: seq<T>, v: seq<T>, n: seq<T>, d: seq<T>, z: seq<T>, b: seq<T>, l: seq<T>,
                          s: seq<T>, c: seq<T>)
    requires |m| == 8 && |v| == 2 && |n| == 2 && |d| == 2 && |z| == 2 && |b| == 4 && |l| == 8 && |s| == 32 && |c| == 4
    requires h == m + v + n + d + z + b + l + s + c
    ensures h[..8] == m && h[8..10] == v && h[10..12] == n && h[12..14] == d && h[14..16] == z
    ensures h[16..20] == b && h[20..28] == l && h[28..60] == s && h[60..64] == c && h[..60] == m + v + n + d + z + b + l + s
  {
  }

  lemma HeaderParts<T>(h: seq<T>)
    requires |h| == 64
    ensures h == h[..8] + h[8..10] + h[10..12] + h[12..14] + h[14..16] + h[16..20] + h[20..28] + h[28..60] + h[60..64]
    ensures h[..60] == h[..8] + h[8..10] + h[10..12] + h[12..14] + h[14..16] + h[16..20] + h[20..28] + h[28..60]
  {
  }

  lemma HeaderAccepted(p: Params)
    requires ValidParams(p)
    ensures HeaderFieldsOk(p, MakeHeader(p)) && MakeHeader(p)[28..60] == p.h.sha(p.base)
  {
    Pow256Values();
    var crc := p.h.crc(HeaderBody(p));
    LERoundTrip(1, 2);
    LERoundTrip(64, 2);
    LERoundTrip(p.device, 2);
    LERoundTrip(p.blockSize, 4);
    LERoundTrip(|p.base|, 8);
    LERoundTrip(crc, 4);
    ZeroPair();
    var m := MakeHeader(p);
    SlicesOfHeader(m, HeaderMagic(), LE(1, 2), LE(64, 2), LE(p.device, 2), [0, 0], LE(p.blockSize, 4), LE(|p.base|, 8),
                   p.h.sha(p.base), LE(crc, 4));
  }

  lemma ZeroPair()
    ensures FromLE([0, 0]) == 0 && Zeros(2) == [0, 0]
  {
    assert FromLE([0]) == 0;
  }

  lemma HeaderUnique(p: Params, h: seq<Byte>)
    requires ValidParams(p) && |h| == HEADER_SIZE
    requires HeaderFieldsOk(p, h) && h[28..60] == p.h.sha(p.base)
    ensures h == MakeHeader(p)
  {
    HeaderParts(h);
    LEInverse(h[8..10]);
    LEInverse(h[10..12]);
    LEInverse(h[12..14]);
    LEInverse(h[16..20]);
    LEInverse(h[20..28]);
    LEInverse(h[60..64]);
    FieldZero(h[14..16]);
    ZeroPair();
    HeaderGlue(p, h, h[..8], h[8..10], h[10..12], h[12..14], h[14..16], h[16..20], h[20..28], h[28..60], h[60..64]);
  }

  lemma HeaderGlue(p: Params, h: seq<Byte>, m: seq<Byte>, v: seq<Byte>, n: seq<Byte>, d: seq<Byte>, z: seq<Byte>,
                   b: seq<Byte>, l: seq<Byte>, s: seq<Byte>, c: seq<Byte>)
    requires |h| == HEADER_SIZE && h == m + v + n + d + z + b + l + s + c && h[..60] == m + v + n + d + z + b + l + s
    requires m == HeaderMagic() && v == LE(1, 2) && n == LE(64, 2) && d == LE(p.device, 2) && z == [0, 0]
    requires b == LE(p.blockSize, 4) && l == LE(|p.base|, 8) && s == p.h.sha(p.base) && c == LE(p.h.crc(h[..60]), 4)
    ensures h == MakeHeader(p)
  {
    assert h[..60] == HeaderBody(p);
  }

  /** The header checks pass for exactly the header these parameters make. */
  lemma HeaderExact(p: Params, h: seq<Byte>)
    requires ValidParams(p) && |h| == HEADER_SIZE
    ensures HeaderFieldsOk(p, h) && h[28..60] == p.h.sha(p.base) <==> h == MakeHeader(p)
  {
    HeaderAccepted(p);
    if HeaderFieldsOk(p, h) && h[28..60] == p.h.sha(p.base) {
      HeaderUnique(p, h);
    }
  }
}
