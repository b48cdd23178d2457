/** Packing a block list into a container, and parsing it back. */
module WaxPacker {
  import opened Bytes
  import opened Wrappers
  import opened WaxFormat

  // ---- big-endian words ----

  function WordByte(w: U32, k: nat): Byte
    requires k < 4
  {
    if k == 0 then w / 0x100_0000 else if k == 1 then w / 0x1_0000 % 256 else if k == 2 then w / 0x100 % 256 else w % 256
  }

  function BytesOf(ws: seq<U32>): (d: seq<Byte>)
    ensures |d| == 4 * |ws|
  {
    seq<Byte>(4 * |ws|, (i: nat) requires i < 4 * |ws| => WordByte(ws[i / 4], i % 4))
  }

  lemma WordRead(ws: seq<U32>, rest: seq<Byte>, k: nat)
    requires k < |ws|
    ensures Be32(BytesOf(ws) + rest, 4 * k) == ws[k]
    ensures Be16(BytesOf(ws) + rest, 4 * k) == ws[k] / 0x1_0000 && Be16(BytesOf(ws) + rest, 4 * k + 2) == ws[k] % 0x1_0000
  {
    var d, w := BytesOf(ws) + rest, ws[k];
    assert d[4 * k] == BytesOf(ws)[4 * k] == WordByte(w, 0);
    assert d[4 * k + 1] == BytesOf(ws)[4 * k + 1] == WordByte(w, 1);
    assert d[4 * k + 2] == BytesOf(ws)[4 * k + 2] == WordByte(w, 2);
    assert d[4 * k + 3] == BytesOf(ws)[4 * k + 3] == WordByte(w, 3);
    WordOfBytes(w);
  }

  lemma WordOfBytes(w: U32)
    ensures var a: nat, b: nat, c: nat, e: nat := WordByte(w, 0), WordByte(w, 1), WordByte(w, 2), WordByte(w, 3);
            && a * 0x100_0000 + b * 0x1_0000 + c * 0x100 + e == w
            && a * 0x100 + b == w / 0x1_0000 && c * 0x100 + e == w % 0x1_0000
  {
  }

  // ---- layout ----

  function AlignUp(at: nat): (a: nat)
    ensures at <= a < at + 4 && a % 4 == 0
  {
    (at + 3) / 4 * 4
  }

  /** Where payloads go when the first free byte is `at`: each at the next multiple of 4. */
  function Offsets(blocks: seq<Block>, at: nat): (os: seq<nat>)
    ensures |os| == |blocks|
    decreases |blocks|
  {
    if blocks == [] then [] else [AlignUp(at)] + Offsets(blocks[1..], AlignUp(at) + |blocks[0].data|)
  }

  /** The file from `at` on. */
  function Payload(blocks: seq<Block>, at: nat): seq<Byte>
    decreases |blocks|
  {
    if blocks == [] then []
    else Zeros(AlignUp(at) - at) + blocks[0].data + Payload(blocks[1..], AlignUp(at) + |blocks[0].data|)
  }

  lemma {:induction false} LayoutIsSound(blocks: seq<Block>, at: nat, k: nat)
    requires k < |blocks|
    ensures Placed(blocks, at, k)
    ensures k > 0 ==> Offsets(blocks, at)[k - 1] + |blocks[k - 1].data| <= Offsets(blocks, at)[k]
    decreases |blocks|
  {
    var first := AlignUp(at);
    if k == 0 {
      Middle(Zeros(first - at), blocks[0].data, Payload(blocks[1..], first + |blocks[0].data|));
    } else {
      var next := first + |blocks[0].data|;
      LayoutIsSound(blocks[1..], next, k - 1);
      PlacedBehind(blocks, at, k, next);
    }
  }

  /** Payload `k` is where its offset says, aligned and inside the file. */
  predicate Placed(blocks: seq<Block>, at: nat, k: nat)
    requires k < |blocks|
  {
    var off := Offsets(blocks, at)[k];
    && at <= off && off % 4 == 0 && off + |blocks[k].data| <= at + |Payload(blocks, at)|
    && Payload(blocks, at)[off - at..][..|blocks[k].data|] == blocks[k].data
  }

  lemma PlacedBehind(blocks: seq<Block>, at: nat, k: nat, next: nat)
    requires 0 < k < |blocks| && next == AlignUp(at) + |blocks[0].data| && Placed(blocks[1..], next, k - 1)
    requires k > 1 ==> Offsets(blocks[1..], next)[k - 2] + |blocks[1..][k - 2].data| <= Offsets(blocks[1..], next)[k - 1]
    ensures Placed(blocks, at, k) && Offsets(blocks, at)[k - 1] + |blocks[k - 1].data| <= Offsets(blocks, at)[k]
  {
    hide Payload, Offsets;
    var head, tail := Zeros(AlignUp(at) - at) + blocks[0].data, Payload(blocks[1..], next);
    var off := Offsets(blocks[1..], next)[k - 1];
    LayoutStep(blocks, at, next);
    assert blocks[1..][k - 1] == blocks[k];
    Shift(head, tail, at, next, off);
    if k > 1 {
      assert blocks[1..][k - 2] == blocks[k - 1];
    }
  }

  /** The layout behind the first block. */
  lemma LayoutStep(blocks: seq<Block>, at: nat, next: nat)
    requires blocks != [] && next == AlignUp(at) + |blocks[0].data|
    ensures Payload(blocks, at) == Zeros(AlignUp(at) - at) + blocks[0].data + Payload(blocks[1..], next)
    ensures Offsets(blocks, at) == [AlignUp(at)] + Offsets(blocks[1..], next)
  {
  }

  lemma Shift<T>(head: seq<T>, tail: seq<T>, at: nat, next: nat, off: nat)
    requires at + |head| == next <= off <= next + |tail|
    ensures (head + tail)[off - at..] == tail[off - next..]
  {
  }

  lemma Middle<T>(a: seq<T>, b: seq<T>, c: seq<T>)
    ensures (a + b + c)[|a|..][..|b|] == b
  {
  }

  lemma {:induction false} OffsetsAscend(blocks: seq<Block>, at: nat, i: nat, j: nat)
    requires i < j < |blocks|
    ensures Offsets(blocks, at)[i] + |blocks[i].data| <= Offsets(blocks, at)[j]
    decreases j
  {
    LayoutIsSound(blocks, at, j);
    if i == j - 1 {
    } else {
      OffsetsAscend(blocks, at, i, j - 1);
    }
  }

  // ---- header and table as words ----

  function HeaderWords(h: Header): (ws: seq<U32>)
    ensures |ws| == 16
  {
    [0x5741_5800, h.version * 0x1_0000 + h.kind, h.arch * 0x1_0000 + h.flags, h.headerSize, h.base, h.entryOffset,
     h.tableOffset, h.blockCount, h.entrySize, h.debugOffset, h.debugSize, h.fileSize, h.stackTop, h.stackSize, 0, 0]
  }

  function EntryWord(e: Entry, j: nat): U32 {
    if j == 0 then e.addr else if j == 1 then e.offset else if j == 2 then e.size else e.perm
  }

  /** Table entries of `n` words each. */
  function TableWords(es: seq<Entry>, n: nat): (ws: seq<U32>)
    requires n == 3 || n == 4
    ensures |ws| == |es| * n
  {
    seq<U32>(|es| * n, (i: nat) requires i < |es| * n => RowIn(|es|, n, i); EntryWord(es[i / n], i % n))
  }

  lemma RowIn(count: nat, n: nat, i: nat)
    requires i < count * n && (n == 3 || n == 4)
    ensures i / n < count
  {
  }

  lemma RowAt(count: nat, n: nat, k: nat, j: nat)
    requires k < count && j < n && (n == 3 || n == 4)
    ensures k * n + j < count * n && (k * n + j) / n == k && (k * n + j) % n == j
  {
  }

  lemma TableWordAt(es: seq<Entry>, n: nat, k: nat, j: nat)
    requires (n == 3 || n == 4) && k < |es| && j < n
    ensures k * n + j < |es| * n && TableWords(es, n)[k * n + j] == EntryWord(es[k], j)
  {
    RowAt(|es|, n, k, j);
  }

  /** A file with this header, table and rest. */
  function FileOf(h: Header, es: seq<Entry>, n: nat, rest: seq<Byte>): (d: seq<Byte>)
    requires n == 3 || n == 4
    ensures |d| == 4 * (16 + |es| * n) + |rest|
  {
    BytesOf(HeaderWords(h) + TableWords(es, n)) + rest
  }

  /** Word `k` of a file. */
  predicate WordIs(d: seq<Byte>, k: nat, w: U32) {
    4 * k + 4 <= |d| && Be32(d, 4 * k) == w && Be16(d, 4 * k) == w / 0x1_0000 && Be16(d, 4 * k + 2) == w % 0x1_0000
  }

  lemma FrontWord(d: seq<Byte>, ws: seq<U32>, rest: seq<Byte>, k: nat)
    requires d == BytesOf(ws) + rest && k < |ws|
    ensures WordIs(d, k, ws[k])
  {
    WordRead(ws, rest, k);
  }

  /** A file that begins with these words has this header. */
  lemma ReadHeader(d: seq<Byte>, h: Header, ws: seq<U32>, rest: seq<Byte>)
    requires d == BytesOf(ws) + rest && |ws| >= 16 && ws[..16] == HeaderWords(h)
    requires !Protected(h) ==> h.stackTop == h.stackSize == 0
    ensures |d| >= HEADER_SIZE && HeaderOf(d) == h && d[..4] == Magic() && ReservedClear(d, h)
  {
    forall k: nat | k < 16 ensures WordIs(d, k, HeaderWords(h)[k]) {
      FrontWord(d, ws, rest, k);
      assert ws[k] == ws[..16][k];
    }
    ReadWords(d, h, HeaderWords(h));
  }

  lemma ReadWords(d: seq<Byte>, h: Header, ws: seq<U32>)
    requires |d| >= HEADER_SIZE && ws == HeaderWords(h) && (!Protected(h) ==> h.stackTop == h.stackSize == 0)
    requires forall k: nat :: k < 16 ==> WordIs(d, k, ws[k])
    ensures HeaderOf(d) == h && d[..4] == Magic() && ReservedClear(d, h)
  {
    assert WordIs(d, 0, ws[0]) && WordIs(d, 1, ws[1]) && WordIs(d, 2, ws[2]) && WordIs(d, 3, ws[3]);
    assert WordIs(d, 4, ws[4]) && WordIs(d, 5, ws[5]) && WordIs(d, 6, ws[6]) && WordIs(d, 7, ws[7]);
    assert WordIs(d, 8, ws[8]) && WordIs(d, 9, ws[9]) && WordIs(d, 10, ws[10]) && WordIs(d, 11, ws[11]);
    assert WordIs(d, 12, ws[12]) && WordIs(d, 13, ws[13]) && WordIs(d, 14, ws[14]) && WordIs(d, 15, ws[15]);
    HalfWords(h.version, h.kind);
    HalfWords(h.arch, h.flags);
    MagicWord(d);
    ZeroWord(d, 14);
    ZeroWord(d, 15);
    if !Protected(h) {
      ZeroWord(d, 12);
      ZeroWord(d, 13);
    }
  }

  lemma HalfWords(a: U16, b: U16)
    ensures (a * 0x1_0000 + b) / 0x1_0000 == a && (a * 0x1_0000 + b) % 0x1_0000 == b
  {
  }

  lemma MagicWord(d: seq<Byte>)
    requires WordIs(d, 0, 0x5741_5800)
    ensures d[..4] == Magic()
  {
    MagicBytes(d[0], d[1], d[2], d[3]);
  }

  lemma MagicBytes(a: nat, b: nat, c: nat, e: nat)
    requires a < 256 && b < 256 && c < 256 && e < 256
    requires a * 0x100_0000 + b * 0x1_0000 + c * 0x100 + e == 0x5741_5800
    ensures a == 0x57 && b == 0x41 && c == 0x58 && e == 0
  {
  }

  lemma ZeroWord(d: seq<Byte>, k: nat)
    requires WordIs(d, k, 0)
    ensures d[4 * k] == d[4 * k + 1] == d[4 * k + 2] == d[4 * k + 3] == 0
  {
  }

  /** Words `base` to `base + n` of a file, read as a table entry. */
  lemma ReadEntry(d: seq<Byte>, ws: seq<U32>, rest: seq<Byte>, base: nat, n: nat, e: Entry)
    requires d == BytesOf(ws) + rest && (n == 3 || n == 4) && base + n <= |ws| && (n == 3 ==> e.perm == 0)
    requires ws[base] == e.addr && ws[base + 1] == e.offset && ws[base + 2] == e.size && (n == 4 ==> ws[base + 3] == e.perm)
    ensures 4 * base + 4 * n <= |d| && EntryAt(d, 4 * base, n == 4) == e
  {
    hide Be32, BytesOf;
    ReadWord(d, ws, rest, base, 4 * base);
    ReadWord(d, ws, rest, base + 1, 4 * base + 4);
    ReadWord(d, ws, rest, base + 2, 4 * base + 8);
    if n == 4 {
      ReadWord(d, ws, rest, base + 3, 4 * base + 12);
    }
  }

  lemma ReadWord(d: seq<Byte>, ws: seq<U32>, rest: seq<Byte>, k: nat, at: nat)
    requires d == BytesOf(ws) + rest && k < |ws| && at == 4 * k
    ensures at + 4 <= |d| && Be32(d, at) == ws[k]
  {
    WordRead(ws, rest, k);
  }

  lemma FileHeader(h: Header, es: seq<Entry>, n: nat, rest: seq<Byte>)
    requires (n == 3 || n == 4) && (!Protected(h) ==> h.stackTop == h.stackSize == 0)
    ensures var d := FileOf(h, es, n, rest);
            |d| >= HEADER_SIZE && HeaderOf(d) == h && d[..4] == Magic() && ReservedClear(d, h)
  {
    var ws := HeaderWords(h) + TableWords(es, n);
    assert ws[..16] == HeaderWords(h);
    ReadHeader(FileOf(h, es, n, rest), h, ws, rest);
  }

  lemma FileEntry(h: Header, es: seq<Entry>, n: nat, rest: seq<Byte>, k: nat, base: nat)
    requires (n == 3 || n == 4) && k < |es| && (n == 3 ==> es[k].perm == 0) && base == 16 + k * n
    ensures var d := FileOf(h, es, n, rest);
            4 * base + 4 * n <= |d| && EntryAt(d, 4 * base, n == 4) == es[k]
  {
    var ws := HeaderWords(h) + TableWords(es, n);
    WordInFront(h, es, n, k, 0);
    WordInFront(h, es, n, k, 1);
    WordInFront(h, es, n, k, 2);
    WordInFront(h, es, n, k, n - 1);
    ReadEntry(FileOf(h, es, n, rest), ws, rest, base, n, es[k]);
  }

  lemma WordInFront(h: Header, es: seq<Entry>, n: nat, k: nat, j: nat)
    requires (n == 3 || n == 4) && k < |es| && j < n
    ensures var ws := HeaderWords(h) + TableWords(es, n);
            16 + k * n + j < |ws| && ws[16 + k * n + j] == EntryWord(es[k], j)
  {
    TableWordAt(es, n, k, j);
  }

  lemma FourTimes(k: nat, n: nat)
    requires n == 3 || n == 4
    ensures 4 * (16 + k * n) == HEADER_SIZE + k * (4 * n)
  {
  }

  // ---- packing ----

  function Fields(image: Image): nat {
    if image.protection.Some? then 4 else 3
  }

  function PackedTableEnd(image: Image): nat {
    HEADER_SIZE + |image.blocks| * (4 * Fields(image))
  }

  function FileSize(image: Image): nat {
    PackedTableEnd(image) + |Payload(image.blocks, PackedTableEnd(image))|
  }

  /** An executable whose image can be loaded and whose file is not too long. */
  predicate Packable(image: Image) {
    && !image.isLib && image.debug == [] && image.blocks != [] && image.base == image.blocks[0].addr
    && image.base <= image.entry && Loadable(image) && FileSize(image) < LIMIT
    && (image.protection.Some? ==> image.protection.value.stackTop % 4 == 0 && image.protection.value.stackSize % 4 == 0)
    && (image.protection.None? ==> forall k :: 0 <= k < |image.blocks| ==> image.blocks[k].perm == 0)
  }

  lemma CountFits(image: Image)
    requires FileSize(image) < LIMIT
    ensures |image.blocks| < LIMIT
  {
  }

  function PackedHeader(image: Image): Header
    requires FileSize(image) < LIMIT && image.base <= image.entry
  {
    CountFits(image);
    Header(2, 1, 1, if image.protection.Some? then 2 else 0, HEADER_SIZE, image.base, image.entry - image.base, HEADER_SIZE,
           |image.blocks|, 4 * Fields(image), 0, 0, FileSize(image),
           if image.protection.Some? then image.protection.value.stackTop else 0,
           if image.protection.Some? then image.protection.value.stackSize else 0)
  }

  /** The table entries of blocks whose payloads start at `at`. */
  function PackedEntries(blocks: seq<Block>, at: nat): (es: seq<Entry>)
    requires at + |Payload(blocks, at)| < LIMIT
    ensures |es| == |blocks|
  {
    seq<Entry>(|blocks|, (k: nat) requires k < |blocks| =>
      LayoutIsSound(blocks, at, k);
      Entry(blocks[k].addr, Offsets(blocks, at)[k], |blocks[k].data|, blocks[k].perm))
  }

  /** `pack` and `pack_protected`. */
  function Pack(image: Image): seq<Byte>
    requires FileSize(image) < LIMIT && image.base <= image.entry
  {
    var at := PackedTableEnd(image);
    FileOf(PackedHeader(image), PackedEntries(image.blocks, at), Fields(image), Payload(image.blocks, at))
  }

  // ---- parsing it back ----

  lemma PackedEntry(blocks: seq<Block>, at: nat, k: nat)
    requires at + |Payload(blocks, at)| < LIMIT && k < |blocks| && at >= HEADER_SIZE
    ensures var e := PackedEntries(blocks, at)[k];
            && e.addr == blocks[k].addr && e.size == |blocks[k].data| && e.perm == blocks[k].perm
            && at <= e.offset && e.offset % 4 == 0 && e.offset + e.size <= at + |Payload(blocks, at)|
            && Payload(blocks, at)[e.offset - at..][..e.size] == blocks[k].data
  {
    LayoutIsSound(blocks, at, k);
  }

  lemma PayloadsApart(h: Header, blocks: seq<Block>, at: nat)
    requires at + |Payload(blocks, at)| < LIMIT && at >= HEADER_SIZE
    requires h.debugSize == 0 && h.tableOffset <= TableEnd(h) == at
    ensures PairwiseApart(Spans(h, PackedEntries(blocks, at)))
  {
    var es := PackedEntries(blocks, at);
    var spans := Spans(h, es);
    forall i, j | 0 <= i < j < |spans| ensures Apart(spans[i], spans[j]) {
      assert spans[j] == EntrySpans(es)[j - 1];
      PackedEntry(blocks, at, j - 1);
      if i > 0 {
        assert spans[i] == EntrySpans(es)[i - 1];
        OffsetsAscend(blocks, at, i - 1, j - 1);
      }
    }
  }

  lemma PackedEntriesOk(h: Header, image: Image, at: nat)
    requires Loadable(image) && at + |Payload(image.blocks, at)| == h.fileSize && at == TableEnd(h) >= HEADER_SIZE
    requires Protected(h) ==> image.protection.Some?
    ensures EntriesOk(h, PackedEntries(image.blocks, at))
  {
    var es := PackedEntries(image.blocks, at);
    forall k | 0 <= k < |es| ensures EntryOk(h, es[k]) {
      PackedEntry(image.blocks, at, k);
    }
    forall i, j | 0 <= i < j < |es| ensures es[i].addr + es[i].size <= es[j].addr {
      PackedEntry(image.blocks, at, i);
      PackedEntry(image.blocks, at, j);
    }
  }

  lemma PackedEntryPoint(h: Header, image: Image, at: nat)
    requires Packable(image) && at + |Payload(image.blocks, at)| < LIMIT && at >= HEADER_SIZE
    requires !IsLib(h) && h.base == image.base && h.entryOffset == image.entry - image.base
    ensures EntryPointOk(h, PackedEntries(image.blocks, at))
  {
    var es := PackedEntries(image.blocks, at);
    var k :| 0 <= k < |image.blocks| && InBlock(image.blocks[k], image.entry);
    PackedEntry(image.blocks, at, k);
    PackedEntry(image.blocks, at, 0);
    assert Holds(es[k], h.base + h.entryOffset);
  }

  lemma PackedStack(h: Header, image: Image, at: nat)
    requires Packable(image) && image.protection.Some? && at + |Payload(image.blocks, at)| < LIMIT && at >= HEADER_SIZE
    requires h.base == image.base && h.entryOffset == image.entry - image.base
    requires h.stackTop == image.protection.value.stackTop && h.stackSize == image.protection.value.stackSize
    ensures StackOk(h, PackedEntries(image.blocks, at))
  {
    hide Payload, PackedEntries, BlocksApart;
    var es := PackedEntries(image.blocks, at);
    forall k | 0 <= k < |es|
      ensures Apart(Span(h.stackTop - h.stackSize, h.stackTop), Span(es[k].addr, es[k].addr + es[k].size))
              && es[k].addr + es[k].size <= CPU_RESERVED
    {
      PackedEntry(image.blocks, at, k);
    }
    var k :| 0 <= k < |image.blocks| && InBlock(image.blocks[k], image.entry) && Executable(image.blocks[k].perm);
    PackedEntry(image.blocks, at, k);
    assert Holds(es[k], h.base + h.entryOffset) && Executable(es[k].perm);
  }

  lemma PackedBodyOk(h: Header, image: Image, at: nat)
    requires Packable(image) && h == PackedHeader(image) && at == PackedTableEnd(image)
    ensures BodyOk(h, PackedEntries(image.blocks, at))
  {
    PackedEntriesOk(h, image, at);
    PayloadsApart(h, image.blocks, at);
    PackedEntryPoint(h, image, at);
    if Protected(h) {
      PackedStack(h, image, at);
    }
  }

  lemma PackedTable(h: Header, es: seq<Entry>, n: nat, rest: seq<Byte>)
    requires (n == 3 || n == 4) && (n == 4 <==> Protected(h)) && h.tableOffset == HEADER_SIZE && h.blockCount == |es|
    requires n == 3 ==> forall k :: 0 <= k < |es| ==> es[k].perm == 0
    ensures TableEnd(h) <= |FileOf(h, es, n, rest)| && Entries(FileOf(h, es, n, rest), h) == es
  {
    var d := FileOf(h, es, n, rest);
    FourTimes(|es|, n);
    assert EntrySize(h) == 4 * n;
    forall k | 0 <= k < |es| ensures Entries(d, h)[k] == es[k] {
      PackedRow(h, es, n, rest, d, k, 16 + k * n);
    }
  }

  lemma PackedRow(h: Header, es: seq<Entry>, n: nat, rest: seq<Byte>, d: seq<Byte>, k: nat, base: nat)
    requires (n == 3 || n == 4) && (n == 4 <==> Protected(h)) && h.tableOffset == HEADER_SIZE && h.blockCount == |es|
    requires k < |es| && (n == 3 ==> es[k].perm == 0) && d == FileOf(h, es, n, rest) && TableEnd(h) <= |d| && base == 16 + k * n
    ensures Entries(d, h)[k] == es[k]
  {
    FileEntry(h, es, n, rest, k, base);
    FourTimes(k, n);
    assert k * EntrySize(h) == k * (4 * n);
    TableEntry(d, h, k, 4 * base);
  }

  lemma TableEntry(d: seq<Byte>, h: Header, k: nat, at: nat)
    requires TableEnd(h) <= |d| && k < h.blockCount && at == h.tableOffset + k * EntrySize(h)
    ensures at + EntrySize(h) <= |d| && Entries(d, h)[k] == EntryAt(d, at, Protected(h))
  {
    EntryInTable(h, k);
  }

  lemma PackedBlocks(h: Header, blocks: seq<Block>, n: nat, at: nat, d: seq<Byte>)
    requires at + |Payload(blocks, at)| < LIMIT && at == 4 * (16 + |blocks| * n) && (n == 3 || n == 4)
    requires d == FileOf(h, PackedEntries(blocks, at), n, Payload(blocks, at))
    ensures forall k :: 0 <= k < |blocks| ==> PackedEntries(blocks, at)[k].offset + PackedEntries(blocks, at)[k].size <= |d|
    ensures BlocksOf(d, PackedEntries(blocks, at)) == blocks
  {
    var es, rest := PackedEntries(blocks, at), Payload(blocks, at);
    forall k | 0 <= k < |blocks| ensures es[k].offset + es[k].size <= |d| && BlockOf(d, es[k]) == blocks[k] {
      PackedEntry(blocks, at, k);
      Behind(d, d[..at], rest, es[k].offset, es[k].size);
    }
  }

  lemma Behind<T>(d: seq<T>, front: seq<T>, rest: seq<T>, offset: nat, size: nat)
    requires d == front + rest && |front| <= offset && offset + size <= |d|
    ensures d[offset..offset + size] == rest[offset - |front|..][..size]
  {
  }

  lemma AssembledImage(d: seq<Byte>, h: Header, es: seq<Entry>)
    requires |d| >= HEADER_SIZE && d[..4] == Magic() && HeaderOf(d) == h && ReservedClear(d, h) && HeaderOk(h, |d|)
    requires Entries(d, h) == es && BodyOk(h, es)
    requires forall k :: 0 <= k < |es| ==> es[k].offset + es[k].size <= |d|
    ensures WellFormed(d)
    ensures ImageOf(d) == Image(IsLib(h), h.base, h.base + h.entryOffset, BlocksOf(d, es),
                                d[h.debugOffset..h.debugOffset + h.debugSize],
                                if Protected(h) then Some(Protection(h.stackTop, h.stackSize)) else None)
  {
  }

  lemma PackedHeaderOk(image: Image)
    requires Packable(image)
    ensures HeaderOk(PackedHeader(image), FileSize(image)) && TableEnd(PackedHeader(image)) == PackedTableEnd(image)
    ensures Protected(PackedHeader(image)) <==> image.protection.Some?
  {
  }

  /** The header of a packed file says what the image does. */
  predicate HeaderSays(h: Header, image: Image) {
    && !IsLib(h) && h.base == image.base && h.base + h.entryOffset == image.entry && h.debugOffset == h.debugSize == 0
    && (Protected(h) <==> image.protection.Some?)
    && (Protected(h) ==> image.protection.value == Protection(h.stackTop, h.stackSize))
  }

  /** What a packed file consists of. */
  lemma PackedFile(image: Image) returns (d: seq<Byte>, h: Header, es: seq<Entry>)
    requires Packable(image)
    ensures d == Pack(image) && HeaderSays(h, image)
    ensures |d| >= HEADER_SIZE && d[..4] == Magic() && HeaderOf(d) == h && ReservedClear(d, h) && HeaderOk(h, |d|)
    ensures Entries(d, h) == es && BodyOk(h, es)
    ensures forall k :: 0 <= k < |es| ==> es[k].offset + es[k].size <= |d|
    ensures BlocksOf(d, es) == image.blocks
  {
    var n, at := Fields(image), PackedTableEnd(image);
    h := PackedHeader(image);
    es := PackedEntries(image.blocks, at);
    PackedHeaderOk(image);
    PackedBodyOk(h, image, at);
    UnprotectedPerms(image, at);
    d := FileOf(h, es, n, Payload(image.blocks, at));
    FourTimes(|image.blocks|, n);
    ReadBack(h, image.blocks, es, n, at, d);
  }

  lemma ReadBack(h: Header, blocks: seq<Block>, es: seq<Entry>, n: nat, at: nat, d: seq<Byte>)
    requires at + |Payload(blocks, at)| < LIMIT && at == 4 * (16 + |blocks| * n) && es == PackedEntries(blocks, at)
    requires (n == 3 || n == 4) && (n == 4 <==> Protected(h)) && (!Protected(h) ==> h.stackTop == h.stackSize == 0)
    requires h.tableOffset == HEADER_SIZE && h.blockCount == |es|
    requires n == 3 ==> forall k :: 0 <= k < |es| ==> es[k].perm == 0
    requires d == FileOf(h, es, n, Payload(blocks, at))
    ensures |d| >= HEADER_SIZE && d[..4] == Magic() && HeaderOf(d) == h && ReservedClear(d, h)
    ensures TableEnd(h) <= |d| == at + |Payload(blocks, at)| && Entries(d, h) == es
    ensures forall k :: 0 <= k < |es| ==> es[k].offset + es[k].size <= |d|
    ensures BlocksOf(d, es) == blocks
  {
    FileHeader(h, es, n, Payload(blocks, at));
    PackedTable(h, es, n, Payload(blocks, at));
    PackedBlocks(h, blocks, n, at, d);
  }

  /** Main result: parsing undoes packing. For every packable block list, protected or not, the packed
      file is well-formed and stands for exactly that image. */
  lemma ParseUndoesPack(image: Image)
    requires Packable(image)
    ensures WellFormed(Pack(image)) && ImageOf(Pack(image)) == image
  {
    hide HeaderOk, BodyOk, ReservedClear, WellFormed, Entries, HeaderOf, BlocksOf, Pack, Loadable, Payload;
    var d, h, es := PackedFile(image);
    AssembledImage(d, h, es);
    assert d[0..0] == [];
  }

  lemma UnprotectedPerms(image: Image, at: nat)
    requires Packable(image) && at + |Payload(image.blocks, at)| < LIMIT && at >= HEADER_SIZE
    ensures image.protection.None? ==> forall k :: 0 <= k < |image.blocks| ==> PackedEntries(image.blocks, at)[k].perm == 0
  {
    forall k | 0 <= k < |image.blocks| && image.protection.None? ensures PackedEntries(image.blocks, at)[k].perm == 0 {
      PackedEntry(image.blocks, at, k);
    }
  }
}
