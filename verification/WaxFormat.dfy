/**
 The WAX v2 container: which files are well-formed, and the image a well-formed file stands for. The
 conditions are stated without regard to how a parser checks them.
 */
module WaxFormat {
  import opened Bytes
  import opened Wrappers

  const HEADER_SIZE: nat := 64
  const LIMIT: nat := 0x1_0000_0000
  const CPU_RESERVED: nat := 0xFFFF_0000
  const MAX_PROTECTED_BLOCKS: nat := 7

  function Magic(): seq<Byte> { [0x57, 0x41, 0x58, 0x00] }

  function Be16(d: seq<Byte>, at: nat): U16
    requires at + 2 <= |d|
  {
    var a: nat, b: nat := d[at], d[at + 1];
    a * 0x100 + b
  }

  function Be32(d: seq<Byte>, at: nat): U32
    requires at + 4 <= |d|
  {
    var a: nat, b: nat, c: nat, e: nat := d[at], d[at + 1], d[at + 2], d[at + 3];
    a * 0x100_0000 + b * 0x1_0000 + c * 0x100 + e
  }

  /** Header fields; the last two are the user stack of a protected image. */
  datatype Header = Header(
    version: U16, kind: U16, arch: U16, flags: U16, headerSize: U32, base: U32, entryOffset: U32, tableOffset: U32,
    blockCount: U32, entrySize: U32, debugOffset: U32, debugSize: U32, fileSize: U32, stackTop: U32, stackSize: U32)

  function HeaderOf(d: seq<Byte>): Header
    requires |d| >= HEADER_SIZE
  {
    Header(Be16(d, 4), Be16(d, 6), Be16(d, 8), Be16(d, 10), Be32(d, 12), Be32(d, 16), Be32(d, 20), Be32(d, 24),
           Be32(d, 28), Be32(d, 32), Be32(d, 36), Be32(d, 40), Be32(d, 44), Be32(d, 48), Be32(d, 52))
  }

  predicate HasDebug(h: Header) { h.flags % 2 == 1 }
  predicate Protected(h: Header) { h.flags / 2 % 2 == 1 }
  predicate IsLib(h: Header) { h.kind == 2 }

  function EntrySize(h: Header): nat {
    if Protected(h) then 16 else 12
  }

  function TableEnd(h: Header): nat {
    h.tableOffset + h.blockCount * EntrySize(h)
  }

  predicate ReservedClear(d: seq<Byte>, h: Header)
    requires |d| >= HEADER_SIZE
  {
    forall k :: (if Protected(h) then 56 else 48) <= k < HEADER_SIZE ==> d[k] == 0
  }

  predicate HeaderOk(h: Header, fileSize: nat) {
    && h.version == 2 && (h.kind == 1 || h.kind == 2) && h.arch == 1 && h.headerSize == HEADER_SIZE && h.flags <= 3
    && (Protected(h) ==> h.kind == 1)
    && h.fileSize == fileSize
    && h.blockCount != 0 && h.entrySize == EntrySize(h) && (Protected(h) ==> h.blockCount <= MAX_PROTECTED_BLOCKS)
    && h.tableOffset % 4 == 0 && h.tableOffset >= HEADER_SIZE && TableEnd(h) <= fileSize
  }

  // ---- the block table ----

  datatype Entry = Entry(addr: U32, offset: U32, size: U32, perm: U32)

  function EntryAt(d: seq<Byte>, at: nat, prot: bool): Entry
    requires at + (if prot then 16 else 12) <= |d|
  {
    Entry(Be32(d, at), Be32(d, at + 4), Be32(d, at + 8), if prot then Be32(d, at + 12) else 0)
  }

  lemma EntryInTable(h: Header, k: nat)
    requires k < h.blockCount
    ensures h.tableOffset + k * EntrySize(h) + EntrySize(h) <= TableEnd(h)
  {
  }

  function Entries(d: seq<Byte>, h: Header): (es: seq<Entry>)
    requires TableEnd(h) <= |d|
    ensures |es| == h.blockCount
  {
    seq<Entry>(h.blockCount, (k: nat) requires k < h.blockCount =>
      EntryInTable(h, k); EntryAt(d, h.tableOffset + k * EntrySize(h), Protected(h)))
  }

  predicate EntryOk(h: Header, e: Entry) {
    && e.size != 0 && (Protected(h) ==> 1 <= e.perm <= 7) && e.addr + e.size <= LIMIT
    && e.offset % 4 == 0 && TableEnd(h) <= e.offset && e.offset + e.size <= h.fileSize
  }

  /** Load ranges are ascending and disjoint. */
  predicate Ascending(es: seq<Entry>) {
    forall i, j :: 0 <= i < j < |es| ==> es[i].addr + es[i].size <= es[j].addr
  }

  predicate EntriesOk(h: Header, es: seq<Entry>) {
    (forall k :: 0 <= k < |es| ==> EntryOk(h, es[k])) && Ascending(es)
  }

  // ---- what else is in the file ----

  predicate DebugOk(h: Header) {
    && (h.debugSize != 0 <==> HasDebug(h))
    && (h.debugSize == 0 ==> h.debugOffset == 0)
    && (h.debugSize != 0 ==> h.debugOffset % 4 == 0 && TableEnd(h) <= h.debugOffset && h.debugOffset + h.debugSize <= h.fileSize)
  }

  /** A stretch of the file, `end` exclusive. */
  datatype Span = Span(start: nat, end: nat)

  predicate Apart(a: Span, b: Span) {
    a.end <= b.start || b.end <= a.start
  }

  predicate PairwiseApart(s: seq<Span>) {
    forall i, j :: 0 <= i < j < |s| ==> Apart(s[i], s[j])
  }

  function EntrySpans(es: seq<Entry>): seq<Span> {
    seq(|es|, (k: nat) requires k < |es| => Span(es[k].offset, es[k].offset + es[k].size))
  }

  /** The table, the payloads and the debug block. */
  function Spans(h: Header, es: seq<Entry>): seq<Span> {
    [Span(h.tableOffset, TableEnd(h))] + EntrySpans(es)
    + if h.debugSize == 0 then [] else [Span(h.debugOffset, h.debugOffset + h.debugSize)]
  }

  predicate Holds(e: Entry, a: nat) {
    e.addr <= a < e.addr + e.size
  }

  predicate EntryPointOk(h: Header, es: seq<Entry>) {
    && (IsLib(h) ==> h.base == 0 && h.entryOffset == 0)
    && (!IsLib(h) ==> es != [] && h.base == es[0].addr && exists k :: 0 <= k < |es| && Holds(es[k], h.base + h.entryOffset))
    && h.base + h.entryOffset < LIMIT
  }

  /** Bit 0 of a permission is R, bit 1 W and bit 2 X. */
  predicate Executable(perm: U32) { perm / 4 % 2 == 1 }

  predicate StackOk(h: Header, es: seq<Entry>) {
    && h.stackSize != 0 && h.stackSize % 4 == 0 && h.stackTop % 4 == 0
    && h.stackTop <= CPU_RESERVED && h.stackSize <= h.stackTop
    && (forall k :: 0 <= k < |es| ==>
          Apart(Span(h.stackTop - h.stackSize, h.stackTop), Span(es[k].addr, es[k].addr + es[k].size))
          && es[k].addr + es[k].size <= CPU_RESERVED)
    && exists k :: 0 <= k < |es| && Holds(es[k], h.base + h.entryOffset) && Executable(es[k].perm)
  }

  predicate BodyOk(h: Header, es: seq<Entry>) {
    && EntriesOk(h, es) && DebugOk(h) && PairwiseApart(Spans(h, es)) && EntryPointOk(h, es)
    && (Protected(h) ==> StackOk(h, es))
  }

  predicate WellFormed(d: seq<Byte>) {
    && |d| >= HEADER_SIZE && d[..4] == Magic()
    && var h := HeaderOf(d);
       HeaderOk(h, |d|) && ReservedClear(d, h) && BodyOk(h, Entries(d, h))
  }

  // ---- the image ----

  datatype Block = Block(addr: U32, data: seq<Byte>, perm: U32)
  datatype Protection = Protection(stackTop: U32, stackSize: U32)
  datatype Image = Image(
    isLib: bool, base: U32, entry: U32, blocks: seq<Block>, debug: seq<Byte>, protection: Option<Protection>)

  function BlockOf(d: seq<Byte>, e: Entry): Block
    requires e.offset + e.size <= |d|
  {
    Block(e.addr, d[e.offset..e.offset + e.size], e.perm)
  }

  function BlocksOf(d: seq<Byte>, es: seq<Entry>): (bs: seq<Block>)
    requires forall k :: 0 <= k < |es| ==> es[k].offset + es[k].size <= |d|
    ensures |bs| == |es|
  {
    seq<Block>(|es|, (k: nat) requires k < |es| => BlockOf(d, es[k]))
  }

  function ImageOf(d: seq<Byte>): Image
    requires WellFormed(d)
  {
    var h := HeaderOf(d);
    Image(IsLib(h), h.base, h.base + h.entryOffset, BlocksOf(d, Entries(d, h)),
          d[h.debugOffset..h.debugOffset + h.debugSize],
          if Protected(h) then Some(Protection(h.stackTop, h.stackSize)) else None)
  }

  // ---- what a loader may rely on ----

  predicate InBlock(b: Block, a: nat) {
    b.addr <= a < b.addr + |b.data|
  }

  /** Blocks are not empty, do not wrap around, ascend and do not overlap; an executable starts in one
      of them; the stack of a protected image and its blocks keep apart below the reserved range,
      and it starts in an executable block. */
  predicate Loadable(image: Image) {
    && BlocksApart(image.blocks)
    && (!image.isLib ==> exists k :: 0 <= k < |image.blocks| && InBlock(image.blocks[k], image.entry))
    && (image.protection.Some? ==> StackFits(image.protection.value, image.blocks, image.entry))
  }

  predicate BlocksApart(blocks: seq<Block>) {
    && (forall k :: 0 <= k < |blocks| ==> |blocks[k].data| > 0 && blocks[k].addr + |blocks[k].data| <= LIMIT)
    && (forall i, j :: 0 <= i < j < |blocks| ==> blocks[i].addr + |blocks[i].data| <= blocks[j].addr)
  }

  predicate StackFits(p: Protection, blocks: seq<Block>, entry: nat) {
    && 0 < p.stackSize <= p.stackTop <= CPU_RESERVED && |blocks| <= MAX_PROTECTED_BLOCKS
    && (forall k :: 0 <= k < |blocks| ==>
          && blocks[k].addr + |blocks[k].data| <= CPU_RESERVED && 1 <= blocks[k].perm <= 7
          && Apart(Span(p.stackTop - p.stackSize, p.stackTop), Span(blocks[k].addr, blocks[k].addr + |blocks[k].data|)))
    && exists k :: 0 <= k < |blocks| && InBlock(blocks[k], entry) && Executable(blocks[k].perm)
  }

  lemma BlocksAreEntries(d: seq<Byte>, es: seq<Entry>, k: nat)
    requires forall j :: 0 <= j < |es| ==> es[j].offset + es[j].size <= |d|
    requires k < |es|
    ensures var b := BlocksOf(d, es)[k]; b.addr == es[k].addr && |b.data| == es[k].size && b.perm == es[k].perm
  {
  }

  /** Each block has its entry's place, size and permission. */
  predicate Describes(es: seq<Entry>, bs: seq<Block>) {
    |bs| == |es| && forall k :: 0 <= k < |es| ==> bs[k].addr == es[k].addr && |bs[k].data| == es[k].size && bs[k].perm == es[k].perm
  }

  lemma AcceptedStack(h: Header, es: seq<Entry>, bs: seq<Block>)
    requires Describes(es, bs) && StackOk(h, es) && |es| <= MAX_PROTECTED_BLOCKS
    requires forall k :: 0 <= k < |es| ==> 1 <= es[k].perm <= 7
    ensures h.base + h.entryOffset < LIMIT ==> StackFits(Protection(h.stackTop, h.stackSize), bs, h.base + h.entryOffset)
  {
    var entry := h.base + h.entryOffset;
    var k :| 0 <= k < |es| && Holds(es[k], entry) && Executable(es[k].perm);
    assert InBlock(bs[k], entry) && Executable(bs[k].perm);
  }

  lemma AcceptedEntry(h: Header, es: seq<Entry>, bs: seq<Block>)
    requires Describes(es, bs) && EntryPointOk(h, es) && !IsLib(h)
    ensures exists k :: 0 <= k < |bs| && InBlock(bs[k], h.base + h.entryOffset)
  {
    var k :| 0 <= k < |es| && Holds(es[k], h.base + h.entryOffset);
    assert InBlock(bs[k], h.base + h.entryOffset);
  }

  lemma AcceptedRanges(h: Header, es: seq<Entry>, bs: seq<Block>)
    requires Describes(es, bs) && EntriesOk(h, es)
    ensures BlocksApart(bs)
  {
    forall k | 0 <= k < |bs| ensures |bs[k].data| > 0 && bs[k].addr + |bs[k].data| <= LIMIT {
      assert EntryOk(h, es[k]);
    }
  }

  lemma BlocksDescribed(d: seq<Byte>, es: seq<Entry>)
    requires forall j :: 0 <= j < |es| ==> es[j].offset + es[j].size <= |d|
    ensures Describes(es, BlocksOf(d, es))
  {
    forall k | 0 <= k < |es|
      ensures var b := BlocksOf(d, es)[k]; b.addr == es[k].addr && |b.data| == es[k].size && b.perm == es[k].perm
    {
      BlocksAreEntries(d, es, k);
    }
  }

  lemma EntriesInFile(h: Header, es: seq<Entry>)
    requires EntriesOk(h, es)
    ensures forall k :: 0 <= k < |es| ==> es[k].offset + es[k].size <= h.fileSize
  {
    forall k | 0 <= k < |es| ensures es[k].offset + es[k].size <= h.fileSize {
      assert EntryOk(h, es[k]);
    }
  }

  lemma PermsInRange(h: Header, es: seq<Entry>)
    requires Protected(h) && EntriesOk(h, es)
    ensures forall k :: 0 <= k < |es| ==> 1 <= es[k].perm <= 7
  {
    forall k | 0 <= k < |es| ensures 1 <= es[k].perm <= 7 {
      assert EntryOk(h, es[k]);
    }
  }

  /** Every accepted image can be loaded without any block touching another. */
  lemma AcceptedIsLoadable(d: seq<Byte>)
    requires WellFormed(d)
    ensures Loadable(ImageOf(d))
  {
    hide BlocksOf, Entries, HeaderOf, EntriesOk, EntryPointOk, StackOk, StackFits, BlocksApart, ReservedClear, DebugOk, Spans, Describes;
    var h := HeaderOf(d);
    var es, bs := Entries(d, h), ImageOf(d).blocks;
    EntriesInFile(h, es);
    BlocksDescribed(d, es);
    AcceptedRanges(h, es, bs);
    if !IsLib(h) {
      AcceptedEntry(h, es, bs);
    }
    if Protected(h) {
      PermsInRange(h, es);
      AcceptedStack(h, es, bs);
    }
  }

  // ---- protection regions ----

  /** One protection region; flags are R, W and X bits. */
  datatype UserRegion = UserRegion(start: nat, end: nat, flags: U32)

  function RegionOf(b: Block): UserRegion {
    UserRegion(b.addr, b.addr + |b.data|, b.perm)
  }

  function BlockRegions(blocks: seq<Block>): (rs: seq<UserRegion>)
    ensures |rs| == |blocks|
  {
    seq<UserRegion>(|blocks|, (k: nat) requires k < |blocks| => RegionOf(blocks[k]))
  }

  /** `user_regions`: the stack, readable and writable, then the blocks in table order. */
  function UserRegions(p: Protection, blocks: seq<Block>): (rs: seq<UserRegion>)
    requires p.stackSize <= p.stackTop
    ensures |rs| == |blocks| + 1
  {
    [UserRegion(p.stackTop - p.stackSize, p.stackTop, 3)] + BlockRegions(blocks)
  }

  predicate RegionHolds(r: UserRegion, a: nat) {
    r.start <= a < r.end
  }

  /** A region grants address `a` with these flags. */
  predicate Granted(rs: seq<UserRegion>, a: nat, flags: U32) {
    exists i :: 0 <= i < |rs| && RegionHolds(rs[i], a) && rs[i].flags == flags
  }

  predicate BlockGrants(blocks: seq<Block>, a: nat, flags: U32) {
    exists k :: 0 <= k < |blocks| && InBlock(blocks[k], a) && blocks[k].perm == flags
  }

  lemma RegionAt(p: Protection, blocks: seq<Block>, i: nat)
    requires p.stackSize <= p.stackTop && i <= |blocks|
    ensures UserRegions(p, blocks)[i]
         == if i == 0 then UserRegion(p.stackTop - p.stackSize, p.stackTop, 3) else RegionOf(blocks[i - 1])
  {
    if i > 0 {
      assert UserRegions(p, blocks)[i] == BlockRegions(blocks)[i - 1];
    }
  }

  /** A protected image yields at most 8 regions; they fit the region registers and do not overlap. */
  lemma RegionsFit(image: Image, i: nat, j: nat)
    requires Loadable(image) && image.protection.Some? && i < j < |UserRegions(image.protection.value, image.blocks)|
    ensures var rs := UserRegions(image.protection.value, image.blocks);
            && |rs| <= 8 && rs[i].start < rs[i].end <= CPU_RESERVED && rs[j].start < rs[j].end <= CPU_RESERVED
            && Apart(Span(rs[i].start, rs[i].end), Span(rs[j].start, rs[j].end))
  {
    var p, blocks := image.protection.value, image.blocks;
    RegionAt(p, blocks, i);
    RegionAt(p, blocks, j);
    if i > 0 {
      assert blocks[i - 1].addr + |blocks[i - 1].data| <= blocks[j - 1].addr;
    }
  }

  /** They grant an address exactly if it is on the stack (R and W) or in a block (with the block's
      permissions). */
  lemma RegionsAreExact(image: Image, a: nat, flags: U32)
    requires Loadable(image) && image.protection.Some?
    ensures var p := image.protection.value;
            Granted(UserRegions(p, image.blocks), a, flags) <==>
              (p.stackTop - p.stackSize <= a < p.stackTop && flags == 3) || BlockGrants(image.blocks, a, flags)
  {
    hide UserRegions, BlocksApart;
    var p, blocks := image.protection.value, image.blocks;
    var rs := UserRegions(p, blocks);
    RegionAt(p, blocks, 0);
    if BlockGrants(blocks, a, flags) {
      var k :| 0 <= k < |blocks| && InBlock(blocks[k], a) && blocks[k].perm == flags;
      RegionAt(p, blocks, k + 1);
      assert RegionHolds(rs[k + 1], a);
    } else if p.stackTop - p.stackSize <= a < p.stackTop && flags == 3 {
      assert RegionHolds(rs[0], a);
    }
    if Granted(rs, a, flags) {
      var i :| 0 <= i < |rs| && RegionHolds(rs[i], a) && rs[i].flags == flags;
      RegionAt(p, blocks, i);
      if i > 0 {
        assert InBlock(blocks[i - 1], a);
      }
    }
  }
}
