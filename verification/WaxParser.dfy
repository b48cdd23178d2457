/** The parser, which accepts exactly the well-formed files, and the loader. */
module WaxParser {
  import opened Bytes
  import opened Wrappers
  import opened WaxFormat
  import WaxSpans

  type Checked = Result<(), string>

  method CheckHeader(d: seq<Byte>, h: Header) returns (r: Checked)
    requires |d| >= HEADER_SIZE && h == HeaderOf(d)
    ensures r.Ok? <==> HeaderOk(h, |d|) && ReservedClear(d, h)
  {
    if h.version != 2 {
      return Err("unsupported version");
    }
    if h.kind != 1 && h.kind != 2 {
      return Err("bad type");
    }
    if h.arch != 1 {
      return Err("bad arch");
    }
    if h.headerSize != HEADER_SIZE {
      return Err("bad header_size");
    }
    if h.flags > 3 {
      return Err("bad flags");
    }
    if Protected(h) && h.kind != 1 {
      return Err("PROTECTED is only valid for .wax executables");
    }
    var k := if Protected(h) then 56 else 48;
    while k < HEADER_SIZE
      invariant (if Protected(h) then 56 else 48) <= k <= HEADER_SIZE
      invariant forall j :: (if Protected(h) then 56 else 48) <= j < k ==> d[j] == 0
    {
      if d[k] != 0 {
        return Err("reserved header bytes must be 0");
      }
      k := k + 1;
    }
    r := CheckSizes(h, |d|);
  }

  method CheckSizes(h: Header, fileSize: nat) returns (r: Checked)
    requires h.version == 2 && (h.kind == 1 || h.kind == 2) && h.arch == 1 && h.headerSize == HEADER_SIZE && h.flags <= 3
    requires Protected(h) ==> h.kind == 1
    ensures r.Ok? <==> HeaderOk(h, fileSize)
  {
    if h.fileSize != fileSize {
      return Err("file_size mismatch");
    }
    if h.blockCount == 0 {
      return Err("empty block table");
    }
    if h.entrySize != EntrySize(h) {
      return Err("bad block_entry_size");
    }
    if Protected(h) && h.blockCount > MAX_PROTECTED_BLOCKS {
      return Err("protected WAX allows at most 7 blocks");
    }
    if h.tableOffset % 4 != 0 || h.tableOffset < HEADER_SIZE {
      return Err("block table misaligned or inside header");
    }
    if TableEnd(h) > fileSize {
      return Err("block table out of range");
    }
    return Ok(());
  }

  /** One table entry. */
  method CheckEntry(h: Header, e: Entry, previousEnd: Option<nat>) returns (r: Checked)
    ensures r.Ok? <==> EntryOk(h, e) && (previousEnd.Some? ==> previousEnd.value <= e.addr)
  {
    if e.size == 0 {
      return Err("empty data block");
    }
    if Protected(h) && (e.perm == 0 || e.perm > 7) {
      return Err("protected block permission must be a nonzero R/W/X mask");
    }
    if e.addr + e.size > LIMIT {
      return Err("block address range wraps u32");
    }
    if previousEnd.Some? && e.addr < previousEnd.value {
      return Err("blocks overlap or are not address-sorted");
    }
    if e.offset % 4 != 0 {
      return Err("block payload misaligned");
    }
    if e.offset < TableEnd(h) || e.offset + e.size > h.fileSize {
      return Err("block payload out of range");
    }
    return Ok(());
  }

  method ReadEntry(d: seq<Byte>, h: Header, index: nat) returns (e: Entry)
    requires index < h.blockCount && TableEnd(h) <= |d|
    ensures e == Entries(d, h)[index]
  {
    EntryInTable(h, index);
    e := EntryAt(d, h.tableOffset + index * EntrySize(h), Protected(h));
  }

  /** The table loop: checks each entry against the end of the one before, and collects blocks. */
  method ParseTable(d: seq<Byte>, h: Header) returns (r: Checked, blocks: seq<Block>)
    requires |d| >= HEADER_SIZE && HeaderOk(h, |d|)
    ensures r.Ok? <==> EntriesOk(h, Entries(d, h))
    ensures r.Ok? ==> Fits(d, Entries(d, h)) && blocks == BlocksOf(d, Entries(d, h))
  {
    ghost var es := Entries(d, h);
    blocks := [];
    var previousEnd: Option<nat> := None;
    var index := 0;
    while index < h.blockCount
      invariant index <= h.blockCount && Parsed(d, h, es, blocks, index)
      invariant previousEnd == if index == 0 then None else Some(es[index - 1].addr + es[index - 1].size)
    {
      var e := ReadEntry(d, h, index);
      r := CheckEntry(h, e, previousEnd);
      if r.Err? {
        NotAscending(h, es, index);
        return;
      }
      OneMoreEntry(d, h, es, blocks, index);
      previousEnd := Some(e.addr + e.size);
      blocks := blocks + [BlockOf(d, e)];
      index := index + 1;
    }
    r := Ok(());
    AllParsed(d, h, es, blocks);
  }

  /** The first `n` entries are fine, and these are their blocks. */
  ghost predicate Parsed(d: seq<Byte>, h: Header, es: seq<Entry>, blocks: seq<Block>, n: nat) {
    && n <= |es| && |blocks| == n
    && (forall k :: 0 <= k < n ==> EntryOk(h, es[k]) && es[k].offset + es[k].size <= |d| && blocks[k] == BlockOf(d, es[k]))
    && (forall i, j :: 0 <= i < j < n ==> es[i].addr + es[i].size <= es[j].addr)
  }

  lemma OneMoreEntry(d: seq<Byte>, h: Header, es: seq<Entry>, blocks: seq<Block>, n: nat)
    requires Parsed(d, h, es, blocks, n) && n < |es| && h.fileSize == |d| && EntryOk(h, es[n])
    requires n > 0 ==> es[n - 1].addr + es[n - 1].size <= es[n].addr
    ensures es[n].offset + es[n].size <= |d| && Parsed(d, h, es, blocks + [BlockOf(d, es[n])], n + 1)
  {
  }

  lemma NotAscending(h: Header, es: seq<Entry>, n: nat)
    requires n < |es| && !(EntryOk(h, es[n]) && (n > 0 ==> es[n - 1].addr + es[n - 1].size <= es[n].addr))
    ensures !EntriesOk(h, es)
  {
  }

  lemma AllParsed(d: seq<Byte>, h: Header, es: seq<Entry>, blocks: seq<Block>)
    requires Parsed(d, h, es, blocks, |es|)
    ensures EntriesOk(h, es) && Fits(d, es) && blocks == BlocksOf(d, es)
  {
  }

  predicate Fits(d: seq<Byte>, es: seq<Entry>) {
    forall k :: 0 <= k < |es| ==> es[k].offset + es[k].size <= |d|
  }

  method CheckDebug(h: Header) returns (r: Checked)
    ensures r.Ok? <==> DebugOk(h)
  {
    if (h.debugSize != 0) != HasDebug(h) {
      return Err("debug flag/size mismatch");
    }
    if h.debugSize == 0 {
      if h.debugOffset != 0 {
        return Err("debug_offset must be 0 when debug is absent");
      }
      return Ok(());
    }
    if h.debugOffset % 4 != 0 || h.debugOffset < TableEnd(h) {
      return Err("debug block misaligned or overlaps metadata");
    }
    if h.debugOffset + h.debugSize > h.fileSize {
      return Err("debug block out of range");
    }
    return Ok(());
  }

  method CheckSpans(h: Header, es: seq<Entry>) returns (r: Checked)
    requires EntriesOk(h, es) && DebugOk(h) && h.blockCount != 0
    ensures r.Ok? <==> PairwiseApart(Spans(h, es))
  {
    var spans := Spans(h, es);
    forall k | 0 <= k < |spans| ensures spans[k].start < spans[k].end {
      SpanIsInside(h, es, k);
    }
    var ok := WaxSpans.SpansApart(spans);
    return if ok then Ok(()) else Err("overlapping file blocks");
  }

  lemma SpanIsInside(h: Header, es: seq<Entry>, k: nat)
    requires EntriesOk(h, es) && h.blockCount != 0 && k < |Spans(h, es)|
    ensures Spans(h, es)[k].start < Spans(h, es)[k].end
  {
    if 0 < k <= |es| {
      assert Spans(h, es)[k] == EntrySpans(es)[k - 1];
      assert EntryOk(h, es[k - 1]);
    }
  }

  /** Whether some block holds an address; the first such block. */
  method FindBlock(es: seq<Entry>, a: nat) returns (k: Option<nat>)
    ensures k.Some? ==> k.value < |es| && Holds(es[k.value], a)
    ensures k.None? ==> forall j :: 0 <= j < |es| ==> !Holds(es[j], a)
  {
    var i := 0;
    while i < |es|
      invariant i <= |es| && forall j :: 0 <= j < i ==> !Holds(es[j], a)
    {
      if Holds(es[i], a) {
        return Some(i);
      }
      i := i + 1;
    }
    return None;
  }

  method CheckEntryPoint(h: Header, es: seq<Entry>) returns (r: Checked)
    requires es != []
    ensures r.Ok? <==> EntryPointOk(h, es)
  {
    if IsLib(h) && (h.base != 0 || h.entryOffset != 0) {
      return Err(".wal base/entry must be 0");
    }
    if !IsLib(h) && h.base != es[0].addr {
      return Err("base must equal the lowest WAX block address");
    }
    var entry := h.base + h.entryOffset;
    if entry >= LIMIT {
      return Err("entry address wraps u32");
    }
    if !IsLib(h) {
      var k := FindBlock(es, entry);
      if k.None? {
        return Err("entry outside image blocks");
      }
    }
    return Ok(());
  }

  /** `validate_protection`. */
  method CheckProtection(h: Header, es: seq<Entry>) returns (r: Checked)
    requires Ascending(es) && forall k :: 0 <= k < |es| ==> es[k].size > 0
    ensures r.Ok? <==> StackOk(h, es)
  {
    if h.stackSize == 0 || h.stackSize % 4 != 0 || h.stackTop % 4 != 0 {
      return Err("protected stack top/size must be nonzero multiples of 4");
    }
    if h.stackTop > CPU_RESERVED || h.stackSize > h.stackTop {
      return Err("protected stack lies outside user-addressable memory");
    }
    var stack := Span(h.stackTop - h.stackSize, h.stackTop);
    var i := 0;
    while i < |es|
      invariant i <= |es| && forall k :: 0 <= k < i ==> Apart(stack, Span(es[k].addr, es[k].addr + es[k].size))
    {
      if stack.start < es[i].addr + es[i].size && es[i].addr < stack.end {
        return Err("protected stack overlaps an image block");
      }
      i := i + 1;
    }
    i := 0;
    while i < |es|
      invariant i <= |es| && forall k :: 0 <= k < i ==> es[k].addr + es[k].size <= CPU_RESERVED
    {
      if es[i].addr + es[i].size > CPU_RESERVED {
        return Err("protected block reaches the CPU-reserved area");
      }
      i := i + 1;
    }
    var entry := FindBlock(es, h.base + h.entryOffset);
    if entry.None? || !Executable(es[entry.value].perm) {
      return Err("protected entry must lie in an executable block");
    }
    return Ok(());
  }

  method CheckBody(h: Header, es: seq<Entry>) returns (r: Checked)
    requires EntriesOk(h, es) && es != [] && h.blockCount != 0
    ensures r.Ok? <==> BodyOk(h, es)
  {
    r := CheckDebug(h);
    if r.Err? {
      return;
    }
    r := CheckSpans(h, es);
    if r.Err? {
      return;
    }
    r := CheckEntryPoint(h, es);
    if r.Err? || !Protected(h) {
      return;
    }
    forall k | 0 <= k < |es| ensures es[k].size > 0 {
      assert EntryOk(h, es[k]);
    }
    r := CheckProtection(h, es);
  }

  /** `parse`: accepts exactly the well-formed files, and returns the image they stand for. */
  method Parse(d: seq<Byte>) returns (r: Result<Image, string>)
    ensures r.Ok? <==> WellFormed(d)
    ensures r.Ok? ==> r.value == ImageOf(d)
  {
    if |d| < HEADER_SIZE {
      return Err("too small for WAX header");
    }
    if d[..4] != Magic() {
      return Err("bad magic (not WAX)");
    }
    var h := HeaderOf(d);
    var checked := CheckHeader(d, h);
    if checked.Err? {
      return Err(checked.error);
    }
    var blocks;
    checked, blocks := ParseTable(d, h);
    if checked.Err? {
      return Err(checked.error);
    }
    checked := CheckBody(h, Entries(d, h));
    if checked.Err? {
      return Err(checked.error);
    }
    return Ok(Image(IsLib(h), h.base, h.base + h.entryOffset, blocks, d[h.debugOffset..h.debugOffset + h.debugSize],
                    if Protected(h) then Some(Protection(h.stackTop, h.stackSize)) else None));
  }

  // ---- loading ----

  /** The byte some block puts at an address. */
  function Loaded(blocks: seq<Block>, a: nat): Option<Byte> {
    if blocks == [] then None
    else if InBlock(blocks[|blocks| - 1], a) then Some(blocks[|blocks| - 1].data[a - blocks[|blocks| - 1].addr])
    else Loaded(blocks[..|blocks| - 1], a)
  }

  /** `m` with the bytes `data` written from `at` on. */
  ghost predicate Wrote(m: map<nat, Byte>, n: map<nat, Byte>, at: nat, data: seq<Byte>) {
    && (forall a :: at <= a < at + |data| ==> a in n && n[a] == data[a - at])
    && (forall a :: !(at <= a < at + |data|) ==> (a in n <==> a in m) && (a in m ==> n[a] == m[a]))
  }

  method WriteBytes(m: map<nat, Byte>, at: nat, data: seq<Byte>) returns (n: map<nat, Byte>)
    ensures Wrote(m, n, at, data)
  {
    n := m;
    for k := 0 to |data|
      invariant forall a :: at <= a < at + k ==> a in n && n[a] == data[a - at]
      invariant forall a :: !(at <= a < at + k) ==> (a in n <==> a in m) && (a in m ==> n[a] == m[a])
    {
      n := n[at + k := data[k]];
    }
  }

  /** `load_bytes`: a raw file goes to address 0; the blocks of an unprotected executable go to their
      addresses, and no other byte of memory changes; anything else is refused and changes nothing. */
  method LoadBytes(m: map<nat, Byte>, d: seq<Byte>) returns (r: Result<nat, string>, n: map<nat, Byte>)
    requires |d| <= LIMIT
    ensures !(|d| >= 4 && d[..4] == Magic()) ==> r == Ok(0) && Wrote(m, n, 0, d)
    ensures |d| >= 4 && d[..4] == Magic() ==>
              && (r.Ok? <==> WellFormed(d) && !ImageOf(d).isLib && ImageOf(d).protection.None?)
              && (r.Err? ==> n == m)
              && (r.Ok? ==> r.value == ImageOf(d).entry && LoadedOver(m, n, ImageOf(d).blocks))
  {
    n := m;
    if !(|d| >= 4 && d[..4] == Magic()) {
      n := WriteBytes(m, 0, d);
      return Ok(0), n;
    }
    var parsed := Parse(d);
    if parsed.Err? {
      return Err(parsed.error), n;
    }
    var image := parsed.value;
    if image.isLib {
      return Err("cannot execute .wal library"), n;
    }
    if image.protection.Some? {
      return Err("protected WAX must be started by the BIOS WAX loader"), n;
    }
    n := WriteBlocks(m, image.blocks);
    return Ok(image.entry), n;
  }

  /** `n` is `m` with the blocks loaded over it. */
  ghost predicate LoadedOver(m: map<nat, Byte>, n: map<nat, Byte>, blocks: seq<Block>) {
    forall a: nat ::
      var b := Loaded(blocks, a);
      (a in n <==> b.Some? || a in m) && (a in n ==> n[a] == if b.Some? then b.value else m[a])
  }

  lemma OneMoreBlock(m: map<nat, Byte>, n: map<nat, Byte>, next: map<nat, Byte>, blocks: seq<Block>, b: Block)
    requires LoadedOver(m, n, blocks) && Wrote(n, next, b.addr, b.data)
    ensures LoadedOver(m, next, blocks + [b])
  {
    assert (blocks + [b])[..|blocks|] == blocks;
    forall a: nat
      ensures var x := Loaded(blocks + [b], a);
              (a in next <==> x.Some? || a in m) && (a in next ==> next[a] == if x.Some? then x.value else m[a])
    {
    }
  }

  method WriteBlocks(m: map<nat, Byte>, blocks: seq<Block>) returns (n: map<nat, Byte>)
    ensures LoadedOver(m, n, blocks)
  {
    n := m;
    for k := 0 to |blocks|
      invariant LoadedOver(m, n, blocks[..k])
    {
      var next := WriteBytes(n, blocks[k].addr, blocks[k].data);
      OneMoreBlock(m, n, next, blocks[..k], blocks[k]);
      assert blocks[..k + 1] == blocks[..k] + [blocks[k]];
      n := next;
    }
    assert blocks[..|blocks|] == blocks;
  }

  /** Blocks that keep apart are all loaded: every byte of every block, and nothing else. */
  lemma {:induction false} LoadedIsExact(blocks: seq<Block>, a: nat)
    requires BlocksApart(blocks)
    ensures Loaded(blocks, a).Some? <==> exists k :: 0 <= k < |blocks| && InBlock(blocks[k], a)
    ensures forall k :: 0 <= k < |blocks| && InBlock(blocks[k], a) ==> Loaded(blocks, a) == Some(blocks[k].data[a - blocks[k].addr])
  {
    if blocks != [] {
      var n := |blocks| - 1;
      LoadedIsExact(blocks[..n], a);
      if InBlock(blocks[n], a) {
        forall k | 0 <= k < n ensures !InBlock(blocks[k], a) {
          assert blocks[k].addr + |blocks[k].data| <= blocks[n].addr;
        }
      } else {
        forall k | 0 <= k < |blocks| && InBlock(blocks[k], a)
          ensures Loaded(blocks, a) == Some(blocks[k].data[a - blocks[k].addr])
        {
          assert blocks[..n][k] == blocks[k];
        }
      }
    }
  }
}
