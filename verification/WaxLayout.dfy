/** Accepted WAX files byte by byte: where each part of the image stands in the file. */
module WaxLayout {
  import opened Bytes
  import opened WaxFormat
  import opened Wrappers

  /** Numbers are stored most significant byte first. */
  function Half(d: seq<Byte>, at: nat): nat
    requires at + 2 <= |d|
  {
    var high: nat, low: nat := d[at], d[at + 1];
    high * 0x100 + low
  }

  function Full(d: seq<Byte>, at: nat): nat
    requires at + 4 <= |d|
  {
    Half(d, at) * 0x1_0000 + Half(d, at + 2)
  }

  lemma NumbersAre(d: seq<Byte>, at: nat)
    ensures at + 2 <= |d| ==> Be16(d, at) == Half(d, at)
    ensures at + 4 <= |d| ==> Be32(d, at) == Full(d, at)
  {
  }

  /** The fixed part of an accepted file, and what it says about the image. */
  lemma HeaderBytes(d: seq<Byte>)
    requires WellFormed(d)
    ensures var image := ImageOf(d);
            && |d| >= 64 && d[..4] == [0x57, 0x41, 0x58, 0x00] && Half(d, 4) == 2 && Half(d, 8) == 1 && Full(d, 12) == 64
            && Full(d, 44) == |d| && Half(d, 10) <= 3
            && (Half(d, 6) == if image.isLib then 2 else 1)
            && image.base == Full(d, 16) && image.entry == Full(d, 16) + Full(d, 20) && |image.blocks| == Full(d, 28)
            && (image.protection.Some? <==> Half(d, 10) / 2 % 2 == 1)
            && (image.protection.Some? ==> image.protection.value == Protection(Full(d, 48), Full(d, 52)))
            && (image.debug != [] <==> Half(d, 10) % 2 == 1)
            && Full(d, 36) + Full(d, 40) <= |d| && image.debug == d[Full(d, 36)..Full(d, 36) + Full(d, 40)]
            && forall k :: (if image.protection.Some? then 56 else 48) <= k < 64 ==> d[k] == 0
  {
    NumbersAre(d, 4);
    NumbersAre(d, 6);
    NumbersAre(d, 8);
    NumbersAre(d, 10);
    NumbersAre(d, 12);
    NumbersAre(d, 16);
    NumbersAre(d, 20);
    NumbersAre(d, 28);
    NumbersAre(d, 36);
    NumbersAre(d, 40);
    NumbersAre(d, 44);
    NumbersAre(d, 48);
    NumbersAre(d, 52);
  }

  /** Block `k`: its table entry has 16 bytes in a protected file and 12 in any other. */
  lemma BlockBytes(d: seq<Byte>, k: nat, image: Image, at: nat)
    requires WellFormed(d) && image == ImageOf(d) && k < |image.blocks|
    requires at == Full(d, 24) + k * (if image.protection.Some? then 16 else 12)
    ensures at + 12 <= |d| && (image.protection.Some? ==> at + 16 <= |d|)
    ensures var start, size, b := Full(d, at + 4), Full(d, at + 8), image.blocks[k];
            && size > 0 && start % 4 == 0 && start + size <= |d|
            && b.addr == Full(d, at) && b.data == d[start..start + size]
            && b.perm == (if image.protection.Some? then Full(d, at + 12) else 0)
  {
    hide HeaderOf, Spans, DebugOk, EntryPointOk, StackOk, ReservedClear, Ascending, PairwiseApart, Be32, Full;
    var h := HeaderOf(d);
    TableAt(d, h);
    EntryInTable(h, k);
    var es := Entries(d, h);
    EntriesInFile(h, es);
    assert EntryOk(h, es[k]);
    EntryBytes(d, at, Protected(h));
  }

  lemma TableAt(d: seq<Byte>, h: Header)
    requires |d| >= HEADER_SIZE && h == HeaderOf(d)
    ensures h.tableOffset == Full(d, 24)
  {
    NumbersAre(d, 24);
  }

  lemma EntryBytes(d: seq<Byte>, at: nat, prot: bool)
    requires at + (if prot then 16 else 12) <= |d|
    ensures EntryAt(d, at, prot) == Entry(Full(d, at), Full(d, at + 4), Full(d, at + 8), if prot then Full(d, at + 12) else 0)
  {
    NumbersAre(d, at);
    NumbersAre(d, at + 4);
    NumbersAre(d, at + 8);
    if prot {
      NumbersAre(d, at + 12);
    }
  }

  /** What is asked of a table entry: a block that is not empty and ends within the address space, with
      permissions if the file is protected, whose payload is aligned and in the file behind the table. */
  lemma EntryConditions(h: Header, e: Entry)
    ensures EntryOk(h, e) <==>
              && e.size > 0 && e.addr + e.size <= 0x1_0000_0000
              && (h.flags / 2 % 2 == 1 ==> e.perm in {1, 2, 3, 4, 5, 6, 7})
              && e.offset % 4 == 0 && h.tableOffset + h.blockCount * (if h.flags / 2 % 2 == 1 then 16 else 12) <= e.offset
              && e.offset + e.size <= h.fileSize
  {
  }

  predicate InPayload(e: Entry, i: nat) {
    e.offset <= i < e.offset + e.size
  }

  /** No byte of the file belongs to two of table, blocks and debug section. */
  lemma PartsApart(d: seq<Byte>, h: Header, es: seq<Entry>, i: nat, k: nat, j: nat)
    requires WellFormed(d) && h == HeaderOf(d) && es == Entries(d, h) && k < |es| && j < |es| && InPayload(es[k], i)
    ensures j != k ==> !InPayload(es[j], i)
    ensures !(h.tableOffset <= i < TableEnd(h))
    ensures !(h.debugOffset <= i < h.debugOffset + h.debugSize)
  {
    hide HeaderOf, Entries, EntriesOk, EntryPointOk, StackOk, ReservedClear, DebugOk, HeaderOk;
    SpansApart(h, es, k, j);
  }

  lemma SpansApart(h: Header, es: seq<Entry>, k: nat, j: nat)
    requires k < |es| && j < |es| && PairwiseApart(Spans(h, es))
    ensures var payload := Span(es[k].offset, es[k].offset + es[k].size);
            && Apart(Span(h.tableOffset, TableEnd(h)), payload)
            && (j != k ==> Apart(Span(es[j].offset, es[j].offset + es[j].size), payload))
            && (h.debugSize != 0 ==> Apart(payload, Span(h.debugOffset, h.debugOffset + h.debugSize)))
  {
    hide TableEnd, Apart;
    SpanAt(h, es, k);
    SpanAt(h, es, j);
    var s := Spans(h, es);
    assert Apart(s[0], s[k + 1]);
    if j < k {
      assert Apart(s[j + 1], s[k + 1]);
    } else if k < j {
      assert Apart(s[k + 1], s[j + 1]);
      ApartIsMutual(s[k + 1], s[j + 1]);
    }
    if h.debugSize != 0 {
      assert Apart(s[k + 1], s[|es| + 1]);
    }
  }

  lemma ApartIsMutual(a: Span, b: Span)
    ensures Apart(a, b) == Apart(b, a)
  {
  }

  lemma SpanAt(h: Header, es: seq<Entry>, k: nat)
    requires k < |es|
    ensures var s := Spans(h, es);
            && |s| == |es| + (if h.debugSize == 0 then 1 else 2) && s[0] == Span(h.tableOffset, TableEnd(h))
            && s[k + 1] == Span(es[k].offset, es[k].offset + es[k].size)
            && (h.debugSize != 0 ==> s[|es| + 1] == Span(h.debugOffset, h.debugOffset + h.debugSize))
  {
    assert Spans(h, es)[k + 1] == EntrySpans(es)[k];
  }
}
