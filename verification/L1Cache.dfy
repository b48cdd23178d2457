/** The split L1 cache in place: two banks of tags, snooped by stores and by other bus masters. */
module L1Cache {
  import opened Isa
  import opened L1Tags

  class BankUnit {
    const tags: array<Word>
    var enabled: bool
    var hits: Word
    var misses: Word

    ghost predicate Valid()
      reads this
    {
      tags.Length == SLOTS
    }

    ghost function Value(): (b: Bank)
      requires Valid()
      reads this, tags
      ensures Shaped(b)
    {
      Bank(tags[..], enabled, hits, misses)
    }

    constructor ()
      ensures Valid() && fresh(tags) && Value() == NewBank()
    {
      tags := new Word[SLOTS](_ => INVALID);
      enabled, hits, misses := true, 0, 0;
    }

    /** Looks a line up and allocates it on a miss. */
    method Lookup(pa: Word) returns (hit: bool)
      requires Valid()
      modifies this`hits, this`misses, tags
      ensures Valid() && Value() == AccessLine(old(Value()), pa) && hit == Hits(old(Value()), pa)
    {
      hit := tags[Index(pa)] == Tag(pa);
      if hit {
        hits := Plus(hits, 1);
      } else {
        tags[Index(pa)] := Tag(pa);
        misses := Plus(misses, 1);
      }
    }

    method Clear()
      requires Valid()
      modifies tags
      ensures Valid() && Value() == InvalidateAll(old(Value()))
    {
      forall k | 0 <= k < tags.Length {
        tags[k] := INVALID;
      }
      assert tags[..] == seq(SLOTS, _ => INVALID);
    }

    method ClearLine(pa: Word)
      requires Valid()
      modifies tags
      ensures Valid() && Value() == InvalidateLine(old(Value()), pa)
    {
      if tags[Index(pa)] == Tag(pa) {
        tags[Index(pa)] := INVALID;
      }
    }

    method SwitchTo(on: bool)
      requires Valid()
      modifies this`enabled, tags
      ensures Valid() && Value() == SetEnabled(old(Value()), on)
    {
      if enabled != on {
        Clear();
      }
      enabled := on;
    }
  }

  class Cache {
    const i: BankUnit
    const d: BankUnit
    /** Cacheable addresses, `ramEnd` exclusive. */
    const ramStart: Word
    const ramEnd: Word
    const missPenalty: Word

    ghost predicate Valid()
      reads this, i, d
    {
      i != d && i.tags != d.tags && i.Valid() && d.Valid()
    }

    constructor (ramStart: Word, ramSize: Word, missPenalty: Word)
      ensures Valid() && fresh(i) && fresh(d) && fresh(i.tags) && fresh(d.tags)
      ensures i.Value() == NewBank() && d.Value() == NewBank()
      ensures this.ramStart == ramStart && ramEnd == if ramStart + ramSize < 0x1_0000_0000 then ramStart + ramSize else 0xFFFF_FFFF
    {
      i := new BankUnit();
      d := new BankUnit();
      this.ramStart := ramStart;
      ramEnd := if ramStart + ramSize < 0x1_0000_0000 then ramStart + ramSize else 0xFFFF_FFFF;
      this.missPenalty := missPenalty;
    }

    predicate Cacheable(pa: Word) {
      ramStart <= pa < ramEnd
    }

    /** Instruction fetch: stall cycles. */
    method Fetch(pa: Word) returns (stall: Word)
      requires Valid()
      modifies i, i.tags
      ensures Valid()
      ensures var reached := old(i.enabled) && Cacheable(pa);
              && i.Value() == (if reached then AccessLine(old(i.Value()), pa) else old(i.Value()))
              && stall == if reached && !Hits(old(i.Value()), pa) then missPenalty else 0
    {
      if !i.enabled || !Cacheable(pa) {
        return 0;
      }
      var hit := i.Lookup(pa);
      return if hit then 0 else missPenalty;
    }

    /** Data load: stall cycles. */
    method Load(pa: Word) returns (stall: Word)
      requires Valid()
      modifies d, d.tags
      ensures Valid()
      ensures var reached := old(d.enabled) && Cacheable(pa);
              && d.Value() == (if reached then AccessLine(old(d.Value()), pa) else old(d.Value()))
              && stall == if reached && !Hits(old(d.Value()), pa) then missPenalty else 0
    {
      if !d.enabled || !Cacheable(pa) {
        return 0;
      }
      var hit := d.Lookup(pa);
      return if hit then 0 else missPenalty;
    }

    /** A write-through store allocates nothing, but the instruction bank drops the line. */
    method Store(pa: Word)
      requires Valid()
      modifies i.tags
      ensures Valid() && d.Value() == old(d.Value())
      ensures i.Value() == (if Cacheable(pa) then InvalidateLine(old(i.Value()), pa) else old(i.Value()))
      ensures Cacheable(pa) ==> !Hits(i.Value(), pa)
    {
      if Cacheable(pa) {
        i.ClearLine(pa);
      }
    }

    /** Another bus master wrote `len` bytes at `pa`. The snoop carries the index only: exactly the
        slots of the touched lines are emptied, in both banks and whatever line they held. So
        neither bank holds a line that overlaps the range, and the loop ends for every range, also
        at the end of the address space. */
    method ExternalWrite(pa: Word, len: Word)
      requires Valid()
      modifies i.tags, d.tags
      ensures Valid()
      ensures forall qa: Word :: pa <= qa < pa + len ==> !Hits(i.Value(), qa) && !Hits(d.Value(), qa)
      ensures forall k :: 0 <= k < SLOTS ==> i.tags[k] == if Touched(pa, len, k) then INVALID else old(i.tags[k])
      ensures forall k :: 0 <= k < SLOTS ==> d.tags[k] == if Touched(pa, len, k) then INVALID else old(d.tags[k])
    {
      hide Touched, Hits, Swept, Aligned, LineOf;
      var line := LineOf(pa);
      var end: Word := WriteEnd(pa, len);
      ghost var done: nat := line;
      NoneSwept(pa, done);
      while line < end
        invariant Aligned(line) && LineOf(pa) <= line
        invariant line == done && (line == LineOf(pa) || line - LINE < end)
        invariant forall k :: 0 <= k < SLOTS ==> i.tags[k] == if Swept(pa, done, k) then INVALID else old(i.tags[k])
        invariant forall k :: 0 <= k < SLOTS ==> d.tags[k] == if Swept(pa, done, k) then INVALID else old(d.tags[k])
        decreases end - line
      {
        var k := Index(line);
        i.tags[k] := INVALID;
        d.tags[k] := INVALID;
        SweepLine(pa, line);
        NextLine(line);
        done := done + LINE;
        line := Plus(line, LINE);
        if line == 0 {
          break;
        }
      }
      SweptIsTouched(pa, len, done);
      NoneHit(i.Value(), pa, len);
      NoneHit(d.Value(), pa, len);
    }

    /** CACHE_CTRL; other registers ignore writes. Bits: 0 and 1 enable, 8 and 9 invalidate, 10
        clears the counters. */
    method WriteReg(offset: Word, value: Word)
      requires Valid()
      modifies i, i.tags, d, d.tags
      ensures Valid()
      ensures offset != 4 ==> i.Value() == old(i.Value()) && d.Value() == old(d.Value())
      ensures offset == 4 ==>
                && i.Value() == Controlled(old(i.Value()), value % 2 == 1, value / 0x100 % 2 == 1, value / 0x400 % 2 == 1)
                && d.Value() == Controlled(old(d.Value()), value / 2 % 2 == 1, value / 0x200 % 2 == 1, value / 0x400 % 2 == 1)
    {
      if offset != 4 {
        return;
      }
      i.SwitchTo(value % 2 == 1);
      d.SwitchTo(value / 2 % 2 == 1);
      if value / 0x100 % 2 == 1 {
        i.Clear();
      }
      if value / 0x200 % 2 == 1 {
        d.Clear();
      }
      if value / 0x400 % 2 == 1 {
        i.hits, i.misses, d.hits, d.misses := 0, 0, 0, 0;
      }
    }
  }

  predicate Aligned(a: nat) {
    a % LINE == 0
  }

  /** Where the line of `pa` starts. */
  function LineOf(pa: Word): (line: Word)
    ensures Aligned(line) && line <= pa < line + LINE
  {
    pa - pa % LINE
  }

  lemma NextLine(line: Word)
    requires Aligned(line)
    ensures Plus(line, LINE) == (if line + LINE < 0x1_0000_0000 then line + LINE else 0) && Aligned(line + LINE)
    ensures line + LINE <= 0x1_0000_0000
  {
  }

  /** Where a write ends, saturating at the last address. */
  function WriteEnd(pa: Word, len: Word): Word {
    if pa + len < 0x1_0000_0000 then pa + len else 0xFFFF_FFFF
  }

  /** Slot `k` belongs to a line that the write of `len` bytes at `pa` touches. */
  ghost predicate Touched(pa: Word, len: Word, k: nat) {
    exists line: Word :: TouchedBy(pa, len, line) && Index(line) == k
  }

  predicate TouchedBy(pa: Word, len: Word, line: Word) {
    Aligned(line) && LineOf(pa) <= line < WriteEnd(pa, len)
  }

  /** A write leaves the caches alone if and only if it has no bytes and starts a line: one without
      bytes in the middle of a line still empties the slot of that line. */
  lemma NothingTouchedIff(pa: Word, len: Word)
    ensures (forall k :: 0 <= k < SLOTS ==> !Touched(pa, len, k)) <==> len == 0 && pa % LINE == 0
  {
    assert 0 <= Index(LineOf(pa)) < SLOTS;
    if len != 0 || pa % LINE != 0 {
      assert TouchedBy(pa, len, LineOf(pa));
      assert Touched(pa, len, Index(LineOf(pa)));
    }
  }

  /** Slot `k` belongs to a line of the sweep from the line of `pa` up to `done`. */
  ghost predicate Swept(pa: Word, done: nat, k: nat) {
    exists line: Word :: Aligned(line) && LineOf(pa) <= line < done && Index(line) == k
  }

  lemma NoneSwept(pa: Word, done: nat)
    requires done == LineOf(pa)
    ensures forall k :: 0 <= k < SLOTS ==> !Swept(pa, done, k)
  {
  }

  lemma SweepLine(pa: Word, line: Word)
    requires Aligned(line) && LineOf(pa) <= line
    ensures forall k :: 0 <= k < SLOTS ==> (Swept(pa, line + LINE, k) <==> Swept(pa, line, k) || k == Index(line))
  {
    forall k | 0 <= k < SLOTS
      ensures Swept(pa, line + LINE, k) <==> Swept(pa, line, k) || k == Index(line)
    {
      if other: Word :| Aligned(other) && LineOf(pa) <= other < line + LINE && Index(other) == k {
        assert other < line || other == line;
      }
    }
  }

  /** The sweep has touched exactly the lines of the write when it is behind the end, or has come to
      the end of the address space. */
  lemma SweptIsTouched(pa: Word, len: Word, done: nat)
    requires Aligned(done) && WriteEnd(pa, len) <= done
    requires done == LineOf(pa) || done - LINE < WriteEnd(pa, len)
    ensures forall k :: 0 <= k < SLOTS ==> (Swept(pa, done, k) <==> Touched(pa, len, k))
  {
    forall line: Word | Aligned(line) && LineOf(pa) <= line
      ensures line < done <==> line < WriteEnd(pa, len)
    {
      AlignedGap(line, done);
    }
  }

  lemma AlignedGap(a: nat, b: nat)
    requires Aligned(a) && Aligned(b)
    ensures a < b ==> a <= b - LINE
  {
  }

  lemma SameSlot(qa: Word)
    ensures Index(LineOf(qa)) == Index(qa)
  {
  }

  lemma LinesAscend(pa: Word, qa: Word)
    requires pa <= qa
    ensures LineOf(pa) <= LineOf(qa)
  {
  }

  /** With the touched slots empty, no byte of the write is in the bank. */
  lemma NoneHit(b: Bank, pa: Word, len: Word)
    requires Shaped(b) && forall k :: 0 <= k < SLOTS && Touched(pa, len, k) ==> b.tags[k] == INVALID
    ensures forall qa: Word :: pa <= qa < pa + len ==> !Hits(b, qa)
  {
    forall qa: Word | pa <= qa < pa + len ensures !Hits(b, qa) {
      SameSlot(qa);
      LinesAscend(pa, qa);
      assert TouchedBy(pa, len, LineOf(qa));
      assert Touched(pa, len, Index(qa));
    }
  }

  /** A bank after a control write. */
  function Controlled(b: Bank, on: bool, clear: bool, clearCounts: bool): Bank
    requires Shaped(b)
  {
    var s := SetEnabled(b, on);
    var t := if clear then InvalidateAll(s) else s;
    if clearCounts then t.(hits := 0, misses := 0) else t
  }

  /** A control write leaves the bank on or off as told. Its lines survive only if it stays on or off and is
      not told to drop them, and its counters unless it is told to clear them. */
  lemma ControlledIs(b: Bank, on: bool, clear: bool, clearCounts: bool)
    requires Shaped(b)
    ensures var c := Controlled(b, on, clear, clearCounts);
            && c.enabled == on && Shaped(c)
            && (if clear || on != b.enabled then forall pa: Word :: !Hits(c, pa) else c.tags == b.tags)
            && c.hits == (if clearCounts then 0 else b.hits) && c.misses == (if clearCounts then 0 else b.misses)
  {
  }

  /** The touched slots are those of the lines of 32 bytes from the one with the first byte on, as long as they
      begin before the end of the write. */
  lemma TouchedIs(pa: Word, len: Word, k: nat)
    ensures Touched(pa, len, k) <==>
              exists n: nat :: pa / 32 <= n && n * 32 < pa + len && n * 32 < 0xFFFF_FFFF && n % 256 == k
  {
    hide Index, LineOf, Aligned;
    if line: Word :| TouchedBy(pa, len, line) && Index(line) == k {
      var n := LineNumber(line);
      NumberedLine(pa, n);
      assert pa / 32 <= n && n * 32 < pa + len && n * 32 < 0xFFFF_FFFF && n % 256 == k;
    }
    if n: nat :| pa / 32 <= n && n * 32 < pa + len && n * 32 < 0xFFFF_FFFF && n % 256 == k {
      NumberedLine(pa, n);
      assert TouchedBy(pa, len, n * 32) && Index(n * 32) == k;
    }
  }

  lemma LineNumber(line: Word) returns (n: nat)
    requires Aligned(line)
    ensures line == n * 32
  {
    n := line / 32;
  }

  lemma NumberedLine(pa: Word, n: nat)
    requires n * 32 < 0x1_0000_0000
    ensures Aligned(n * 32) && (LineOf(pa) <= n * 32 <==> pa / 32 <= n) && Index(n * 32) == n % 256
  {
  }
}
