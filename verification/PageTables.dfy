/** Access checks of user code in terms of the words of the page tables. */
module PageTables {
  import opened Isa
  import opened Wrappers
  import opened Numbers
  import opened Tlb
  import P = Privilege

  // ---- table words ----

  /** Bit 0 says that an entry is there; bits 6 and 7 are reserved. */
  predicate Present(w: Word) {
    w % 2 == 1 && w / 0x40 % 4 == 0
  }

  /** A leaf permits something, and does not permit writing without reading. */
  predicate LeafShaped(leaf: Word) {
    Present(leaf) && leaf / 2 % 8 != 0 && (leaf / 4 % 2 == 1 ==> leaf / 2 % 2 == 1)
  }

  /** `leaf` is the second-level entry for address `va`: bits 31 to 22 of the address select the first-level
      entry, which carries no permissions, and bits 21 to 12 the second-level one. */
  ghost predicate HasLeaf(ptbr: Word, tables: Memory, va: Word, leaf: Word) {
    && var root := tables(ptbr / 0x1000 * 0x1000 + va / 0x40_0000 * 4);
    && root.Some? && Present(root.value) && root.value / 2 % 8 == 0
    && tables(root.value / 0x1000 * 0x1000 + va / 0x1000 % 0x400 * 4) == Some(leaf)
    && LeafShaped(leaf)
  }

  /** Bit 4 lets user code in, bit 1 to read, bit 2 to write, bit 3 to fetch; the page is below the
      reserved range. */
  predicate LeafAllows(leaf: Word, access: Access) {
    && leaf / 0x10 % 2 == 1
    && leaf / (match access case Read => 2 case Write => 4 case Fetch => 8) % 2 == 1
    && leaf / 0x1000 * 0x1000 < 0xFFFF_0000
  }

  ghost predicate ByteAllowed(ptbr: Word, tables: Memory, va: Word, access: Access) {
    va < 0xFFFF_0000 && exists leaf: Word :: HasLeaf(ptbr, tables, va, leaf) && LeafAllows(leaf, access)
  }

  lemma BitIs(w: Word)
    ensures Bit(w, 0) == (w % 2 == 1) && Bit(w, 1) == (w / 2 % 2 == 1) && Bit(w, 2) == (w / 4 % 2 == 1)
    ensures Bit(w, 3) == (w / 8 % 2 == 1) && Bit(w, 4) == (w / 0x10 % 2 == 1)
    ensures Bit(w, 6) == (w / 0x40 % 2 == 1) && Bit(w, 7) == (w / 0x80 % 2 == 1)
  {
  }

  lemma ManyBits(w: Word)
    ensures w / 2 % 8 == 0 <==> w / 2 % 2 == 0 && w / 4 % 2 == 0 && w / 8 % 2 == 0
    ensures w / 0x40 % 4 == 0 <==> w / 0x40 % 2 == 0 && w / 0x80 % 2 == 0
  {
    LowBits(w / 2);
    LowBits(w / 0x40);
    Shifted(w);
  }

  lemma Shifted(w: Word)
    ensures w / 2 / 2 == w / 4 && w / 2 / 4 == w / 8 && w / 0x40 / 2 == w / 0x80
  {
  }

  lemma LowBits(n: nat)
    ensures n % 8 == 0 <==> n % 2 == 0 && n / 2 % 2 == 0 && n / 4 % 2 == 0
    ensures n % 4 == 0 <==> n % 2 == 0 && n / 2 % 2 == 0
  {
    LowDigits(n);
  }

  lemma WalkAddresses(table: Word, va: Word)
    ensures TableAddress(table, PageOf(va)) == table / 0x1000 * 0x1000 + va / 0x40_0000 * 4
    ensures LeafAddress(table, PageOf(va)) == table / 0x1000 * 0x1000 + va / 0x1000 % 0x400 * 4
  {
    Slots(va);
    PageStart(table);
  }

  lemma Slots(va: Word)
    ensures va / PAGE / 1024 == va / 0x40_0000 && va / PAGE % 1024 == va / 0x1000 % 0x400
  {
  }

  lemma PageStart(table: Word)
    ensures table - table % PAGE == table / 0x1000 * 0x1000 && table - table % PAGE <= 0xFFFF_F000
  {
  }

  /** The walk finds exactly the leaf. */
  lemma WalkFindsLeaf(ptbr: Word, tables: Memory, va: Word)
    ensures forall leaf: Word :: HasLeaf(ptbr, tables, va, leaf) ==> Walk(ptbr, PageOf(va), tables) == EntryOf(va, leaf)
    ensures Walk(ptbr, PageOf(va), tables).Found? ==> exists leaf: Word :: HasLeaf(ptbr, tables, va, leaf)
  {
    hide Bit, LeafOf, TableAddress, LeafAddress;
    WalkAddresses(ptbr, va);
    var root := tables(TableAddress(ptbr, PageOf(va)));
    if root.Some? {
      ManyBits(root.value);
      BitIs(root.value);
      WalkAddresses(root.value, va);
      var leaf := tables(LeafAddress(root.value, PageOf(va)));
      if leaf.Some? {
        LeafIs(va, leaf.value);
        assert HasLeaf(ptbr, tables, va, leaf.value) ==> Walk(ptbr, PageOf(va), tables) == EntryOf(va, leaf.value);
      }
    }
  }

  function EntryOf(va: Word, leaf: Word): Walked {
    Found(Entry(true, va / 0x1000, leaf / 0x1000, leaf / 2 % 2 == 1, leaf / 4 % 2 == 1, leaf / 8 % 2 == 1, leaf / 0x10 % 2 == 1))
  }

  lemma LeafIs(va: Word, leaf: Word)
    ensures LeafOf(PageOf(va), leaf) == if LeafShaped(leaf) then EntryOf(va, leaf) else Missing
  {
    hide Bit;
    ManyBits(leaf);
    BitIs(leaf);
  }

  // ---- accepted accesses ----

  lemma GrantedIsAllowed(ptbr: Word, tables: Memory, va: Word, access: Access)
    ensures PageGranted(ptbr, tables, PageOf(va), access) <==> ByteAllowed(ptbr, tables, va, access)
  {
    hide HasLeaf, Walk;
    WalkFindsLeaf(ptbr, tables, va);
    BelowReserved(va);
  }

  /** An access of user code with translation on is accepted exactly if every byte of it lies below the
      reserved range and has a leaf that allows it: user bit, the bit of the access, and a page below
      the reserved range. */
  lemma AcceptedIffAllowed(ptbr: Word, tables: Memory, addr: Word, len: nat, access: Access)
    requires 1 <= len <= 4
    ensures FreshCheck(ptbr, tables, addr, Plus(addr, len - 1), PageOf(addr), access).None? <==>
              addr + len <= 0xFFFF_0000 && forall va: Word :: addr <= va < addr + len ==> ByteAllowed(ptbr, tables, va, access)
  {
    hide FreshCheck, PageGranted, ByteAllowed;
    var last := Plus(addr, len - 1);
    CheckMeans(ptbr, tables, addr, last, PageOf(addr), access);
    if FreshCheck(ptbr, tables, addr, last, PageOf(addr), access).None? {
      AcceptedBytes(ptbr, tables, addr, len, access, len - 1);
      forall va: Word | addr <= va < addr + len ensures ByteAllowed(ptbr, tables, va, access) {
        AcceptedBytes(ptbr, tables, addr, len, access, va - addr);
        GrantedIsAllowed(ptbr, tables, va, access);
      }
    }
    if addr + len <= 0xFFFF_0000 && forall va: Word :: addr <= va < addr + len ==> ByteAllowed(ptbr, tables, va, access) {
      NearPages(addr, len - 1);
      GrantedIsAllowed(ptbr, tables, addr, access);
      GrantedIsAllowed(ptbr, tables, last, access);
    }
  }

  lemma NearPages(addr: nat, k: nat)
    requires k < 4
    ensures (addr + k) / PAGE == addr / PAGE || (addr + k) / PAGE == addr / PAGE + 1
  {
  }

  /** And its bytes are in the leaf's page. */
  lemma MappedByLeaf(ptbr: Word, tables: Memory, va: Word, leaf: Word)
    requires HasLeaf(ptbr, tables, va, leaf)
    ensures Walk(ptbr, PageOf(va), tables).Found?
    ensures Mapped(ptbr, tables, va) == leaf / 0x1000 * 0x1000 + va % 0x1000
  {
    WalkFindsLeaf(ptbr, tables, va);
  }

  // ---- refused accesses ----

  /** A table word that the walk for `va` needs cannot be read. */
  predicate Unreadable(ptbr: Word, tables: Memory, va: Word) {
    var root := tables(ptbr / 0x1000 * 0x1000 + va / 0x40_0000 * 4);
    || root.None?
    || (Present(root.value) && root.value / 2 % 8 == 0 && tables(root.value / 0x1000 * 0x1000 + va / 0x1000 % 0x400 * 4).None?)
  }

  /** Why the page of address `at` is refused, and the address reported for it. */
  ghost predicate RefusedAt(ptbr: Word, tables: Memory, at: Word, access: Access, e: Exception) {
    && !ByteAllowed(ptbr, tables, at, access)
    && e == if at < 0xFFFF_0000 && Unreadable(ptbr, tables, at) then BusError
            else PageFault(access, at >= 0xFFFF_0000 || exists leaf: Word :: HasLeaf(ptbr, tables, at, leaf), at)
  }

  lemma WalkReads(ptbr: Word, tables: Memory, va: Word)
    ensures Walk(ptbr, PageOf(va), tables).BusFault? <==> Unreadable(ptbr, tables, va)
  {
    hide Bit, LeafOf, TableAddress, LeafAddress;
    WalkAddresses(ptbr, va);
    var root := tables(TableAddress(ptbr, PageOf(va)));
    if root.Some? {
      ManyBits(root.value);
      BitIs(root.value);
      WalkAddresses(root.value, va);
      var leaf := tables(LeafAddress(root.value, PageOf(va)));
      if leaf.Some? {
        LeafIs(va, leaf.value);
      }
    }
  }

  lemma PageFaultMeans(ptbr: Word, tables: Memory, addr: Word, p: Vpn, at: Word, access: Access)
    requires at == FaultAddress(addr, p) && PageOf(at) == p
    ensures var e := FreshPage(ptbr, tables, addr, p, access);
            if e.None? then ByteAllowed(ptbr, tables, at, access) else RefusedAt(ptbr, tables, at, access, e.value)
  {
    hide HasLeaf, Walk, Unreadable;
    WalkFindsLeaf(ptbr, tables, at);
    WalkReads(ptbr, tables, at);
    BelowReserved(at);
  }

  /** A refused access of one to four bytes reports its first byte, or the first byte of its second page,
      whichever is refused first; a page fault's VFAULT and reason are that byte's. */
  lemma RefusalIsFirst(ptbr: Word, tables: Memory, addr: Word, len: nat, access: Access) returns (at: Word)
    requires 1 <= len <= 4
    requires FreshCheck(ptbr, tables, addr, Plus(addr, len - 1), PageOf(addr), access).Some?
    ensures at == addr || (addr < at < addr + len && at % 0x1000 == 0 && ByteAllowed(ptbr, tables, addr, access))
    ensures RefusedAt(ptbr, tables, at, access, FreshCheck(ptbr, tables, addr, Plus(addr, len - 1), PageOf(addr), access).value)
  {
    hide FreshPage, HasLeaf, LeafAllows;
    var p, last := PageOf(addr), Plus(addr, len - 1);
    NearPages(addr, len - 1);
    PageFaultMeans(ptbr, tables, addr, p, addr, access);
    if FreshPage(ptbr, tables, addr, p, access).Some? {
      at := addr;
    } else {
      assert addr + len <= 0x1_0000_0000;
      at := Base(p + 1);
      PageFaultMeans(ptbr, tables, addr, p + 1, at, access);
      assert FreshCheck(ptbr, tables, addr, last, p, access) == FreshCheck(ptbr, tables, addr, last, p + 1, access);
    }
  }

  // ---- the answer of the privilege unit ----

  /** A region that lets user code do this holds the byte. */
  ghost predicate InRegion(s: P.System, a: Word, access: Access) {
    a < 0xFFFF_0000 && exists n :: 0 <= n < 8 && s.regions[n].start <= a < s.regions[n].end
                                   && match access case Read => s.regions[n].r case Write => s.regions[n].w case Fetch => s.regions[n].x
  }

  /** Supervisor code may do anything; user code what the regions or the tables allow, and the exception
      says what was refused. */
  lemma AnswerMeans(s: P.System, tables: Memory, addr: Word, len: nat, access: Access)
    requires 1 <= len <= 4
    ensures var e := P.CheckAnswer(tables, s, addr, len, access);
            if !s.user then e.None?
            else if !s.vm.enabled then
              e == if forall k :: 0 <= k < len ==> InRegion(s, Plus(addr, k), access) then None else Some(ProtectionFault(access))
            else if addr + len <= 0xFFFF_0000 && forall va: Word :: addr <= va < addr + len ==> ByteAllowed(s.vm.ptbr, tables, va, access) then
              e.None?
            else e.Some? && exists at :: RefusedAt(s.vm.ptbr, tables, at, access, e.value)
  {
    hide ByteAllowed;
    if s.user && s.vm.enabled {
      AcceptedIffAllowed(s.vm.ptbr, tables, addr, len, access);
      if P.CheckAnswer(tables, s, addr, len, access).Some? {
        var at := RefusalIsFirst(s.vm.ptbr, tables, addr, len, access);
      }
    }
  }
}
