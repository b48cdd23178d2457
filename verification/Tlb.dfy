/**
 Extension V: the translation buffer, the table walk, and access checks of user code.
 */
module Tlb {
  import opened Isa
  import opened Wrappers

  const PAGE: nat := 4096
  const ENTRIES: nat := 16
  /** User code never reaches addresses from here on. */
  const RESERVED: nat := 0xFFFF_0000
  const PAGES: nat := 0x10_0000

  type Vpn = p: nat | p < 0x10_0000

  datatype Entry = Entry(valid: bool, vpn: Vpn, ppn: Vpn, r: bool, w: bool, x: bool, u: bool)

  function NoEntry(): Entry {
    Entry(false, 0, 0, false, false, false, false)
  }

  datatype Vm = Vm(enabled: bool, ptbr: Word, vfault: Word, tlb: seq<Entry>, next: nat)

  predicate Shaped(vm: Vm) {
    |vm.tlb| == ENTRIES && vm.next < ENTRIES
  }

  /** One aligned word of physical memory, or `None` on a bus error. */
  type Memory = Word -> Option<Word>

  function Bit(w: Word, k: nat): bool
    requires k <= 7
  {
    (w / [1, 2, 4, 8, 16, 32, 64, 128][k]) % 2 == 1
  }

  function PageOf(va: Word): Vpn {
    va / PAGE
  }

  function Base(p: Vpn): Word {
    p * PAGE
  }

  // ---- the buffer ----

  function FindFrom(tlb: seq<Entry>, vpn: Vpn, k: nat): (i: nat)
    requires k <= |tlb|
    ensures k <= i <= |tlb|
    ensures i < |tlb| ==> tlb[i].valid && tlb[i].vpn == vpn
    ensures forall j :: k <= j < i ==> !(tlb[j].valid && tlb[j].vpn == vpn)
    decreases |tlb| - k
  {
    if k == |tlb| || (tlb[k].valid && tlb[k].vpn == vpn) then k else FindFrom(tlb, vpn, k + 1)
  }

  /** The slot of a page: the first valid entry for it, if any. */
  function SlotOf(vm: Vm, vpn: Vpn): Option<nat> {
    var i := FindFrom(vm.tlb, vpn, 0);
    if i < |vm.tlb| then Some(i) else None
  }

  function Lookup(vm: Vm, vpn: Vpn): Option<Entry> {
    var s := SlotOf(vm, vpn);
    if s.Some? then Some(vm.tlb[s.value]) else None
  }

  function Fill(vm: Vm, e: Entry): (v: Vm)
    requires Shaped(vm)
    ensures Shaped(v)
  {
    vm.(tlb := vm.tlb[vm.next := e], next := (vm.next + 1) % ENTRIES)
  }

  function Flush(vm: Vm): (v: Vm)
    ensures Shaped(v)
  {
    vm.(tlb := seq(ENTRIES, _ => NoEntry()), next := 0)
  }

  function Invalidate(vm: Vm, va: Word): (v: Vm)
    requires Shaped(vm)
    ensures Shaped(v)
  {
    vm.(tlb := seq(ENTRIES, (i: nat) requires i < ENTRIES =>
      if vm.tlb[i].vpn == PageOf(va) then vm.tlb[i].(valid := false) else vm.tlb[i]))
  }

  // ---- the walk ----

  datatype Walked = BusFault | Missing | Found(entry: Entry)

  function LeafOf(vpn: Vpn, pte: Word): Walked {
    var r, w, x := Bit(pte, 1), Bit(pte, 2), Bit(pte, 3);
    if Bit(pte, 0) && !Bit(pte, 6) && !Bit(pte, 7) && (r || w || x) && (!w || r)
    then Found(Entry(true, vpn, pte / PAGE, r, w, x, Bit(pte, 4)))
    else Missing
  }

  function TableAddress(ptbr: Word, vpn: Vpn): Word {
    Plus(ptbr - ptbr % PAGE, vpn / 1024 * 4)
  }

  function LeafAddress(table: Word, vpn: Vpn): Word {
    Plus(table - table % PAGE, vpn % 1024 * 4)
  }

  /** The two-level table walk. */
  function Walk(ptbr: Word, vpn: Vpn, mem: Memory): Walked {
    var first := mem(TableAddress(ptbr, vpn));
    if first.None? then BusFault
    else if !Bit(first.value, 0) || Bit(first.value, 6) || Bit(first.value, 7)
            || Bit(first.value, 1) || Bit(first.value, 2) || Bit(first.value, 3) then Missing
    else
      var leaf := mem(LeafAddress(first.value, vpn));
      if leaf.None? then BusFault else LeafOf(vpn, leaf.value)
  }

  lemma WalkedEntry(ptbr: Word, vpn: Vpn, mem: Memory)
    ensures Walk(ptbr, vpn, mem).Found? ==> Walk(ptbr, vpn, mem).entry.valid && Walk(ptbr, vpn, mem).entry.vpn == vpn
  {
  }

  // ---- the invariant ----

  /** Valid entries are for different pages, and each is what a fresh walk would find. */
  predicate Consistent(vm: Vm, mem: Memory) {
    && Shaped(vm)
    && (forall i, j :: 0 <= i < j < ENTRIES && vm.tlb[i].valid && vm.tlb[j].valid ==> vm.tlb[i].vpn != vm.tlb[j].vpn)
    && (forall i :: 0 <= i < ENTRIES && vm.tlb[i].valid ==> Walk(vm.ptbr, vm.tlb[i].vpn, mem) == Found(vm.tlb[i]))
  }

  lemma LookupIsWalk(vm: Vm, vpn: Vpn, mem: Memory)
    requires Consistent(vm, mem)
    ensures Lookup(vm, vpn).Some? ==> Walk(vm.ptbr, vpn, mem) == Found(Lookup(vm, vpn).value)
  {
  }

  /** A missing page is filled with its walk. */
  lemma FillKeepsConsistent(vm: Vm, vpn: Vpn, mem: Memory)
    requires Consistent(vm, mem) && Lookup(vm, vpn).None? && Walk(vm.ptbr, vpn, mem).Found?
    ensures Consistent(Fill(vm, Walk(vm.ptbr, vpn, mem).entry), mem)
  {
    WalkedEntry(vm.ptbr, vpn, mem);
  }

  lemma FlushIsConsistent(vm: Vm, mem: Memory)
    ensures Consistent(Flush(vm), mem)
  {
  }

  /** The tables changed, but only for one page, and that page is invalidated. */
  lemma InvalidateKeepsConsistent(vm: Vm, va: Word, mem: Memory, changed: Memory)
    requires Consistent(vm, mem)
    requires forall p: Vpn :: p != PageOf(va) ==> Walk(vm.ptbr, p, changed) == Walk(vm.ptbr, p, mem)
    ensures Consistent(Invalidate(vm, va), changed)
  {
    var v := Invalidate(vm, va);
    forall i | 0 <= i < ENTRIES && v.tlb[i].valid ensures Walk(v.ptbr, v.tlb[i].vpn, changed) == Found(v.tlb[i]) {
      assert v.tlb[i] == vm.tlb[i];
    }
  }

  // ---- access checks ----

  function Grants(e: Entry, access: Access): bool {
    match access
    case Read => e.r
    case Write => e.w
    case Fetch => e.x
  }

  predicate Denied(e: Entry, access: Access) {
    !e.u || !Grants(e, access) || Base(e.ppn) >= RESERVED
  }

  /** The address a fault in page `p` is reported for. */
  function FaultAddress(addr: Word, p: Vpn): Word {
    if p == PageOf(addr) then addr else Base(p)
  }

  /** One page of a check: the buffer afterwards, and the fault if there is one. */
  function CheckPage(vm: Vm, mem: Memory, addr: Word, p: Vpn, access: Access): (Vm, Option<Exception>)
    requires Shaped(vm)
  {
    var fault := FaultAddress(addr, p);
    if Base(p) >= RESERVED then (vm, Some(PageFault(access, true, fault)))
    else
      var hit := Lookup(vm, p);
      if hit.Some? then (vm, if Denied(hit.value, access) then Some(PageFault(access, true, fault)) else None)
      else
        match Walk(vm.ptbr, p, mem)
        case BusFault => (vm, Some(BusError))
        case Missing => (vm, Some(PageFault(access, false, fault)))
        case Found(e) => (Fill(vm, e), if Denied(e, access) then Some(PageFault(access, true, fault)) else None)
  }

  /** `check_access` with translation on, from page `p` to the page of the last byte. Pages of the
      reserved range fault, so it never goes beyond the last page. */
  function CheckPages(vm: Vm, mem: Memory, addr: Word, last: Word, p: Vpn, access: Access): (r: (Vm, Option<Exception>))
    requires Shaped(vm)
    ensures Shaped(r.0) && r.0 == vm.(tlb := r.0.tlb, next := r.0.next)
    decreases PAGES - p
  {
    var (v, fault) := CheckPage(vm, mem, addr, p, access);
    if fault.Some? || p == PageOf(last) then (v, fault) else CheckPages(v, mem, addr, last, p + 1, access)
  }

  /** The same check without a buffer: one page, and all of them. */
  function FreshPage(ptbr: Word, mem: Memory, addr: Word, p: Vpn, access: Access): Option<Exception> {
    var fault := FaultAddress(addr, p);
    if Base(p) >= RESERVED then Some(PageFault(access, true, fault))
    else
      match Walk(ptbr, p, mem)
      case BusFault => Some(BusError)
      case Missing => Some(PageFault(access, false, fault))
      case Found(e) => if Denied(e, access) then Some(PageFault(access, true, fault)) else None
  }

  function FreshCheck(ptbr: Word, mem: Memory, addr: Word, last: Word, p: Vpn, access: Access): Option<Exception>
    decreases PAGES - p
  {
    var fault := FreshPage(ptbr, mem, addr, p, access);
    if fault.Some? || p == PageOf(last) then fault
    else FreshCheck(ptbr, mem, addr, last, p + 1, access)
  }

  lemma PageKeepsConsistent(vm: Vm, mem: Memory, addr: Word, p: Vpn, access: Access)
    requires Consistent(vm, mem)
    ensures var (v, fault) := CheckPage(vm, mem, addr, p, access);
            Consistent(v, mem) && v.ptbr == vm.ptbr && fault == FreshPage(vm.ptbr, mem, addr, p, access)
  {
    LookupIsWalk(vm, p, mem);
    if Base(p) < RESERVED && Lookup(vm, p).None? && Walk(vm.ptbr, p, mem).Found? {
      FillKeepsConsistent(vm, p, mem);
    }
  }

  /** The buffer is invisible: a check answers what it would without one, and keeps it consistent. */
  lemma {:induction false} CheckIsFresh(vm: Vm, mem: Memory, addr: Word, last: Word, p: Vpn, access: Access)
    requires Consistent(vm, mem)
    ensures CheckPages(vm, mem, addr, last, p, access).1 == FreshCheck(vm.ptbr, mem, addr, last, p, access)
    ensures Consistent(CheckPages(vm, mem, addr, last, p, access).0, mem)
    decreases PAGES - p
  {
    PageKeepsConsistent(vm, mem, addr, p, access);
    var (v, fault) := CheckPage(vm, mem, addr, p, access);
    if fault.Some? || p == PageOf(last) {
    } else {
      CheckIsFresh(v, mem, addr, last, p + 1, access);
    }
  }

  /** What an accepted check means for one page of the access. */
  predicate PageGranted(ptbr: Word, mem: Memory, p: Vpn, access: Access) {
    Base(p) < RESERVED && Walk(ptbr, p, mem).Found? && !Denied(Walk(ptbr, p, mem).entry, access)
  }

  /** A check passes exactly if every page up to the last byte's is granted, and an access that wraps
      around the address space never passes. */
  lemma {:induction false} CheckMeans(ptbr: Word, mem: Memory, addr: Word, last: Word, p: Vpn, access: Access)
    ensures FreshCheck(ptbr, mem, addr, last, p, access).None? <==>
              p <= PageOf(last) && forall q: Vpn :: p <= q <= PageOf(last) ==> PageGranted(ptbr, mem, q, access)
    decreases PAGES - p
  {
    hide Walk, Denied, FaultAddress, PageOf;
    if !PageGranted(ptbr, mem, p, access) {
      assert FreshCheck(ptbr, mem, addr, last, p, access).Some?;
    } else if p != PageOf(last) {
      CheckMeans(ptbr, mem, addr, last, p + 1, access);
      if p <= PageOf(last) && forall q: Vpn :: p + 1 <= q <= PageOf(last) ==> PageGranted(ptbr, mem, q, access) {
        assert forall q: Vpn :: p <= q <= PageOf(last) ==> PageGranted(ptbr, mem, q, access);
      }
    }
  }

  lemma NotThere(vm: Vm, p: Vpn)
    requires forall i :: 0 <= i < |vm.tlb| && vm.tlb[i].valid ==> vm.tlb[i].vpn != p
    ensures Lookup(vm, p).None?
  {
  }

  /** One page of a check, and the pages behind it; there is a next page unless this one faults. */
  lemma NextPage(vm: Vm, mem: Memory, addr: Word, last: Word, p: Vpn, access: Access)
    requires Shaped(vm)
    ensures var (v, fault) := CheckPage(vm, mem, addr, p, access);
            && Shaped(v) && (fault.None? ==> p + 1 < PAGES)
            && CheckPages(vm, mem, addr, last, p, access)
               == if fault.Some? || p == PageOf(last) then (v, fault) else CheckPages(v, mem, addr, last, p + 1, access)
  {
  }

  // ---- physical addresses ----

  /** `physical`: a page that is not in the buffer reads as page 0. */
  function Physical(vm: Vm, va: Word): Word {
    var e := Lookup(vm, PageOf(va));
    Base(if e.Some? then e.value.ppn else 0) + va % PAGE
  }

  /** Where the tables say the byte is. */
  function Mapped(ptbr: Word, mem: Memory, va: Word): Word
    requires Walk(ptbr, PageOf(va), mem).Found?
  {
    Base(Walk(ptbr, PageOf(va), mem).entry.ppn) + va % PAGE
  }

  /** Every byte of an accepted access of 1 to 4 bytes is below the reserved range, virtually and
      physically, and its page's leaf is a user leaf with the needed permission. */
  lemma AcceptedBytes(ptbr: Word, mem: Memory, addr: Word, len: nat, access: Access, k: nat)
    requires k < len <= 4 && FreshCheck(ptbr, mem, addr, Plus(addr, len - 1), PageOf(addr), access).None?
    ensures var va := Plus(addr, k);
            && va == addr + k < RESERVED && PageGranted(ptbr, mem, PageOf(va), access)
            && Mapped(ptbr, mem, va) < RESERVED
  {
    AcceptedPages(ptbr, mem, addr, len, access, k);
    GrantedByte(ptbr, mem, Plus(addr, k), access);
  }

  lemma AcceptedPages(ptbr: Word, mem: Memory, addr: Word, len: nat, access: Access, k: nat)
    requires k < len <= 4 && FreshCheck(ptbr, mem, addr, Plus(addr, len - 1), PageOf(addr), access).None?
    ensures Plus(addr, k) == addr + k && PageGranted(ptbr, mem, PageOf(Plus(addr, k)), access)
  {
    CheckMeans(ptbr, mem, addr, Plus(addr, len - 1), PageOf(addr), access);
    assert PageGranted(ptbr, mem, PageOf(addr), access);
    NoWrap(addr, len, k);
  }

  lemma GrantedByte(ptbr: Word, mem: Memory, va: Word, access: Access)
    requires PageGranted(ptbr, mem, PageOf(va), access)
    ensures va < RESERVED && Mapped(ptbr, mem, va) < RESERVED
  {
    BelowReserved(va);
    var ppn := Walk(ptbr, PageOf(va), mem).entry.ppn;
    PageBytes(ppn, va % PAGE);
    BelowReserved(Base(ppn) + va % PAGE);
  }

  lemma PageBytes(p: Vpn, offset: nat)
    requires offset < PAGE
    ensures Base(p) + offset < 0x1_0000_0000 && PageOf(Base(p) + offset) == p
  {
  }

  lemma NoWrap(addr: Word, len: nat, k: nat)
    requires k < len <= 4 && Base(PageOf(addr)) < RESERVED
    ensures Plus(addr, k) == addr + k && PageOf(addr) <= PageOf(Plus(addr, k)) <= PageOf(Plus(addr, len - 1))
  {
    BelowReserved(addr);
  }

  /** The reserved range begins at a page. */
  lemma BelowReserved(va: Word)
    ensures Base(PageOf(va)) < RESERVED <==> va < RESERVED
  {
  }

  /** After an accepted access inside one page, `physical` is the tables' answer. */
  lemma SinglePagePhysical(vm: Vm, mem: Memory, addr: Word, last: Word, access: Access, va: Word)
    requires Consistent(vm, mem) && PageOf(addr) == PageOf(last) == PageOf(va)
    requires CheckPages(vm, mem, addr, last, PageOf(addr), access).1.None?
    ensures Walk(vm.ptbr, PageOf(va), mem).Found?
    ensures Physical(CheckPages(vm, mem, addr, last, PageOf(addr), access).0, va) == Mapped(vm.ptbr, mem, va)
  {
    var p := PageOf(addr);
    LookupIsWalk(vm, p, mem);
    PageKeepsConsistent(vm, mem, addr, p, access);
    var v := CheckPage(vm, mem, addr, p, access).0;
    InBuffer(vm, mem, addr, p, access);
    LookupIsWalk(v, p, mem);
  }

  /** An accepted page is in the buffer right after its part of the check. */
  lemma InBuffer(vm: Vm, mem: Memory, addr: Word, p: Vpn, access: Access)
    requires Consistent(vm, mem) && CheckPage(vm, mem, addr, p, access).1.None?
    ensures Lookup(CheckPage(vm, mem, addr, p, access).0, p).Some?
    ensures Lookup(vm, p).None? ==> SlotOf(CheckPage(vm, mem, addr, p, access).0, p) == Some(vm.next)
  {
    if Lookup(vm, p).None? {
      WalkedEntry(vm.ptbr, p, mem);
      var v := CheckPage(vm, mem, addr, p, access).0;
      assert v.tlb[vm.next].valid && v.tlb[vm.next].vpn == p;
      FilledSlot(vm, v.tlb[vm.next]);
    }
  }

  lemma FilledSlot(vm: Vm, e: Entry)
    requires Shaped(vm) && e.valid && Lookup(vm, e.vpn).None?
    ensures SlotOf(Fill(vm, e), e.vpn) == Some(vm.next)
  {
    var v := Fill(vm, e);
    assert v.tlb[vm.next].valid && v.tlb[vm.next].vpn == e.vpn;
    assert forall i :: 0 <= i < vm.next ==> v.tlb[i] == vm.tlb[i];
  }

  // ---- accesses that cross a page ----

  /** The second page's fill takes the first page's slot. The caller can see this beforehand. */
  predicate Evicts(vm: Vm, p: Vpn, q: Vpn) {
    SlotOf(vm, p) == Some(vm.next) && Lookup(vm, q).None?
  }

  lemma SecondFill(v: Vm, mem: Memory, p: Vpn, e: Entry)
    requires Consistent(v, mem) && Lookup(v, p).Some? && e.valid && e.vpn != p && Lookup(v, e.vpn).None?
    ensures Lookup(Fill(v, e), p) == if SlotOf(v, p) == Some(v.next) then None else Lookup(v, p)
  {
    var w := Fill(v, e);
    var i, j := FindFrom(v.tlb, p, 0), FindFrom(w.tlb, p, 0);
    if i == v.next {
      forall k | 0 <= k < ENTRIES ensures !(w.tlb[k].valid && w.tlb[k].vpn == p) {
      }
    } else {
      assert w.tlb[i] == v.tlb[i] && j <= i;
    }
  }

  /** The buffer after both pages of a crossing access. */
  lemma CrossingBuffer(vm: Vm, mem: Memory, addr: Word, last: Word, access: Access)
    requires Consistent(vm, mem) && PageOf(last) == PageOf(addr) + 1
    requires CheckPages(vm, mem, addr, last, PageOf(addr), access).1.None?
    ensures var p, w := PageOf(addr), CheckPages(vm, mem, addr, last, PageOf(addr), access).0;
            && Walk(vm.ptbr, p, mem).Found?
            && Lookup(w, p) == (if Evicts(vm, p, p + 1) then None else Some(Walk(vm.ptbr, p, mem).entry))
  {
    var p, q := PageOf(addr), PageOf(addr) + 1;
    var v := CheckPage(vm, mem, addr, p, access).0;
    PageKeepsConsistent(vm, mem, addr, p, access);
    LookupIsWalk(vm, p, mem);
    InBuffer(vm, mem, addr, p, access);
    LookupIsWalk(v, p, mem);
    assert CheckPages(vm, mem, addr, last, p, access) == CheckPages(v, mem, addr, last, q, access);
    assert CheckPages(v, mem, addr, last, q, access) == CheckPage(v, mem, addr, q, access);
    if Lookup(v, q).None? {
      WalkedEntry(v.ptbr, q, mem);
      SecondFill(v, mem, p, Walk(v.ptbr, q, mem).entry);
    }
    SecondMisses(vm, mem, addr, p, access);
  }

  /** The first page's part of the check does not decide whether the second page is there, and if it
      filled a slot, that slot is not the next victim. */
  lemma SecondMisses(vm: Vm, mem: Memory, addr: Word, p: Vpn, access: Access)
    requires Consistent(vm, mem) && CheckPage(vm, mem, addr, p, access).1.None? && p + 1 < PAGES
    ensures var v := CheckPage(vm, mem, addr, p, access).0;
            SlotOf(v, p) == Some(v.next) && Lookup(v, p + 1).None? <==> Evicts(vm, p, p + 1)
  {
    if Lookup(vm, p).None? {
      InBuffer(vm, mem, addr, p, access);
      assert (vm.next + 1) % ENTRIES != vm.next;
    }
  }

  /** A crossing access uses the right physical address for the bytes of its first page exactly if
      the second page's fill does not take the first page's slot, or the first page is mapped to
      page 0, which is where a lost page reads from. */
  lemma CrossingPhysicalIff(vm: Vm, mem: Memory, addr: Word, last: Word, access: Access, va: Word)
    requires Consistent(vm, mem) && PageOf(last) == PageOf(addr) + 1 && PageOf(va) == PageOf(addr)
    requires CheckPages(vm, mem, addr, last, PageOf(addr), access).1.None?
    ensures Walk(vm.ptbr, PageOf(va), mem).Found?
    ensures Physical(CheckPages(vm, mem, addr, last, PageOf(addr), access).0, va) == Mapped(vm.ptbr, mem, va) <==>
              !Evicts(vm, PageOf(addr), PageOf(last)) || Walk(vm.ptbr, PageOf(addr), mem).entry.ppn == 0
  {
    CrossingBuffer(vm, mem, addr, last, access);
  }

  /** The bytes on the second page are always right: it is looked up or filled last. */
  lemma SecondPagePhysical(vm: Vm, mem: Memory, addr: Word, last: Word, access: Access, va: Word)
    requires Consistent(vm, mem) && PageOf(last) == PageOf(addr) + 1 && PageOf(va) == PageOf(last)
    requires CheckPages(vm, mem, addr, last, PageOf(addr), access).1.None?
    ensures Walk(vm.ptbr, PageOf(va), mem).Found?
    ensures Physical(CheckPages(vm, mem, addr, last, PageOf(addr), access).0, va) == Mapped(vm.ptbr, mem, va)
  {
    var p, q := PageOf(addr), PageOf(last);
    var v := CheckPage(vm, mem, addr, p, access).0;
    PageKeepsConsistent(vm, mem, addr, p, access);
    assert CheckPages(vm, mem, addr, last, p, access) == CheckPages(v, mem, addr, last, q, access);
    assert CheckPages(v, mem, addr, last, q, access) == CheckPage(v, mem, addr, q, access);
    PageKeepsConsistent(v, mem, addr, q, access);
    InBuffer(v, mem, addr, q, access);
    LookupIsWalk(CheckPage(v, mem, addr, q, access).0, q, mem);
  }

  // ---- histories ----

  /** What happens to the buffer: checks of user accesses, flushes, a new table root, and a change of
      one page's tables followed by the invalidation of that page. */
  datatype Op =
    | CheckOp(addr: Word, last: Word, access: Access)
    | FlushOp
    | RootOp(value: Word, tables: Memory)
    | RemapOp(va: Word, tables: Memory)

  datatype Mmu = Mmu(vm: Vm, mem: Memory)

  /** Only the walk of the remapped page changes. */
  ghost predicate Local(s: Mmu, op: Op) {
    op.RemapOp? ==> forall p: Vpn :: p != PageOf(op.va) ==> Walk(s.vm.ptbr, p, op.tables) == Walk(s.vm.ptbr, p, s.mem)
  }

  function Step(s: Mmu, op: Op): (t: Mmu)
    requires Shaped(s.vm)
    ensures Shaped(t.vm)
  {
    match op
    case CheckOp(addr, last, access) => s.(vm := CheckPages(s.vm, s.mem, addr, last, PageOf(addr), access).0)
    case FlushOp => s.(vm := Flush(s.vm))
    case RootOp(value, tables) => Mmu(Flush(s.vm.(ptbr := value - value % PAGE)), tables)
    case RemapOp(va, tables) => Mmu(Invalidate(s.vm, va), tables)
  }

  function Run(s: Mmu, ops: seq<Op>): (t: Mmu)
    requires Shaped(s.vm)
    ensures Shaped(t.vm)
    decreases |ops|
  {
    if ops == [] then s else Step(Run(s, ops[..|ops| - 1]), ops[|ops| - 1])
  }

  ghost predicate AllLocal(s: Mmu, ops: seq<Op>)
    requires Shaped(s.vm)
  {
    forall k :: 0 <= k < |ops| ==> Local(Run(s, ops[..k]), ops[k])
  }

  lemma StepKeepsConsistent(s: Mmu, op: Op)
    requires Consistent(s.vm, s.mem) && Local(s, op)
    ensures Consistent(Step(s, op).vm, Step(s, op).mem)
  {
    match op {
      case CheckOp(addr, last, access) => CheckIsFresh(s.vm, s.mem, addr, last, PageOf(addr), access);
      case FlushOp => FlushIsConsistent(s.vm, s.mem);
      case RootOp(value, tables) => FlushIsConsistent(s.vm.(ptbr := value - value % PAGE), tables);
      case RemapOp(va, tables) => InvalidateKeepsConsistent(s.vm, va, s.mem, tables);
    }
  }

  /** Main result: through every such history the buffer holds exactly fresh walks of distinct pages. */
  lemma {:induction false} HistoryKeepsConsistent(s: Mmu, ops: seq<Op>)
    requires Consistent(s.vm, s.mem) && AllLocal(s, ops)
    ensures Consistent(Run(s, ops).vm, Run(s, ops).mem)
    decreases |ops|
  {
    if ops == [] {
    } else {
      var n := |ops| - 1;
      forall k | 0 <= k < n ensures Local(Run(s, ops[..n][..k]), ops[..n][k]) {
        assert ops[..n][..k] == ops[..k];
        assert Local(Run(s, ops[..k]), ops[k]);
      }
      HistoryKeepsConsistent(s, ops[..n]);
      StepKeepsConsistent(Run(s, ops[..n]), ops[n]);
    }
  }

  // ---- a run that loses a page ----

  /** One table that maps page `p` of the first 1024 to page `p + 0x70`, for user code to read and execute. */
  function ExampleTables(): Memory {
    (a: Word) => if a == 0x1000 then Some(0x2001)
                 else if 0x2000 <= a < 0x3000 then Some((0x70 + (a - 0x2000) / 4) * PAGE + 0x1B) else Some(0)
  }

  function ExampleEntry(p: Vpn): Entry
    requires p < 1024
  {
    Entry(true, p, 0x70 + p, true, false, true, true)
  }

  lemma ExampleWalk(p: Vpn)
    requires p < 1024
    ensures Walk(0x1000, p, ExampleTables()) == Found(ExampleEntry(p))
    ensures PageGranted(0x1000, ExampleTables(), p, Read) && PageGranted(0x1000, ExampleTables(), p, Fetch)
  {
    hide Bit;
    assert p / 1024 == 0 && p % 1024 == p;
    ExampleRoot(0x2001);
    ExampleLeaf((0x70 + p) * PAGE + 0x1B, 0x70 + p);
  }

  lemma ExampleRoot(pte: Word)
    requires pte == 0x2001
    ensures Bit(pte, 0) && !Bit(pte, 1) && !Bit(pte, 2) && !Bit(pte, 3) && !Bit(pte, 6) && !Bit(pte, 7)
  {
  }

  lemma ExampleLeaf(pte: Word, ppn: Vpn)
    requires pte == ppn * PAGE + 0x1B
    ensures pte / PAGE == ppn && Bit(pte, 0) && Bit(pte, 1) && !Bit(pte, 2) && Bit(pte, 3) && Bit(pte, 4)
    ensures !Bit(pte, 6) && !Bit(pte, 7)
  {
  }

  /** The pages read first: page 0x10, then 15 more, but not page 0x11. */
  function WarmPage(k: nat): Vpn
    requires k < ENTRIES
  {
    if k == 0 then 0x10 else 0x11 + k
  }

  function Warmup(n: nat): (ops: seq<Op>)
    requires n <= ENTRIES
    ensures |ops| == n && forall k :: 0 <= k < n ==> ops[k].CheckOp?
  {
    if n == 0 then [] else Warmup(n - 1) + [CheckOp(Base(WarmPage(n - 1)), Base(WarmPage(n - 1)), Read)]
  }

  /** After `n` of them the first `n` slots are filled in order, and no other. */
  ghost predicate Warm(s: Mmu, n: nat) {
    && s.mem == ExampleTables() && s.vm.enabled && s.vm.ptbr == 0x1000 && Shaped(s.vm) && n <= ENTRIES && s.vm.next == n % ENTRIES
    && (forall k :: 0 <= k < n ==> s.vm.tlb[k] == ExampleEntry(WarmPage(k)))
    && (forall k :: n <= k < ENTRIES ==> !s.vm.tlb[k].valid)
  }

  lemma WarmStep(s: Mmu, n: nat)
    requires Warm(s, n) && n < ENTRIES
    ensures Warm(Step(s, CheckOp(Base(WarmPage(n)), Base(WarmPage(n)), Read)), n + 1)
  {
    hide Walk, Bit;
    var p := WarmPage(n);
    ExampleWalk(p);
    forall i | 0 <= i < n ensures s.vm.tlb[i].vpn != p {
      assert s.vm.tlb[i] == ExampleEntry(WarmPage(i));
    }
    NotThere(s.vm, p);
    assert CheckPages(s.vm, s.mem, Base(p), Base(p), p, Read) == CheckPage(s.vm, s.mem, Base(p), p, Read);
  }

  lemma {:induction false} Warmed(s: Mmu, n: nat)
    requires Warm(s, 0) && n <= ENTRIES
    ensures Warm(Run(s, Warmup(n)), n)
  {
    if n == 0 {
    } else {
      Warmed(s, n - 1);
      assert Warmup(n)[..n - 1] == Warmup(n - 1);
      WarmStep(Run(s, Warmup(n - 1)), n - 1);
    }
  }

  lemma WarmIsConsistent(s: Mmu, n: nat)
    requires Warm(s, n)
    ensures Consistent(s.vm, s.mem)
  {
    forall i | 0 <= i < n ensures Walk(s.vm.ptbr, s.vm.tlb[i].vpn, s.mem) == Found(s.vm.tlb[i]) {
      ExampleWalk(WarmPage(i));
    }
  }

  /** A warm buffer: page 0x10 is in slot 0, which is the next victim, and page 0x11 is missing. */
  lemma WarmEvicts(s: Mmu)
    requires Warm(s, ENTRIES)
    ensures Evicts(s.vm, 0x10, 0x11)
  {
    assert s.vm.tlb[0] == ExampleEntry(0x10);
    assert FindFrom(s.vm.tlb, 0x10, 0) == 0;
    forall i | 0 <= i < ENTRIES ensures s.vm.tlb[i].vpn != 0x11 {
      assert s.vm.tlb[i] == ExampleEntry(WarmPage(i));
    }
    NotThere(s.vm, 0x11);
  }

  /** A run that loses a page: from a flushed buffer, one byte of each of 16 pages is read, then four
      bytes across the end of the first page. Every read is accepted, but the first two bytes of the
      last one are read from page 0. */
  lemma CrossingLosesPage() returns (start: Mmu, ops: seq<Op>)
    ensures start.vm == Flush(start.vm) && |ops| == 17 && (forall k :: 0 <= k < |ops| ==> ops[k].CheckOp?)
    ensures ops[16] == CheckOp(0x10FFE, 0x11001, Read) && start.vm.ptbr == 0x1000
    ensures var before, after := Run(start, ops[..16]), Run(start, ops);
            && CheckPages(before.vm, start.mem, 0x10FFE, 0x11001, 0x10, Read) == (after.vm, None)
            && Walk(0x1000, 0x10, start.mem).Found?
            && Mapped(0x1000, start.mem, 0x10FFE) == 0x80FFE && Physical(after.vm, 0x10FFE) == 0xFFE
  {
    start := Mmu(Flush(Vm(true, 0x1000, 0, [], 0)), ExampleTables());
    ops := Warmup(ENTRIES) + [CheckOp(0x10FFE, 0x11001, Read)];
    assert ops[..16] == Warmup(ENTRIES);
    Warmed(start, ENTRIES);
    CrossingWarm(Run(start, Warmup(ENTRIES)));
  }

  lemma CrossingWarm(s: Mmu)
    requires Warm(s, ENTRIES)
    ensures var (v, fault) := CheckPages(s.vm, s.mem, 0x10FFE, 0x11001, 0x10, Read);
            && fault.None? && Physical(v, 0x10FFE) == 0xFFE
            && Walk(0x1000, 0x10, s.mem).Found? && Mapped(0x1000, s.mem, 0x10FFE) == 0x80FFE
  {
    WarmIsConsistent(s, ENTRIES);
    ExampleWalk(0x10);
    ExampleWalk(0x11);
    CheckIsFresh(s.vm, s.mem, 0x10FFE, 0x11001, 0x10, Read);
    CheckMeans(0x1000, s.mem, 0x10FFE, 0x11001, 0x10, Read);
    WarmEvicts(s);
    CrossingBuffer(s.vm, s.mem, 0x10FFE, 0x11001, Read);
  }
}
