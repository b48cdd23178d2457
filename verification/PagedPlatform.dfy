/**
 Extension V under a core: loads, stores and fetches go through the translation buffer, which every
 check may fill. `TablePlatform` is the same core with translation straight from the page tables.
 */
module PagedPlatform {
  import opened Isa
  import opened Wrappers
  import opened Bytes
  import opened Tlb
  import opened Privilege
  import PrivilegeUnit

  /** The slots of the translation buffer and the next victim. */
  datatype Buffer = Buffer(tlb: seq<Entry>, next: nat)

  /** What is around core and privilege unit. `rom` is the read-only program memory, `tables` the page
      tables as walks read them. */
  datatype Board<!M> = Board(
    alu: (AluOp, Word, Word) -> Word, features: Word,
    rom: Word -> Byte, normal: seq<Byte> -> Instr, short: seq<Byte> -> ShortInstr,
    readByte: (M, Word) -> (Byte, M), readWord: (M, Word) -> (Word, M),
    writeByte: (M, Word, Byte) -> M, writeWord: (M, Word, Word) -> M,
    vectorAddress: Exception -> Word, readVector: (M, Exception) -> (Word, M),
    tables: Memory, causeOf: Exception -> Word)

  predicate Translating(s: System) {
    s.user && s.vm.enabled
  }

  /** The privilege state with this buffer. */
  function With(s: System, b: Buffer): System {
    s.(vm := s.vm.(tlb := b.tlb, next := b.next))
  }

  function BufferOf(s: System): Buffer {
    Buffer(s.vm.tlb, s.vm.next)
  }

  predicate Fits(b: Buffer) {
    |b.tlb| == ENTRIES && b.next < ENTRIES
  }

  /** The buffer holds fresh walks of distinct pages. */
  predicate BufferOk(tables: Memory, s: System, b: Buffer) {
    Consistent(With(s, b).vm, tables)
  }

  // ---- addresses ----

  /** `physical`, through the buffer. */
  function Through(s: System, b: Buffer, va: Word): Word {
    if Translating(s) then Physical(With(s, b).vm, va) else va
  }

  /** Where the tables say the byte is. */
  function Truth(tables: Memory, s: System, va: Word): Word {
    if !Translating(s) then va
    else if Walk(s.vm.ptbr, PageOf(va), tables).Found? then Mapped(s.vm.ptbr, tables, va)
    else va % PAGE
  }

  /** The check of an access: the buffer behind it, and the exception. */
  function Checked(tables: Memory, s: System, b: Buffer, addr: Word, n: nat, access: Access): (r: (Buffer, Option<Exception>))
    requires Fits(b)
    ensures Fits(r.0)
  {
    if n == 0 then (b, CheckAnswer(tables, s, addr, n, access))
    else
      var (t, fault) := CheckAccess(With(s, b), tables, addr, n, access);
      (BufferOf(t), fault)
  }

  // ---- accesses byte by byte or word by word ----

  type Address = Word -> Word

  function ReadBytes<M>(x: Board<M>, m: M, at: Address, va: Word, n: nat): (nat, M) {
    if n == 0 then (0, m)
    else
      var (high, m1) := ReadBytes(x, m, at, va, n - 1);
      var (low, m2) := x.readByte(m1, at(Plus(va, n - 1)));
      (high * 0x100 + low, m2)
  }

  /** The shift of byte `k` of `n`, most significant first. */
  function ByteOf(value: Word, n: nat, k: nat): Byte
    requires k < n <= 4
  {
    value / [0x1, 0x100, 0x1_0000, 0x100_0000][n - 1 - k] % 0x100
  }

  function WriteBytes<M>(x: Board<M>, m: M, at: Address, va: Word, width: Width, value: Word, n: nat): M
    requires n <= width
  {
    if n == 0 then m
    else x.writeByte(WriteBytes(x, m, at, va, width, value, n - 1), at(Plus(va, n - 1)), ByteOf(value, width, n - 1))
  }

  /** A word access that does not leave its page is one bus access. */
  predicate InOneWord(s: System, va: Word, width: Width) {
    width == 4 && (!Translating(s) || va % PAGE <= PAGE - 4)
  }

  /** `read_data`. */
  function ReadData<M>(x: Board<M>, m: M, s: System, at: Address, va: Word, width: Width): (Word, M) {
    if InOneWord(s, va, width) then x.readWord(m, at(va))
    else var r := ReadBytes(x, m, at, va, width); (r.0 % 0x1_0000_0000, r.1)
  }

  /** `write_data`. */
  function WriteData<M>(x: Board<M>, m: M, s: System, at: Address, va: Word, width: Width, value: Word): M {
    if InOneWord(s, va, width) then x.writeWord(m, at(va), value) else WriteBytes(x, m, at, va, width, value, width)
  }

  /** The bytes of an instruction. */
  function TextBytes<M>(x: Board<M>, at: Address, pc: Word, n: nat): seq<Byte> {
    seq<Byte>(n, (k: nat) => x.rom(at(Plus(pc, k))))
  }

  // ---- platforms ----

  /** A core whose fetches and data accesses use these addresses and these checks. */
  function PlatformOf<M>(x: Board<M>, text: System -> Address, data: System -> Address,
                         check: (System, Word, nat, Access) -> Option<Exception>): Platform<M, System>
  {
    Platform(
      (s: System, pc: Word) => x.normal(TextBytes(x, text(s), pc, 4)),
      (s: System, pc: Word) => x.short(TextBytes(x, text(s), pc, 2)),
      x.features, x.alu,
      (m: M, s: System, a: Word, w: Width) => ReadData(x, m, s, data(s), a, w),
      (m: M, s: System, a: Word, w: Width, v: Word) => WriteData(x, m, s, data(s), a, w, v),
      x.vectorAddress, x.readVector,
      (s: System) => s.user,
      check,
      (s: System, r: Regs, e: Exception, pc: Word, m: Mode) => EnterTrap(PrivilegeUnit.Noted(s, e), r, pc, x.causeOf(e), m),
      (s: System, r: Regs) => LeaveTrap(s, r),
      (s: System, r: Regs, n: Half) => ReadSr(s, r, n),
      (s: System, r: Regs, n: Half, v: Word) => if Shaped(s.vm) then WriteSr(s, r, n, v) else None)
  }

  function TrueAddress(tables: Memory): System -> Address {
    (s: System) => (va: Word) => Truth(tables, s, va)
  }

  function ThroughBuffer(b: Buffer): System -> Address {
    (s: System) => (va: Word) => Through(s, b, va)
  }

  /** Translation straight from the tables. */
  function TablePlatform<M>(x: Board<M>): Platform<M, System> {
    PlatformOf(x, TrueAddress(x.tables), TrueAddress(x.tables),
      (s: System, a: Word, n: nat, access: Access) => CheckAnswer(x.tables, s, a, n, access))
  }

  /** The buffers that fetches and data accesses are checked against and go through. */
  datatype Buffers = Buffers(fetchCheck: Buffer, fetch: Buffer, dataCheck: Buffer, data: Buffer)

  function CheckedAnswer<M>(x: Board<M>, bs: Buffers, s: System, a: Word, n: nat, access: Access): Option<Exception> {
    var b := if access == Fetch then bs.fetchCheck else bs.dataCheck;
    if Fits(b) then Checked(x.tables, s, b, a, n, access).1 else None
  }

  /** Translation through the buffers. */
  function BufferPlatform<M>(x: Board<M>, bs: Buffers): Platform<M, System> {
    PlatformOf(x, ThroughBuffer(bs.fetch), ThroughBuffer(bs.data),
      (s: System, a: Word, n: nat, access: Access) => CheckedAnswer(x, bs, s, a, n, access))
  }

  /** The table platform is a platform with the modelled privilege unit. */
  lemma TablesAreWired<M(!new)>(x: Board<M>)
    requires forall a: Word :: x.tables(a).Some?
    ensures Wired(TablePlatform(x))
  {
    PrivilegeUnit.SystemIsWired(TablePlatform(x), x.tables, x.causeOf);
  }

  // ---- accesses that keep their pages ----

  /** A page-crossing access whose second page takes the slot of the first, which is not mapped to page
      0. This is what a caller can see before the access. */
  predicate Loses(tables: Memory, s: System, b: Buffer, addr: Word, n: nat) {
    && n > 0 && Translating(s) && PageOf(Plus(addr, n - 1)) != PageOf(addr)
    && Evicts(With(s, b).vm, PageOf(addr), PageOf(Plus(addr, n - 1)))
    && Walk(s.vm.ptbr, PageOf(addr), tables).Found? && Walk(s.vm.ptbr, PageOf(addr), tables).entry.ppn != 0
  }

  /** Aligned accesses never do. */
  lemma AlignedKeeps(tables: Memory, s: System, b: Buffer, addr: Word, n: nat)
    requires (n == 1 || n == 2 || n == 4) && addr % n == 0
    ensures !Loses(tables, s, b, addr, n)
  {
    AlignedInPage(addr, n, addr / PAGE, addr % PAGE);
  }

  lemma AlignedInPage(addr: Word, n: nat, page: nat, offset: nat)
    requires (n == 1 || n == 2 || n == 4) && addr % n == 0 && offset < PAGE && addr == page * PAGE + offset
    ensures PageOf(Plus(addr, n - 1)) == PageOf(addr)
  {
    AlignedFits(page, offset, n);
    SamePage(page, offset, n - 1);
    SamePage(page, offset, 0);
  }

  lemma AlignedFits(page: nat, offset: nat, n: nat)
    requires (n == 1 || n == 2 || n == 4) && offset < PAGE && (page * PAGE + offset) % n == 0
    ensures offset + (n - 1) < PAGE
  {
  }

  lemma SamePage(page: nat, offset: nat, j: nat)
    requires offset + j < PAGE && page < PAGES
    ensures page * PAGE + offset + j < 0x1_0000_0000 && (page * PAGE + offset + j) / PAGE == page
  {
  }

  /** A check answers as the tables do, and leaves a buffer that is consistent. */
  lemma CheckedIsAnswer(tables: Memory, s: System, b: Buffer, addr: Word, n: nat, access: Access)
    requires BufferOk(tables, s, b)
    ensures Checked(tables, s, b, addr, n, access).1 == CheckAnswer(tables, s, addr, n, access)
    ensures BufferOk(tables, s, Checked(tables, s, b, addr, n, access).0)
  {
    if n > 0 {
      CheckAnswers(With(s, b), tables, addr, n, access);
      CheckIsFresh(With(s, b).vm, tables, addr, Plus(addr, n - 1), PageOf(addr), access);
    }
  }

  /** After an accepted access that keeps its pages, every byte is where the tables say. */
  lemma KeptBytes(tables: Memory, s: System, b: Buffer, addr: Word, n: nat, access: Access, k: nat)
    requires BufferOk(tables, s, b) && k < n <= 4
    requires Checked(tables, s, b, addr, n, access).1.None? && !Loses(tables, s, b, addr, n)
    ensures Through(s, Checked(tables, s, b, addr, n, access).0, Plus(addr, k)) == Truth(tables, s, Plus(addr, k))
  {
    if Translating(s) {
      var vm, last := With(s, b).vm, Plus(addr, n - 1);
      var va := Plus(addr, k);
      CheckIsFresh(vm, tables, addr, last, PageOf(addr), access);
      KeptPage(vm, tables, addr, n, access, k);
      if PageOf(last) == PageOf(addr) {
        SinglePagePhysical(vm, tables, addr, last, access, va);
      } else if PageOf(va) == PageOf(addr) {
        CrossingPhysicalIff(vm, tables, addr, last, access, va);
      } else {
        SecondPagePhysical(vm, tables, addr, last, access, va);
      }
    }
  }

  /** The bytes of an accepted access lie in one page or two neighbours. */
  lemma KeptPage(vm: Vm, tables: Memory, addr: Word, n: nat, access: Access, k: nat)
    requires Consistent(vm, tables) && k < n <= 4
    requires CheckPages(vm, tables, addr, Plus(addr, n - 1), PageOf(addr), access).1.None?
    ensures var last, va := Plus(addr, n - 1), Plus(addr, k);
            && (PageOf(last) == PageOf(addr) || PageOf(last) == PageOf(addr) + 1)
            && (PageOf(va) == PageOf(addr) || PageOf(va) == PageOf(last))
  {
    hide Consistent, CheckPages, FreshCheck, PageGranted;
    CheckIsFresh(vm, tables, addr, Plus(addr, n - 1), PageOf(addr), access);
    AcceptedPages(vm.ptbr, tables, addr, n, access, k);
    AcceptedPages(vm.ptbr, tables, addr, n, access, n - 1);
    NearPages(addr, k, n - 1);
  }

  lemma NearPages(addr: nat, k: nat, j: nat)
    requires k <= j < 4
    ensures (addr + j) / PAGE == addr / PAGE || (addr + j) / PAGE == addr / PAGE + 1
    ensures (addr + k) / PAGE == addr / PAGE || (addr + k) / PAGE == (addr + j) / PAGE
  {
  }

  /** And if it does not keep them, its first byte is not. */
  lemma LostByte(tables: Memory, s: System, b: Buffer, addr: Word, n: nat, access: Access)
    requires BufferOk(tables, s, b) && 0 < n <= 4
    requires Checked(tables, s, b, addr, n, access).1.None? && Loses(tables, s, b, addr, n)
    ensures Through(s, Checked(tables, s, b, addr, n, access).0, addr) != Truth(tables, s, addr)
  {
    var vm, last := With(s, b).vm, Plus(addr, n - 1);
    CheckIsFresh(vm, tables, addr, last, PageOf(addr), access);
    KeptPage(vm, tables, addr, n, access, n - 1);
    CrossingPhysicalIff(vm, tables, addr, last, access, addr);
  }

  // ---- so the platforms agree on them ----

  /** The same bytes are read. */
  lemma {:induction false} SameRead<M>(x: Board<M>, m: M, at: Address, to: Address, va: Word, n: nat)
    requires forall k: nat :: k < n ==> at(Plus(va, k)) == to(Plus(va, k))
    ensures ReadBytes(x, m, at, va, n) == ReadBytes(x, m, to, va, n)
  {
    if n == 0 {
    } else {
      SameRead(x, m, at, to, va, n - 1);
      assert at(Plus(va, n - 1)) == to(Plus(va, n - 1));
    }
  }

  lemma {:induction false} SameWrite<M>(x: Board<M>, m: M, at: Address, to: Address, va: Word, width: Width, value: Word, n: nat)
    requires n <= width && forall k: nat :: k < n ==> at(Plus(va, k)) == to(Plus(va, k))
    ensures WriteBytes(x, m, at, va, width, value, n) == WriteBytes(x, m, to, va, width, value, n)
  {
    if n == 0 {
    } else {
      SameWrite(x, m, at, to, va, width, value, n - 1);
      assert at(Plus(va, n - 1)) == to(Plus(va, n - 1));
    }
  }

  lemma KeptAddresses(tables: Memory, s: System, b: Buffer, addr: Word, n: nat, access: Access)
    requires BufferOk(tables, s, b) && n <= 4
    requires Checked(tables, s, b, addr, n, access).1.None? && !Loses(tables, s, b, addr, n)
    ensures var at, to := ThroughBuffer(Checked(tables, s, b, addr, n, access).0)(s), TrueAddress(tables)(s);
            forall k: nat :: k < n ==> at(Plus(addr, k)) == to(Plus(addr, k))
  {
    var at, to := ThroughBuffer(Checked(tables, s, b, addr, n, access).0)(s), TrueAddress(tables)(s);
    forall k: nat | k < n ensures at(Plus(addr, k)) == to(Plus(addr, k)) {
      KeptBytes(tables, s, b, addr, n, access, k);
    }
  }

  lemma SameLoad<M>(x: Board<M>, m: M, s: System, at: Address, to: Address, va: Word, width: Width)
    requires forall k: nat :: k < width ==> at(Plus(va, k)) == to(Plus(va, k))
    ensures ReadData(x, m, s, at, va, width) == ReadData(x, m, s, to, va, width)
  {
    assert at(Plus(va, 0)) == to(Plus(va, 0));
    SameRead(x, m, at, to, va, width);
  }

  lemma SameStore<M>(x: Board<M>, m: M, s: System, at: Address, to: Address, va: Word, width: Width, value: Word)
    requires forall k: nat :: k < width ==> at(Plus(va, k)) == to(Plus(va, k))
    ensures WriteData(x, m, s, at, va, width, value) == WriteData(x, m, s, to, va, width, value)
  {
    assert at(Plus(va, 0)) == to(Plus(va, 0));
    SameWrite(x, m, at, to, va, width, value, width);
  }

  /** An accepted data access that keeps its pages is the tables' access. */
  lemma KeptData<M(!new)>(x: Board<M>, bs: Buffers, s: System, m: M, addr: Word, width: Width, access: Access, value: Word)
    requires BufferOk(x.tables, s, bs.dataCheck) && bs.data == Checked(x.tables, s, bs.dataCheck, addr, width, access).0
    requires Checked(x.tables, s, bs.dataCheck, addr, width, access).1.None? && !Loses(x.tables, s, bs.dataCheck, addr, width)
    ensures BufferPlatform(x, bs).load(m, s, addr, width) == TablePlatform(x).load(m, s, addr, width)
    ensures BufferPlatform(x, bs).store(m, s, addr, width, value) == TablePlatform(x).store(m, s, addr, width, value)
  {
    KeptAddresses(x.tables, s, bs.dataCheck, addr, width, access);
    SameLoad(x, m, s, ThroughBuffer(bs.data)(s), TrueAddress(x.tables)(s), addr, width);
    SameStore(x, m, s, ThroughBuffer(bs.data)(s), TrueAddress(x.tables)(s), addr, width, value);
  }

  /** An accepted fetch that keeps its pages reads the tables' instruction. */
  lemma KeptFetch<M(!new)>(x: Board<M>, bs: Buffers, s: System, pc: Word, mode: Mode)
    requires BufferOk(x.tables, s, bs.fetchCheck)
    requires bs.fetch == Checked(x.tables, s, bs.fetchCheck, pc, Size(mode), Fetch).0
    requires Checked(x.tables, s, bs.fetchCheck, pc, Size(mode), Fetch).1.None?
    requires !Loses(x.tables, s, bs.fetchCheck, pc, Size(mode))
    ensures Code(BufferPlatform(x, bs), s, pc, mode) == Code(TablePlatform(x), s, pc, mode)
  {
    KeptAddresses(x.tables, s, bs.fetchCheck, pc, Size(mode), Fetch);
    SameText(x, ThroughBuffer(bs.fetch)(s), TrueAddress(x.tables)(s), pc, Size(mode));
  }

  lemma SameText<M>(x: Board<M>, at: Address, to: Address, pc: Word, n: nat)
    requires forall k: nat :: k < n ==> at(Plus(pc, k)) == to(Plus(pc, k))
    ensures TextBytes(x, at, pc, n) == TextBytes(x, to, pc, n)
  {
    forall k: nat | k < n ensures TextBytes(x, at, pc, n)[k] == TextBytes(x, to, pc, n)[k] {
      assert at(Plus(pc, k)) == to(Plus(pc, k));
    }
  }

  // ---- MTSR and the buffer ----

  /** What MTSR leaves of the buffer. */
  function Written(s: System, b: Buffer, reg: Regs, n: Half, v: Word): (c: Buffer)
    requires Fits(b)
    ensures Fits(c)
  {
    match WriteSr(With(s, b), reg, n, v)
    case None => b
    case Some(w) => BufferOf(w.0)
  }

  /** A buffer belongs to a table root, not to the rest of the privilege state. */
  lemma SameRoot(tables: Memory, s: System, t: System, b: Buffer)
    requires BufferOk(tables, s, b) && t.vm.ptbr == s.vm.ptbr
    ensures BufferOk(tables, t, b)
  {
    assert With(t, b).vm.tlb == With(s, b).vm.tlb;
  }

  lemma WrittenIsOk(tables: Memory, s: System, b: Buffer, reg: Regs, n: Half, v: Word)
    requires BufferOk(tables, s, b) && Shaped(s.vm) && WriteSr(s, reg, n, v).Some?
    ensures BufferOk(tables, WriteSr(s, reg, n, v).value.0, Written(s, b, reg, n, v))
  {
    var sr := SrOf(n).value;
    var t := WriteSr(s, reg, n, v).value.0;
    WrittenRoot(s, b, reg, n, v);
    if OfTranslation(sr) {
      WriteVmIsOk(tables, With(s, b).vm, sr, v);
      SameVm(WriteVm(With(s, b).vm, sr, v), With(t, Written(s, b, reg, n, v)).vm, tables);
    } else {
      SameRoot(tables, s, t, b);
    }
  }

  /** The write has the same effect on the real buffer's unit, and only MTSR of the translation unit
      changes the buffer. */
  lemma WrittenRoot(s: System, b: Buffer, reg: Regs, n: Half, v: Word)
    requires Fits(b) && Shaped(s.vm) && WriteSr(s, reg, n, v).Some?
    ensures var sr, t := SrOf(n).value, WriteSr(s, reg, n, v).value.0;
            if OfTranslation(sr) then
              var w := WriteVm(With(s, b).vm, sr, v);
              Written(s, b, reg, n, v) == Buffer(w.tlb, w.next) && t.vm.ptbr == w.ptbr
            else Written(s, b, reg, n, v) == b && t.vm.ptbr == s.vm.ptbr
  {
    hide SrOf, WriteKnown, WriteVm;
    KnownRoot(s, b, reg, SrOf(n).value, v);
  }

  lemma KnownRoot(s: System, b: Buffer, reg: Regs, sr: Sr, v: Word)
    requires Fits(b) && Shaped(s.vm) && ValidSr(sr)
    ensures var w, t := WriteKnown(With(s, b), reg, sr, v).0, WriteKnown(s, reg, sr, v).0;
            if OfTranslation(sr) then w.vm == WriteVm(With(s, b).vm, sr, v) && t.vm.ptbr == w.vm.ptbr
            else BufferOf(w) == b && t.vm.ptbr == s.vm.ptbr
  {
    hide Bit, SetRegion;
  }

  lemma SameVm(vm: Vm, other: Vm, tables: Memory)
    requires Consistent(vm, tables) && other.tlb == vm.tlb && other.next == vm.next && other.ptbr == vm.ptbr
    ensures Consistent(other, tables)
  {
  }

  lemma WriteVmIsOk(tables: Memory, vm: Vm, sr: Sr, v: Word)
    requires Consistent(vm, tables) && OfTranslation(sr)
    ensures Consistent(WriteVm(vm, sr, v), tables)
  {
    match sr {
      case Ptbr => FlushIsConsistent(vm.(ptbr := v - v % PAGE), tables);
      case TlbFlush => FlushIsConsistent(vm, tables);
      case TlbInv => InvalidateKeepsConsistent(vm, v, tables, tables);
      case Vctl => SameVm(vm, WriteVm(vm, sr, v), tables);
      case Vfault => SameVm(vm, WriteVm(vm, sr, v), tables);
    }
  }

  /** Traps and returns leave the buffer alone. */
  lemma TrapsAreOk<M>(x: Board<M>, s: System, b: Buffer, reg: Regs, e: Exception, pc: Word, mode: Mode)
    requires BufferOk(x.tables, s, b)
    ensures BufferOk(x.tables, TablePlatform(x).trap(s, reg, e, pc, mode).0, b)
    ensures BufferOk(x.tables, TablePlatform(x).iret(s, reg).0, b)
    ensures Shaped(s.vm) ==> Shaped(TablePlatform(x).trap(s, reg, e, pc, mode).0.vm) && Shaped(TablePlatform(x).iret(s, reg).0.vm)
  {
    SameRoot(x.tables, s, EnterTrap(PrivilegeUnit.Noted(s, e), reg, pc, x.causeOf(e), mode).0, b);
    SameRoot(x.tables, s, LeaveTrap(s, reg).0, b);
  }
}
