/**
 A program on which the two CPUs differ. Both start with the same buffer, filled by 16 reads. The
 scalar CPU's load across a page loses its first page; in the pipeline the fetch of the next code page
 has come first and taken that slot, and the load finds its page again.
 */
module PagedDivergence {
  import opened Isa
  import opened Wrappers
  import opened Pipeline
  import opened PagedPlatform
  import opened PagedScalar
  import opened PagedPipeline
  import Bytes
  import T = Tlb
  import P = Privilege

  // ---- five clocks of a load and some NOPs ----

  const START: Word := 0x20FFC
  const TARGET: Word := 0x10FFE

  /** A load into R1 from the address in R2 at the end of a page, and NOPs on the next. */
  ghost predicate Runs<M, S>(env: Platform<M, S>, sys: S, mem: M, value: Word) {
    && (forall a: Word :: a == START || a == 0x21000 || a == 0x21004 || a == 0x21008 || a == 0x2100C ==>
          && env.check(sys, a, 4, Fetch).None?
          && env.normal(sys, a) == if a == START then Load(1, 2, 0, 4) else Nop)
    && env.check(sys, TARGET, 4, Read).None? && env.load(mem, sys, TARGET, 4) == (value, mem)
  }

  function LoadOp(): Op {
    Op(START, Normal, N(Load(1, 2, 0, 4)), 2, 0, Some(1), true, false, None)
  }

  function NopAt(pc: Word): Slot<IfId> {
    Full(IfId(pc, Normal, N(Nop), None))
  }

  function NopIn(pc: Word): Slot<IdEx> {
    Full(IdEx(Op(pc, Normal, N(Nop), 0, 0, None, false, false, None), false))
  }

  /** The pipeline after `k` of the first four clocks. */
  ghost predicate Clocked<M, S>(p: Pipe<M, S>, k: nat, reg: Regs, sys: S, mem: M, value: Word) {
    && p.running && p.executed == 0 && p.cacheStall == 0 && !p.exArmed && p.reg == reg && p.sys == sys && p.mem == mem && p.fetchMode == Normal
    && (k < 4 ==> p.memWb.Empty?) && (k < 3 ==> p.exMem.Empty?) && (k < 2 ==> p.idEx.Empty?)
    && (k == 0 ==> p.ifId.Empty? && p.retirePc == START)
    && (k == 1 ==> p.ifId == Full(IfId(START, Normal, N(Load(1, 2, 0, 4)), None)) && p.fetchPc == 0x21000)
    && (k == 2 ==> p.idEx == Full(IdEx(LoadOp(), false)) && p.ifId == NopAt(0x21000) && p.fetchPc == 0x21004)
    && (k == 3 ==> p.exMem == Full(Bubble(LoadOp()).(addr := TARGET, width := 4)) && p.idEx == NopIn(0x21000)
                   && p.ifId == NopAt(0x21004) && p.fetchPc == 0x21008)
    && (k == 4 ==> && p.memWb == Full(MemWb(START, Normal, Some(1), value, false, 0, None, false, false, false, None, None))
                   && p.exMem.Full? && !p.exMem.e.isLoad && !p.exMem.e.isStore
                   && p.idEx == NopIn(0x21004) && p.ifId == NopAt(0x21008) && p.fetchPc == 0x2100C)
  }

  lemma Clock1<M, S>(env: Platform<M, S>, p: Pipe<M, S>, reg: Regs, sys: S, mem: M, v: Word, z: Penalty)
    requires Runs(env, sys, mem, v) && z == Penalty(0, 0) && Clocked(p, 0, reg, sys, mem, v)
    ensures Clocked(Tick(env, p, z), 1, reg, sys, mem, v)
    ensures FetchOf(env, SyncFromBlock(p), false) == Some((START, Normal))
  {
  }

  lemma Clock2<M, S>(env: Platform<M, S>, p: Pipe<M, S>, reg: Regs, sys: S, mem: M, v: Word, z: Penalty)
    requires Runs(env, sys, mem, v) && z == Penalty(0, 0) && Clocked(p, 1, reg, sys, mem, v)
    ensures Clocked(Tick(env, p, z), 2, reg, sys, mem, v)
    ensures SyncFromBlock(p) == p && FetchOf(env, p, false) == Some((0x21000, Normal))
  {
  }

  lemma Clock3<M, S>(env: Platform<M, S>, p: Pipe<M, S>, reg: Regs, sys: S, mem: M, v: Word, z: Penalty)
    requires Runs(env, sys, mem, v) && z == Penalty(0, 0) && Clocked(p, 2, reg, sys, mem, v) && reg[2] == TARGET
    ensures Clocked(Tick(env, p, z), 3, reg, sys, mem, v)
    ensures SyncFromBlock(p) == p && FetchOf(env, p, false) == Some((0x21004, Normal))
  {
  }

  lemma Clock4<M, S>(env: Platform<M, S>, p: Pipe<M, S>, reg: Regs, sys: S, mem: M, v: Word, z: Penalty)
    requires Runs(env, sys, mem, v) && z == Penalty(0, 0) && Clocked(p, 3, reg, sys, mem, v)
    ensures Clocked(Tick(env, p, z), 4, reg, sys, mem, v)
    ensures SyncFromBlock(p) == p && MemAccess(p) == Some(DataAccess(TARGET, 4, Read))
    ensures FetchOf(env, p, false) == Some((0x21008, Normal))
  {
  }

  lemma Clock5<M, S>(env: Platform<M, S>, p: Pipe<M, S>, reg: Regs, sys: S, mem: M, v: Word, z: Penalty)
    requires Runs(env, sys, mem, v) && z == Penalty(0, 0) && Clocked(p, 4, reg, sys, mem, v)
    ensures Tick(env, p, z).reg[1] == v && Tick(env, p, z).executed == 1 && Tick(env, p, z).retirePc == 0x21000
    ensures SyncFromBlock(p) == p && !Commit(env, p).flushed && !Commit(env, p).halted
    ensures Commit(env, p).p.sys == sys && MemAccess(Commit(env, p).p).None?
    ensures FetchOf(env, Commit(env, p).p, false) == Some((0x2100C, Normal))
  {
  }

  // ---- the board ----

  /** The tables of the lost page, a program of one load at physical 0x90FFC, and memory that is 0 on
      page 0 and 1 elsewhere. */
  function SlipBoard(): Board<()> {
    Board(
      (op: AluOp, a: Word, b: Word) => 0, 0,
      (a: Word) => if a == 0x90FFC then 1 else 0,
      bytes => if |bytes| > 0 && bytes[0] == 1 then Load(1, 2, 0, 4) else Nop,
      bytes => SRet,
      (m: (), a: Word) => (if a < 0x1000 then 0 else 1, m),
      (m: (), a: Word) => (0, m),
      (m: (), a: Word, v: Bytes.Byte) => m,
      (m: (), a: Word, v: Word) => m,
      (e: Exception) => 0,
      (m: (), e: Exception) => (0, m),
      T.ExampleTables(),
      (e: Exception) => 0)
  }

  /** A user program with this translation unit. */
  function UserWith(vm: T.Vm): P.System {
    P.System(true, true, true, false, Normal, 0, 0, [0, 0, 0], seq(8, _ => P.Region(0, 0, false, false, false)), vm)
  }

  ghost predicate Slip(x: Board<()>, sys: P.System) {
    x == SlipBoard() && sys.user && sys.vm.enabled && sys.vm.ptbr == 0x1000
  }

  lemma TruthIs(x: Board<()>, sys: P.System, va: Word, page: nat, offset: nat)
    requires Slip(x, sys) && va == page * 0x1000 + offset && offset < 0x1000 && page < 1024
    ensures Truth(x.tables, sys, va) == (0x70 + page) * 0x1000 + offset
  {
    hide T.Walk;
    T.ExampleWalk(page);
    assert T.PageOf(va) == page && va % T.PAGE == offset;
  }

  /** Every access inside the first 1024 pages is allowed to read and to execute. */
  lemma SlipAllows(x: Board<()>, sys: P.System, a: Word, access: Access)
    requires Slip(x, sys) && a < 0x30_0000 && access != Write
    ensures TablePlatform(x).check(sys, a, 4, access).None?
  {
    hide T.Walk, T.PageGranted, T.FreshCheck;
    forall q: T.Vpn | T.PageOf(a) <= q <= T.PageOf(Plus(a, 3)) ensures T.PageGranted(0x1000, x.tables, q, access) {
      T.ExampleWalk(q);
    }
    T.CheckMeans(0x1000, x.tables, a, Plus(a, 3), T.PageOf(a), access);
  }

  lemma SlipText(x: Board<()>, sys: P.System, a: Word, page: nat, offset: nat)
    requires Slip(x, sys) && a == page * 0x1000 + offset && offset < 0x1000 && page < 1024
    ensures TablePlatform(x).normal(sys, a) == if (0x70 + page) * 0x1000 + offset == 0x90FFC then Load(1, 2, 0, 4) else Nop
  {
    hide Truth;
    TruthIs(x, sys, a, page, offset);
    var bytes := TextBytes(x, TrueAddress(x.tables)(sys), a, 4);
    assert Plus(a, 0) == a && bytes[0] == x.rom(Truth(x.tables, sys, a));
  }

  /** Straight from the tables the load reads four ones. */
  lemma SlipLoads(x: Board<()>, sys: P.System)
    requires Slip(x, sys)
    ensures TablePlatform(x).load((), sys, TARGET, 4) == (0x0101_0101, ())
  {
    hide Truth;
    TruthIs(x, sys, 0x10FFE, 0x10, 0xFFE);
    TruthIs(x, sys, 0x10FFF, 0x10, 0xFFF);
    TruthIs(x, sys, 0x11000, 0x11, 0);
    TruthIs(x, sys, 0x11001, 0x11, 1);
    FourBytes(x, TrueAddress(x.tables)(sys), TARGET, 1, 1, 1, 1);
  }

  lemma FourBytes(x: Board<()>, at: Address, va: Word, a: nat, b: nat, c: nat, d: nat)
    requires va == TARGET && x.readByte((), at(va)) == (a, ()) && x.readByte((), at(Plus(va, 1))) == (b, ())
    requires x.readByte((), at(Plus(va, 2))) == (c, ()) && x.readByte((), at(Plus(va, 3))) == (d, ())
    ensures ReadBytes(x, (), at, va, 4) == (((a * 0x100 + b) * 0x100 + c) * 0x100 + d, ())
  {
    assert Plus(va, 0) == va;
    assert ReadBytes(x, (), at, va, 1) == (a, ());
    assert ReadBytes(x, (), at, va, 2) == (a * 0x100 + b, ());
    assert ReadBytes(x, (), at, va, 3) == ((a * 0x100 + b) * 0x100 + c, ());
  }

  lemma SlipRuns(x: Board<()>, sys: P.System)
    requires Slip(x, sys)
    ensures Runs(TablePlatform(x), sys, (), 0x0101_0101)
  {
    hide Slip, TablePlatform;
    SlipLoads(x, sys);
    SlipAllows(x, sys, TARGET, Read);
    SlipFetch(x, sys, 0x20, 0xFFC);
    SlipFetch(x, sys, 0x21, 0);
    SlipFetch(x, sys, 0x21, 4);
    SlipFetch(x, sys, 0x21, 8);
    SlipFetch(x, sys, 0x21, 12);
  }

  lemma SlipFetch(x: Board<()>, sys: P.System, page: nat, offset: nat)
    requires Slip(x, sys) && page < 0x300 && offset < 0x1000
    ensures var a: Word := page * 0x1000 + offset;
            && TablePlatform(x).check(sys, a, 4, Fetch).None?
            && TablePlatform(x).normal(sys, a) == if a == START then Load(1, 2, 0, 4) else Nop
  {
    SlipAllows(x, sys, page * 0x1000 + offset, Fetch);
    SlipText(x, sys, page * 0x1000 + offset, page, offset);
  }

  // ---- the buffers ----

  /** The unit behind the 16 reads. */
  ghost predicate Warmed(vm: T.Vm) {
    T.Warm(T.Mmu(vm, T.ExampleTables()), T.ENTRIES)
  }

  /** The unit of privilege state `sys` with buffer `b`. */
  function UnitOf(sys: P.System, b: Buffer): T.Vm {
    With(sys, b).vm
  }

  /** A warm buffer holds the code page; a fetch from it changes nothing. */
  lemma HitKeeps(x: Board<()>, sys: P.System, b: Buffer, a: Word)
    requires Slip(x, sys) && Fits(b) && T.Lookup(UnitOf(sys, b), T.PageOf(a)).Some?
    requires T.PageOf(Plus(a, 3)) == T.PageOf(a)
    ensures Checked(x.tables, sys, b, a, 4, Fetch).0 == b
  {
    assert UnitOf(sys, b).tlb == b.tlb && UnitOf(sys, b).next == b.next;
  }

  lemma WarmHolds(vm: T.Vm)
    requires Warmed(vm)
    ensures T.Lookup(vm, 0x20).Some?
  {
    assert vm.tlb[15] == T.ExampleEntry(T.WarmPage(15)) && T.WarmPage(15) == 0x20;
  }

  /** The fetch of the next code page takes the slot of page 0x10. */
  lemma FetchTakesSlot(vm: T.Vm)
    requires Warmed(vm)
    ensures var v := T.CheckPages(vm, T.ExampleTables(), 0x21000, 0x21003, 0x21, Fetch).0;
            T.Lookup(v, 0x10).None? && T.Lookup(v, 0x21).Some?
  {
    hide T.Walk, T.FindFrom;
    var tables := T.ExampleTables();
    T.WarmIsConsistent(T.Mmu(vm, tables), T.ENTRIES);
    T.WarmEvicts(T.Mmu(vm, tables));
    T.ExampleWalk(0x21);
    forall i | 0 <= i < T.ENTRIES ensures vm.tlb[i].vpn != 0x21 {
      assert vm.tlb[i] == T.ExampleEntry(T.WarmPage(i));
    }
    T.NotThere(vm, 0x21);
    T.SecondFill(vm, tables, 0x10, T.ExampleEntry(0x21));
    T.InBuffer(vm, tables, 0x21000, 0x21, Fetch);
    assert T.CheckPages(vm, tables, 0x21000, 0x21003, 0x21, Fetch) == T.CheckPage(vm, tables, 0x21000, 0x21, Fetch);
  }

  // ---- the scalar CPU ----

  /** The scalar CPU's load reads its first byte from page 0. */
  lemma ScalarLoses(x: Board<()>, sys: P.System, w: Paged<()>, reg: Regs)
    requires Slip(x, sys) && Warmed(sys.vm) && reg[2] == TARGET
    requires w == Paged(State(reg, START, Normal, true, sys, (), 0, 0), BufferOf(sys))
    ensures var a := PagedStep(x, w).s;
            a.reg[1] < 0x100_0000 && a.executed == 1 && a.pc == 0x21000
  {
    hide Slip, Checked, TablePlatform, ReadData, Warmed;
    ScalarFetch(x, sys, w);
    var b := w.b;
    var bs := StepBuffers(x, w);
    assert AccessOf(reg, N(Load(1, 2, 0, 4))) == Some(DataAccess(TARGET, 4, Read));
    ScalarLoad(x, sys, Buffers(b, b, b, bs.data));
  }

  lemma ScalarFetch(x: Board<()>, sys: P.System, w: Paged<()>)
    requires Slip(x, sys) && Warmed(sys.vm) && w.s.sys == sys && w.b == BufferOf(sys) && w.s.pc == START && w.s.mode == Normal
    ensures Fits(w.b) && Fetched(x, w) == (w.b, Some(N(Load(1, 2, 0, 4))))
    ensures Checked(x.tables, sys, w.b, START, 4, Fetch) == (w.b, None)
  {
    hide Warmed;
    SameUnit(sys);
    WarmIsOk(x, sys);
    WarmHolds(sys.vm);
    HitKeeps(x, sys, w.b, START);
    SlipFetch(x, sys, 0x20, 0xFFC);
    CheckedIsAnswer(x.tables, sys, w.b, START, 4, Fetch);
    AlignedKeeps(x.tables, sys, w.b, START, 4);
    KeptFetch(x, Buffers(w.b, w.b, w.b, w.b), sys, START, Normal);
  }

  lemma SameUnit(sys: P.System)
    ensures With(sys, BufferOf(sys)) == sys
  {
  }

  lemma WarmIsOk(x: Board<()>, sys: P.System)
    requires Slip(x, sys) && Warmed(sys.vm)
    ensures Fits(BufferOf(sys)) && BufferOk(x.tables, sys, BufferOf(sys)) && T.Shaped(sys.vm)
  {
    SameUnit(sys);
    T.WarmIsConsistent(T.Mmu(sys.vm, x.tables), T.ENTRIES);
  }

  lemma ScalarBuffer(x: Board<()>, sys: P.System)
    requires Slip(x, sys) && Warmed(sys.vm) && Fits(BufferOf(sys))
    ensures var (b, fault) := Checked(x.tables, sys, BufferOf(sys), TARGET, 4, Read);
            fault.None? && Through(sys, b, TARGET) == 0xFFE
  {
    hide T.CheckPages, T.Walk, T.FindFrom;
    SameUnit(sys);
    T.CrossingWarm(T.Mmu(sys.vm, x.tables));
    SameTranslation(sys, T.CheckPages(sys.vm, x.tables, TARGET, 0x11001, 0x10, Read).0, TARGET);
  }

  /** `physical` looks at nothing but the buffer. */
  lemma SameTranslation(sys: P.System, v: T.Vm, va: Word)
    ensures T.Physical(UnitOf(sys, Buffer(v.tlb, v.next)), va) == T.Physical(v, va)
  {
  }

  lemma ScalarLoad(x: Board<()>, sys: P.System, bs: Buffers)
    requires Slip(x, sys) && Warmed(sys.vm) && bs.dataCheck == BufferOf(sys)
    requires Fits(bs.dataCheck) && bs.data == Checked(x.tables, sys, bs.dataCheck, TARGET, 4, Read).0
    ensures BufferPlatform(x, bs).check(sys, TARGET, 4, Read).None?
    ensures BufferPlatform(x, bs).load((), sys, TARGET, 4).0 < 0x100_0000
  {
    hide Checked, Through, ReadBytes;
    ScalarBuffer(x, sys);
    HighByte(x, ThroughBuffer(bs.data)(sys), TARGET);
  }

  lemma HighByte(x: Board<()>, at: Address, va: Word)
    requires va == TARGET && x == SlipBoard() && at(va) < 0x1000
    ensures ReadBytes(x, (), at, va, 4).0 < 0x100_0000
  {
    assert Plus(va, 0) == va;
    assert ReadBytes(x, (), at, va, 1) == (0, ());
    assert ReadBytes(x, (), at, va, 2).0 < 0x100;
    assert ReadBytes(x, (), at, va, 3).0 < 0x1_0000;
  }

  // ---- the pipeline ----

  /** A clock without a data access that fetches from an aligned address loses nothing. */
  lemma FetchClock(x: Board<()>, w: PagedPipe<()>, z: Penalty, pc: Word, b: Buffer)
    requires Fits(w.b) && w.p.memWb.Empty? && w.p.exMem.Empty? && w.p.running && w.p.cacheStall == 0 && pc % 4 == 0
    requires FetchOf(TablePlatform(x), SyncFromBlock(w.p), false) == Some((pc, Normal))
    requires b == Checked(x.tables, w.p.sys, w.b, pc, 4, Fetch).0
    ensures TickKeeps(x, w) && PagedTick(x, w, z).b == b
  {
    hide FetchOf, Checked, Loses, TablePlatform, BufferPlatform, Tick;
    AlignedKeeps(x.tables, w.p.sys, w.b, pc, 4);
  }

  /** Neither does a clock whose data access keeps its pages. */
  lemma AccessClock(x: Board<()>, w: PagedPipe<()>, pc: Word)
    requires var t, q := TablePlatform(x), SyncFromBlock(w.p);
             && Fits(w.b) && !Commit(t, q).flushed && !Commit(t, q).halted && Commit(t, q).p.sys == w.p.sys
             && FetchOf(t, Commit(t, q).p, false) == Some((pc, Normal)) && pc % 4 == 0
             && CommitBuffer(q, w.b) == w.b
             && var a := MemAccess(Commit(t, q).p);
                a.Some? ==> !Loses(x.tables, w.p.sys, w.b, a.value.addr, a.value.width)
    ensures TickKeeps(x, w)
  {
    hide FetchOf, Checked, Loses, TablePlatform, Commit, CommitBuffer, MemAccess;
    var q := SyncFromBlock(w.p);
    var bs := ClockBuffers(x, Commit(TablePlatform(x), q).p, false, w.b);
    AlignedKeeps(x.tables, w.p.sys, bs.data, pc, 4);
  }

  /** A missing first page cannot be lost to the fill of the second. */
  lemma MissingKeeps(x: Board<()>, sys: P.System, b: Buffer)
    requires T.Lookup(UnitOf(sys, b), T.PageOf(TARGET)).None?
    ensures !Loses(x.tables, sys, b, TARGET, 4)
  {
  }

  /** Pipeline and buffer after `k` of the first four clocks. */
  ghost predicate Stage(x: Board<()>, w: PagedPipe<()>, k: nat, reg: Regs, sys: P.System) {
    && Slip(x, sys) && Warmed(sys.vm) && Owns(x, sys, w.b) && Clocked(w.p, k, reg, sys, (), 0x0101_0101)
    && (k <= 1 ==> w.b == BufferOf(sys))
    && (k == 2 ==> T.Lookup(UnitOf(sys, w.b), 0x21).Some?)
    && (2 <= k ==> T.Lookup(UnitOf(sys, w.b), 0x10).None?)
  }

  lemma Stage1(x: Board<()>, w: PagedPipe<()>, reg: Regs, sys: P.System, z: Penalty)
    requires Stage(x, w, 0, reg, sys) && z == Penalty(0, 0)
    ensures TickKeeps(x, w) && Stage(x, PagedTick(x, w, z), 1, reg, sys)
  {
    hide Runs, TickKeeps, Slip, Warmed, PagedTick, Tick, TablePlatform, FetchOf, Checked;
    OwnsFits(x, sys, w.b);
    SlipRuns(x, sys);
    Clock1(TablePlatform(x), w.p, reg, sys, (), 0x0101_0101, z);
    SameUnit(sys);
    WarmHolds(sys.vm);
    HitKeeps(x, sys, w.b, START);
    FetchClock(x, w, z, START, w.b);
    PagedTickIsTick(x, w, z);
    PagedTickIsOk(x, w, z);
  }

  lemma Stage2(x: Board<()>, w: PagedPipe<()>, reg: Regs, sys: P.System, z: Penalty)
    requires Stage(x, w, 1, reg, sys) && z == Penalty(0, 0)
    ensures TickKeeps(x, w) && Stage(x, PagedTick(x, w, z), 2, reg, sys)
  {
    hide Runs, TickKeeps, Slip, Warmed, PagedTick, Tick, TablePlatform, FetchOf, Checked;
    OwnsFits(x, sys, w.b);
    SlipRuns(x, sys);
    Clock2(TablePlatform(x), w.p, reg, sys, (), 0x0101_0101, z);
    FetchClock(x, w, z, 0x21000, Checked(x.tables, sys, w.b, 0x21000, 4, Fetch).0);
    TakenSlot(x, sys);
    PagedTickIsTick(x, w, z);
    PagedTickIsOk(x, w, z);
  }

  lemma TakenSlot(x: Board<()>, sys: P.System)
    requires Slip(x, sys) && Warmed(sys.vm) && Fits(BufferOf(sys))
    ensures var b := Checked(x.tables, sys, BufferOf(sys), 0x21000, 4, Fetch).0;
            T.Lookup(UnitOf(sys, b), 0x10).None? && T.Lookup(UnitOf(sys, b), 0x21).Some?
  {
    hide T.CheckPages, T.FindFrom;
    SameUnit(sys);
    FetchTakesSlot(sys.vm);
    var v := T.CheckPages(sys.vm, x.tables, 0x21000, 0x21003, 0x21, Fetch).0;
    SameLookup(sys, v, 0x10);
    SameLookup(sys, v, 0x21);
  }

  lemma SameLookup(sys: P.System, v: T.Vm, p: T.Vpn)
    ensures T.Lookup(UnitOf(sys, Buffer(v.tlb, v.next)), p) == T.Lookup(v, p)
  {
  }

  lemma Stage3(x: Board<()>, w: PagedPipe<()>, reg: Regs, sys: P.System, z: Penalty)
    requires Stage(x, w, 2, reg, sys) && z == Penalty(0, 0) && reg[2] == TARGET
    ensures TickKeeps(x, w) && Stage(x, PagedTick(x, w, z), 3, reg, sys)
  {
    hide Runs, TickKeeps, Slip, Warmed, PagedTick, Tick, TablePlatform, FetchOf, Checked, T.FindFrom;
    OwnsFits(x, sys, w.b);
    SlipRuns(x, sys);
    Clock3(TablePlatform(x), w.p, reg, sys, (), 0x0101_0101, z);
    HitKeeps(x, sys, w.b, 0x21004);
    FetchClock(x, w, z, 0x21004, w.b);
    PagedTickIsTick(x, w, z);
    PagedTickIsOk(x, w, z);
  }

  lemma Stage4(x: Board<()>, w: PagedPipe<()>, reg: Regs, sys: P.System, z: Penalty)
    requires Stage(x, w, 3, reg, sys) && z == Penalty(0, 0)
    ensures TickKeeps(x, w) && Owns(x, sys, PagedTick(x, w, z).b)
    ensures Slip(x, sys) && Clocked(PagedTick(x, w, z).p, 4, reg, sys, (), 0x0101_0101)
  {
    hide Runs, TickKeeps, Slip, Warmed, PagedTick, Tick, TablePlatform, FetchOf, Checked, T.FindFrom, Loses;
    OwnsFits(x, sys, w.b);
    SlipRuns(x, sys);
    Clock4(TablePlatform(x), w.p, reg, sys, (), 0x0101_0101, z);
    MissingKeeps(x, sys, w.b);
    AccessClock(x, w, 0x21008);
    PagedTickIsTick(x, w, z);
    PagedTickIsOk(x, w, z);
  }

  lemma Stage5(x: Board<()>, w: PagedPipe<()>, reg: Regs, sys: P.System, z: Penalty)
    requires Slip(x, sys) && Owns(x, sys, w.b) && Clocked(w.p, 4, reg, sys, (), 0x0101_0101) && z == Penalty(0, 0)
    ensures TickKeeps(x, w)
    ensures var p := PagedTick(x, w, z).p; p.reg[1] == 0x0101_0101 && p.executed == 1 && p.retirePc == 0x21000
  {
    hide Runs, TickKeeps, Slip, PagedTick, Tick, TablePlatform, FetchOf, Checked, Loses, Commit;
    OwnsFits(x, sys, w.b);
    SlipRuns(x, sys);
    Clock5(TablePlatform(x), w.p, reg, sys, (), 0x0101_0101, z);
    AccessClock(x, w, 0x2100C);
    PagedTickIsTick(x, w, z);
  }

  // ---- they differ ----

  /** Five clocks from reset. */
  function FiveClocks(x: Board<()>, w: PagedPipe<()>): Pipe<(), P.System>
    requires Fits(w.b)
  {
    var z := Penalty(0, 0);
    PagedTick(x, PagedTick(x, PagedTick(x, PagedTick(x, PagedTick(x, w, z), z), z), z), z).p
  }

  lemma PipelineFinds(x: Board<()>, w: PagedPipe<()>, reg: Regs, sys: P.System)
    requires Stage(x, w, 0, reg, sys) && Fits(w.b) && reg[2] == TARGET
    ensures var p := FiveClocks(x, w); p.reg[1] == 0x0101_0101 && p.executed == 1 && p.retirePc == 0x21000
  {
    hide Stage, PagedTick, Clocked, Slip, Owns, TickKeeps;
    var z := Penalty(0, 0);
    Stage1(x, w, reg, sys, z);
    var w1 := PagedTick(x, w, z);
    Stage2(x, w1, reg, sys, z);
    var w2 := PagedTick(x, w1, z);
    Stage3(x, w2, reg, sys, z);
    var w3 := PagedTick(x, w2, z);
    Stage4(x, w3, reg, sys, z);
    Stage5(x, PagedTick(x, w3, z), reg, sys, z);
  }

  /** Both CPUs start from reset with the same program, memory, tables and buffer, which 16 reads have
      filled. One instruction later both stand behind the load, and R1 differs. */
  lemma CpusDiffer(reg: Regs) returns (x: Board<()>, start: T.Mmu, sys: P.System, b: Buffer)
    requires reg[2] == TARGET
    ensures start.vm == T.Flush(start.vm) && start.mem == x.tables
    ensures sys.vm == T.Run(start, T.Warmup(T.ENTRIES)).vm && b == BufferOf(sys) && Owns(x, sys, b)
    ensures var a := PagedStep(x, Paged(State(reg, START, Normal, true, sys, (), 0, 0), b)).s;
            var p := FiveClocks(x, PagedPipe(Reset(reg, START, Normal, sys, ()), b));
            && p.executed == a.executed == 1 && p.retirePc == a.pc == 0x21000
            && p.reg[1] == 0x0101_0101 && a.reg[1] < 0x100_0000
  {
    hide Stage, PagedTick, PagedStep, T.Run, T.Warmup, T.Warm, FiveClocks;
    x := SlipBoard();
    start := T.Mmu(T.Flush(T.Vm(true, 0x1000, 0, [], 0)), T.ExampleTables());
    WarmStart(start);
    sys := UserWith(T.Run(start, T.Warmup(T.ENTRIES)).vm);
    b := BufferOf(sys);
    SlipStarts(x, sys, reg);
    ScalarLoses(x, sys, Paged(State(reg, START, Normal, true, sys, (), 0, 0), b), reg);
    PipelineFinds(x, PagedPipe(Reset(reg, START, Normal, sys, ()), b), reg, sys);
  }

  lemma WarmStart(start: T.Mmu)
    requires start == T.Mmu(T.Flush(T.Vm(true, 0x1000, 0, [], 0)), T.ExampleTables())
    ensures Warmed(T.Run(start, T.Warmup(T.ENTRIES)).vm)
  {
    hide T.Run;
    T.Warmed(start, T.ENTRIES);
  }

  lemma SlipStarts(x: Board<()>, sys: P.System, reg: Regs)
    requires x == SlipBoard() && Warmed(sys.vm) && sys == UserWith(sys.vm)
    ensures Slip(x, sys) && Owns(x, sys, BufferOf(sys))
    ensures Stage(x, PagedPipe(Reset(reg, START, Normal, sys, ()), BufferOf(sys)), 0, reg, sys)
  {
    WarmIsOk(x, sys);
  }
}
