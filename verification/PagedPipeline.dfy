/**
 The pipeline with translation through the buffer. Its fetches run ahead of the scalar CPU's and down
 wrong paths, so its buffer is another one; as long as no access loses a page, nobody can tell.
 */
module PagedPipeline {
  import opened Isa
  import opened Wrappers
  import opened Pipeline
  import opened PagedPlatform
  import opened PagedScalar
  import PipelineProof
  import PipelineTheorems
  import Privilege
  import Tlb

  // ---- a clock depends on one data access and one fetch ----

  function RedirectOf<M, S>(env: Platform<M, S>, p: Pipe<M, S>): Redirect {
    if p.idEx.Empty? then None
    else
      var op := p.idEx.e.op;
      RepairedRedirect(p.idEx.e, ExecuteEx(env, p.sys, p.reg, op, Forwarded(env, p, op.srcA), Forwarded(env, p, op.srcB)))
  }

  /** What the front end fetches in this clock, behind MEM, also if a redirect drops it. */
  function FetchOf<M, S>(env: Platform<M, S>, p: Pipe<M, S>, halted: bool): Option<(Word, Mode)> {
    var loadUse := LoadUse(p.idEx, p.ifId);
    if p.exArmed && p.exLeft > 1 then None
    else if !p.exArmed && p.idEx.Full? && !loadUse && MulDivLatency(p.idEx.e.op.insn) > 0 then None
    else if loadUse || halted then None
    else
      var q := Steered(p, loadUse, RedirectOf(env, p));
      Some((q.fetchPc, q.fetchMode))
  }

  ghost predicate AgreeOnFetch<M, S>(e: Platform<M, S>, f: Platform<M, S>, s: S, a: Option<(Word, Mode)>) {
    a.Some? ==> SameFetch(e, f, s, a.value.0, a.value.1)
  }

  lemma SameEx<M, S>(e: Platform<M, S>, f: Platform<M, S>, sys: S, reg: Regs, op: Op, a: Word, b: Word)
    requires SameCore(e, f)
    ensures ExecuteEx(e, sys, reg, op, a, b) == ExecuteEx(f, sys, reg, op, a, b)
  {
  }

  lemma SameForwarded<M, S>(e: Platform<M, S>, f: Platform<M, S>, p: Pipe<M, S>, r: Reg)
    requires SameCore(e, f)
    ensures Forwarded(e, p, r) == Forwarded(f, p, r)
  {
  }

  lemma SameFrontEnd<M, S>(e: Platform<M, S>, f: Platform<M, S>, p: Pipe<M, S>, loadUse: bool, halted: bool, redirect: Redirect)
    requires !loadUse && !halted ==>
               var q := Steered(p, loadUse, redirect); SameFetch(e, f, p.sys, q.fetchPc, q.fetchMode)
    ensures FrontEnd(e, p, loadUse, halted, redirect) == FrontEnd(f, p, loadUse, halted, redirect)
  {
    assert Steered(p, loadUse, redirect).sys == p.sys;
  }

  lemma SameAdvance<M, S>(e: Platform<M, S>, f: Platform<M, S>, p: Pipe<M, S>, next: Slot<MemWb>, halted: bool)
    requires SameCore(e, f)
    requires var loadUse := LoadUse(p.idEx, p.ifId);
             !loadUse && !halted ==>
               var q := Steered(p, loadUse, RedirectOf(e, p)); SameFetch(e, f, p.sys, q.fetchPc, q.fetchMode)
    ensures Advance(e, p, next, halted) == Advance(f, p, next, halted) && RedirectOf(e, p) == RedirectOf(f, p)
  {
    if p.idEx.Full? {
      var op := p.idEx.e.op;
      SameForwarded(e, f, p, op.srcA);
      SameForwarded(e, f, p, op.srcB);
      SameEx(e, f, p.sys, p.reg, op, Forwarded(e, p, op.srcA), Forwarded(e, p, op.srcB));
    }
    SameFrontEnd(e, f, p, LoadUse(p.idEx, p.ifId), halted, RedirectOf(e, p));
  }

  /** Disarming the hold does not change what EX does. */
  lemma DisarmedRedirect<M, S>(env: Platform<M, S>, p: Pipe<M, S>)
    ensures var q := p.(exLeft := 0, exArmed := false);
            RedirectOf(env, q) == RedirectOf(env, p)
            && Steered(q, LoadUse(p.idEx, p.ifId), RedirectOf(env, p)).fetchPc == Steered(p, LoadUse(p.idEx, p.ifId), RedirectOf(env, p)).fetchPc
            && Steered(q, LoadUse(p.idEx, p.ifId), RedirectOf(env, p)).fetchMode == Steered(p, LoadUse(p.idEx, p.ifId), RedirectOf(env, p)).fetchMode
  {
    if p.idEx.Full? {
      ForwardedAlone(env, p, p.idEx.e.op.srcA);
      ForwardedAlone(env, p, p.idEx.e.op.srcB);
    }
  }

  lemma ForwardedAlone<M, S>(env: Platform<M, S>, p: Pipe<M, S>, r: Reg)
    ensures Forwarded(env, p.(exLeft := 0, exArmed := false), r) == Forwarded(env, p, r)
  {
  }

  lemma SameDrain<M, S>(e: Platform<M, S>, f: Platform<M, S>, p: Pipe<M, S>, next: Slot<MemWb>, halted: bool)
    requires SameCore(e, f) && AgreeOnFetch(e, f, p.sys, FetchOf(e, p, halted))
    ensures Drain(e, p, next, halted) == Drain(f, p, next, halted)
  {
    if p.exArmed && p.exLeft > 1 {
    } else if p.exArmed {
      DisarmedRedirect(e, p);
      SameAdvance(e, f, p.(exLeft := 0, exArmed := false), next, halted);
    } else if p.idEx.Full? && !LoadUse(p.idEx, p.ifId) && MulDivLatency(p.idEx.e.op.insn) > 0 {
    } else {
      SameAdvance(e, f, p, next, halted);
    }
  }

  /** The data access in EX/MEM. */
  function MemAccess<M, S>(p: Pipe<M, S>): Option<DataAccess> {
    if p.exMem.Full? && (p.exMem.e.isLoad || p.exMem.e.isStore)
    then Some(DataAccess(p.exMem.e.addr, p.exMem.e.width, if p.exMem.e.isLoad then Read else Write)) else None
  }

  /** What the front end fetches does not depend on memory. */
  lemma FetchIgnoresMemory<M, S>(env: Platform<M, S>, p: Pipe<M, S>, m: M, halted: bool)
    ensures FetchOf(env, p.(mem := m), halted) == FetchOf(env, p, halted)
  {
    if p.idEx.Full? {
      MemoryAlone(env, p, m, p.idEx.e.op.srcA);
      MemoryAlone(env, p, m, p.idEx.e.op.srcB);
    }
  }

  lemma MemoryAlone<M, S>(env: Platform<M, S>, p: Pipe<M, S>, m: M, r: Reg)
    ensures Forwarded(env, p.(mem := m), r) == Forwarded(env, p, r)
  {
  }

  lemma SameMemStage<M, S(!new)>(e: Platform<M, S>, f: Platform<M, S>, s: S, m: M, p: Pipe<M, S>)
    requires p.exMem.Full? && (MemAccess(p).Some? ==> SameData(e, f, s, m, MemAccess(p).value))
    ensures MemCheck(e, s, p.exMem.e) == MemCheck(f, s, p.exMem.e)
    ensures MemCheck(e, s, p.exMem.e).None? ==> MemStage(e, s, m, p.exMem.e) == MemStage(f, s, m, p.exMem.e)
  {
  }

  lemma SameEntry<M, S>(e: Platform<M, S>, f: Platform<M, S>, p: Pipe<M, S>, x: Exception, epc: Word, mode: Mode)
    requires SameCore(e, f)
    ensures EnterTrap(e, p, x, epc, mode) == EnterTrap(f, p, x, epc, mode)
  {
  }

  lemma SameMemory<M, S(!new)>(e: Platform<M, S>, f: Platform<M, S>, p: Pipe<M, S>, halted: bool)
    requires SameCore(e, f) && (MemAccess(p).Some? ==> SameData(e, f, p.sys, p.mem, MemAccess(p).value))
    requires (p.exMem.Full? && MemCheck(e, p.sys, p.exMem.e).Some?) || AgreeOnFetch(e, f, p.sys, FetchOf(e, p, halted))
    ensures Memory(e, p, halted) == Memory(f, p, halted)
  {
    if p.exMem.Empty? {
      SameDrain(e, f, p, Empty, halted);
    } else {
      SameMemStage(e, f, p.sys, p.mem, p);
      match MemCheck(e, p.sys, p.exMem.e) {
        case Some(x) => SameEntry(e, f, p, x, p.exMem.e.pc, p.exMem.e.mode);
        case None =>
          var (wb, mem) := MemStage(e, p.sys, p.mem, p.exMem.e);
          FetchIgnoresMemory(e, p, mem, halted);
          SameDrain(e, f, p.(mem := mem), Full(wb), halted);
      }
    }
  }

  lemma SameCommit<M, S>(e: Platform<M, S>, f: Platform<M, S>, p: Pipe<M, S>)
    requires SameCore(e, f)
    ensures Commit(e, p) == Commit(f, p)
  {
  }

  // ---- one clock through the buffer ----

  /** The pipeline and the real buffer. The buffer inside the privilege state is not used. */
  datatype PagedPipe<!M> = PagedPipe(p: Pipe<M, Privilege.System>, b: Buffer)

  /** MTSR acts on the buffer at commit. */
  function CommitBuffer<M>(p: Pipe<M, Privilege.System>, b: Buffer): (c: Buffer)
    requires Fits(b)
    ensures Fits(c)
  {
    if p.memWb.Full? && p.memWb.e.exception.None? && p.memWb.e.mtsr.Some?
    then Written(p.sys, b, p.reg, p.memWb.e.mtsr.value.0, p.memWb.e.mtsr.value.1) else b
  }

  /** The buffers of a clock behind commit: MEM comes first, then IF. What is fetched does not depend on
      the platform's fetches and accesses. */
  function ClockBuffers<M>(x: Board<M>, p: Pipe<M, Privilege.System>, halted: bool, b: Buffer): (bs: Buffers)
    requires Fits(b)
    ensures Fits(bs.fetch) && Fits(bs.data) && bs.dataCheck == b && bs.fetchCheck == bs.data
  {
    var a := MemAccess(p);
    var (b1, refused) := if a.None? then (b, None) else Checked(x.tables, p.sys, b, a.value.addr, a.value.width, a.value.access);
    var f := if refused.Some? then None else FetchOf(TablePlatform(x), p, halted);
    var b2 := if f.None? then b1 else Checked(x.tables, p.sys, b1, f.value.0, Size(f.value.1), Fetch).0;
    Buffers(b1, b2, b, b1)
  }

  predicate Working<M>(p: Pipe<M, Privilege.System>) {
    p.running && p.cacheStall == 0
  }

  /** One clock. */
  function PagedTick<M>(x: Board<M>, w: PagedPipe<M>, penalty: Penalty): (v: PagedPipe<M>)
    requires Fits(w.b)
    ensures Fits(v.b)
  {
    var t, q := TablePlatform(x), SyncFromBlock(w.p);
    var c := Commit(t, q);
    if !Working(q) then PagedPipe(Tick(t, w.p, penalty), w.b)
    else if c.flushed then PagedPipe(Tick(t, w.p, penalty), CommitBuffer(q, w.b))
    else
      var bs := ClockBuffers(x, c.p, c.halted, CommitBuffer(q, w.b));
      PagedPipe(Tick(BufferPlatform(x, bs), w.p, penalty), bs.fetch)
  }

  /** Neither the data access nor the fetch behind commit loses a page. */
  predicate ClockKeeps<M>(x: Board<M>, p: Pipe<M, Privilege.System>, halted: bool, b: Buffer)
    requires Fits(b)
  {
    var bs, a, f := ClockBuffers(x, p, halted, b), MemAccess(p), FetchOf(TablePlatform(x), p, halted);
    && (a.Some? ==> !Loses(x.tables, p.sys, b, a.value.addr, a.value.width))
    && (f.Some? ==> !Loses(x.tables, p.sys, bs.data, f.value.0, Size(f.value.1)))
  }

  predicate TickKeeps<M>(x: Board<M>, w: PagedPipe<M>)
    requires Fits(w.b)
  {
    var q := SyncFromBlock(w.p);
    var c := Commit(TablePlatform(x), q);
    Working(q) && !c.flushed ==> ClockKeeps(x, c.p, c.halted, CommitBuffer(q, w.b))
  }

  lemma MemoryIsTables<M(!new)>(x: Board<M>, p: Pipe<M, Privilege.System>, halted: bool, b: Buffer)
    requires Owns(x, p.sys, b) && ClockKeeps(x, p, halted, b)
    ensures Memory(BufferPlatform(x, ClockBuffers(x, p, halted, b)), p, halted) == Memory(TablePlatform(x), p, halted)
  {
    hide Memory, SameData, SameFetch, Loses;
    var bs, t := ClockBuffers(x, p, halted, b), TablePlatform(x);
    var e := BufferPlatform(x, bs);
    BuffersShareCore(x, bs);
    var a := MemAccess(p);
    if a.Some? {
      KeptIsSame(x, bs, p.sys, p.mem, a.value);
      CheckedIsAnswer(x.tables, p.sys, b, a.value.addr, a.value.width, a.value.access);
    }
    var f := FetchOf(t, p, halted);
    SameFetchOf(e, t, p, halted);
    if f.Some? && !(p.exMem.Full? && MemCheck(e, p.sys, p.exMem.e).Some?) {
      KeptIsSameFetch(x, bs, p.sys, f.value.0, f.value.1);
    }
    SameMemory(e, t, p, halted);
  }

  lemma SameFetchOf<M, S>(e: Platform<M, S>, f: Platform<M, S>, p: Pipe<M, S>, halted: bool)
    requires SameCore(e, f)
    ensures FetchOf(e, p, halted) == FetchOf(f, p, halted)
  {
    if p.idEx.Full? {
      var op := p.idEx.e.op;
      SameForwarded(e, f, p, op.srcA);
      SameForwarded(e, f, p, op.srcB);
      SameEx(e, f, p.sys, p.reg, op, Forwarded(e, p, op.srcA), Forwarded(e, p, op.srcB));
    }
  }

  /** A clock that keeps its pages does what it would do straight from the tables. */
  lemma PagedTickIsTick<M(!new)>(x: Board<M>, w: PagedPipe<M>, penalty: Penalty)
    requires Owns(x, w.p.sys, w.b) && TickKeeps(x, w)
    ensures PagedTick(x, w, penalty).p == Tick(TablePlatform(x), w.p, penalty)
  {
    hide Memory, Commit, ClockBuffers, ClockKeeps, CommitBuffer, Tlb.Consistent;
    OwnsFits(x, w.p.sys, w.b);
    var t, q := TablePlatform(x), SyncFromBlock(w.p);
    var c := Commit(t, q);
    CommitIsOk(x, q, w.b);
    if Working(q) && !c.flushed {
      var b := CommitBuffer(q, w.b);
      var e := BufferPlatform(x, ClockBuffers(x, c.p, c.halted, b));
      BuffersShareCore(x, ClockBuffers(x, c.p, c.halted, b));
      SameCommit(e, t, q);
      MemoryIsTables(x, c.p, c.halted, b);
    }
  }

  /** The privilege state behind commit. */
  lemma CommitSystem<M, S>(env: Platform<M, S>, p: Pipe<M, S>, wb: MemWb)
    requires p.memWb == Full(wb)
    ensures var sys := Commit(env, p).p.sys;
            if wb.exception.Some? then
              var e := wb.exception.value;
              sys == env.trap(p.sys, p.reg, e, if e.SyscallTrap? then Next(wb.pc, wb.mode) else wb.pc, wb.mode).0
            else if wb.mtsr.Some? then
              (match env.writeSr(p.sys, p.reg, wb.mtsr.value.0, wb.mtsr.value.1)
               case Some(w) => sys == w.0
               case None => sys == env.trap(p.sys, p.reg, IllegalInstruction, wb.pc, wb.mode).0)
            else if wb.iret then sys == env.iret(p.sys, WriteBack(env, p.reg, wb)).0
            else sys == p.sys
  {
  }

  /** Commit keeps the buffer that of the privilege state. */
  lemma CommitIsOk<M(!new)>(x: Board<M>, p: Pipe<M, Privilege.System>, b: Buffer)
    requires Owns(x, p.sys, b)
    ensures Owns(x, Commit(TablePlatform(x), p).p.sys, CommitBuffer(p, b))
  {
    if p.memWb.Full? {
      var t, wb := TablePlatform(x), p.memWb.e;
      CommitSystem(t, p, wb);
      if wb.exception.Some? {
        var e := wb.exception.value;
        TrapsAreOk(x, p.sys, b, p.reg, e, if e.SyscallTrap? then Next(wb.pc, wb.mode) else wb.pc, wb.mode);
      } else if wb.mtsr.Some? {
        MtsrIsOk(x, p, b, wb.mtsr.value.0, wb.mtsr.value.1, wb);
      } else {
        TrapsAreOk(x, p.sys, b, WriteBack(t, p.reg, wb), IllegalInstruction, wb.pc, wb.mode);
      }
    }
  }

  lemma MtsrIsOk<M(!new)>(x: Board<M>, p: Pipe<M, Privilege.System>, b: Buffer, sr: Half, v: Word, wb: MemWb)
    requires Owns(x, p.sys, b)
    ensures var c, w := Written(p.sys, b, p.reg, sr, v), TablePlatform(x).writeSr(p.sys, p.reg, sr, v);
            Owns(x, if w.Some? then w.value.0 else TablePlatform(x).trap(p.sys, p.reg, IllegalInstruction, wb.pc, wb.mode).0, c)
  {
    hide Tlb.Consistent, Privilege.WriteKnown;
    if Privilege.WriteSr(p.sys, p.reg, sr, v).Some? {
      WrittenIsOk(x.tables, p.sys, b, p.reg, sr, v);
    } else {
      TrapsAreOk(x, p.sys, b, p.reg, IllegalInstruction, wb.pc, wb.mode);
    }
  }

  lemma DrainSystem<M, S>(env: Platform<M, S>, p: Pipe<M, S>, next: Slot<MemWb>, halted: bool)
    ensures Drain(env, p, next, halted).sys == p.sys
  {
    hide Advance, LoadUse, MulDivLatency;
    PipelineProof.AdvanceFrame(env, p, next, halted);
    PipelineProof.AdvanceFrame(env, p.(exLeft := 0, exArmed := false), next, halted);
  }

  /** So does the rest of the clock. */
  lemma MemoryIsOk<M(!new)>(x: Board<M>, p: Pipe<M, Privilege.System>, halted: bool, b: Buffer)
    requires Owns(x, p.sys, b)
    ensures Owns(x, Memory(TablePlatform(x), p, halted).sys, ClockBuffers(x, p, halted, b).fetch)
  {
    hide Tlb.Consistent, Drain, FetchOf;
    OwnsFits(x, p.sys, b);
    var t, bs, a := TablePlatform(x), ClockBuffers(x, p, halted, b), MemAccess(p);
    if a.Some? {
      CheckedIsAnswer(x.tables, p.sys, b, a.value.addr, a.value.width, a.value.access);
    }
    assert Owns(x, p.sys, bs.data);
    var f := FetchOf(t, p, halted);
    if f.Some? {
      CheckedIsAnswer(x.tables, p.sys, bs.data, f.value.0, Size(f.value.1), Fetch);
    }
    assert Owns(x, p.sys, bs.fetch);
    if p.exMem.Empty? {
      DrainSystem(t, p, Empty, halted);
    } else {
      match MemCheck(t, p.sys, p.exMem.e) {
        case Some(e) => TrapsAreOk(x, p.sys, bs.fetch, p.reg, e, p.exMem.e.pc, p.exMem.e.mode);
        case None =>
          var (wb, mem) := MemStage(t, p.sys, p.mem, p.exMem.e);
          DrainSystem(t, p.(mem := mem), Full(wb), halted);
      }
    }
  }

  lemma PagedTickIsOk<M(!new)>(x: Board<M>, w: PagedPipe<M>, penalty: Penalty)
    requires Owns(x, w.p.sys, w.b) && TickKeeps(x, w)
    ensures Owns(x, PagedTick(x, w, penalty).p.sys, PagedTick(x, w, penalty).b)
  {
    hide Memory, Commit, ClockKeeps, CommitBuffer, Tlb.Consistent, Drain;
    OwnsFits(x, w.p.sys, w.b);
    PagedTickIsTick(x, w, penalty);
    var q := SyncFromBlock(w.p);
    var c := Commit(TablePlatform(x), q);
    CommitIsOk(x, q, w.b);
    if Working(q) && !c.flushed {
      MemoryIsOk(x, c.p, c.halted, CommitBuffer(q, w.b));
    }
  }

  // ---- runs ----

  function PagedRun<M>(x: Board<M>, w: PagedPipe<M>, penalties: seq<Penalty>): (v: PagedPipe<M>)
    requires Fits(w.b)
    ensures Fits(v.b)
    decreases |penalties|
  {
    if penalties == [] then w else PagedRun(x, PagedTick(x, w, penalties[0]), penalties[1..])
  }

  predicate RunKeeps<M>(x: Board<M>, w: PagedPipe<M>, penalties: seq<Penalty>)
    requires Fits(w.b)
    decreases |penalties|
  {
    match |penalties|
    case 0 => true
    case _ => TickKeeps(x, w) && RunKeeps(x, PagedTick(x, w, penalties[0]), penalties[1..])
  }

  /** A run whose accesses keep their pages is the run straight from the tables. */
  lemma {:induction false} PagedRunIsRun<M(!new)>(x: Board<M>, w: PagedPipe<M>, penalties: seq<Penalty>)
    requires Owns(x, w.p.sys, w.b) && RunKeeps(x, w, penalties)
    ensures PagedRun(x, w, penalties).p == PipelineTheorems.Run(TablePlatform(x), w.p, penalties)
    decreases |penalties|
  {
    if penalties == [] {
    } else {
      PagedTickIsTick(x, w, penalties[0]);
      PagedTickIsOk(x, w, penalties[0]);
      PagedRunIsRun(x, PagedTick(x, w, penalties[0]), penalties[1..]);
    }
  }

  /** What a program can see: registers, PC, mode while it runs, privilege state, count and memory. */
  datatype Machine<!M> = Machine(
    reg: Regs, pc: Word, mode: Option<Mode>, running: bool, sys: Privilege.System, count: int, mem: M)

  function Shown<M>(p: Pipe<M, Privilege.System>): Machine<M> {
    Machine(p.reg, p.retirePc, if p.running then Some(p.retireMode) else None, p.running, p.sys, p.executed, p.mem)
  }

  /** The scalar CPU's, with memory as `next` has it; refused accesses are not counted. */
  function Expected<M>(a: State<M, Privilege.System>, next: State<M, Privilege.System>): Machine<M> {
    Machine(a.reg, a.pc, if a.running then Some(a.mode) else None, a.running, a.sys, a.executed - a.dataFaults, next.mem)
  }

  lemma TablesRefine<M(!new)>(t: Platform<M, Privilege.System>, s: State<M, Privilege.System>, penalties: seq<Penalty>, n: nat,
                              p: Pipe<M, Privilege.System>, a: State<M, Privilege.System>, next: State<M, Privilege.System>)
    requires Wired(t) && s.running && s.reg[0] == 0 && s.executed == 0 && s.dataFaults == 0
    requires p == PipelineTheorems.Run(t, Reset(s.reg, s.pc, s.mode, s.sys, s.mem), penalties)
    requires n == PipelineTheorems.RetiredIn(t, Reset(s.reg, s.pc, s.mode, s.sys, s.mem), penalties)
    requires a == Steps(t, s, n) && next == Steps(t, s, n + PipelineTheorems.MemoryAhead(p))
    ensures Shown(p) == Expected(a, next)
  {
    hide Wired, Steps, PipelineTheorems.Run, PipelineTheorems.RetiredIn;
    PipelineTheorems.PipelineRefinesScalar(t, s, penalties);
  }

  lemma BoardRefines<M(!new)>(x: Board<M>, s: State<M, Privilege.System>, penalties: seq<Penalty>, n: nat,
                              p: Pipe<M, Privilege.System>, a: State<M, Privilege.System>, next: State<M, Privilege.System>)
    requires (forall a: Word :: x.tables(a).Some?) && s.running && s.reg[0] == 0 && s.executed == 0 && s.dataFaults == 0
    requires p == PipelineTheorems.Run(TablePlatform(x), Reset(s.reg, s.pc, s.mode, s.sys, s.mem), penalties)
    requires n == PipelineTheorems.RetiredIn(TablePlatform(x), Reset(s.reg, s.pc, s.mode, s.sys, s.mem), penalties)
    requires a == Steps(TablePlatform(x), s, n) && next == Steps(TablePlatform(x), s, n + PipelineTheorems.MemoryAhead(p))
    ensures Shown(p) == Expected(a, next)
  {
    TablesAreWired(x);
    TablesRefine(TablePlatform(x), s, penalties, n, p, a, next);
  }

  /** Both runs are runs straight from the tables. */
  lemma KeptRuns<M(!new)>(x: Board<M>, s: State<M, Privilege.System>, w: PagedPipe<M>, penalties: seq<Penalty>, m: nat, n: nat)
    requires Owns(x, s.sys, w.b) && w.p.sys == s.sys && m <= n
    requires RunKeeps(x, w, penalties) && KeepsFor(x, Paged(s, w.b), n)
    ensures PagedRun(x, w, penalties).p == PipelineTheorems.Run(TablePlatform(x), w.p, penalties)
    ensures PagedSteps(x, Paged(s, w.b), m).s == Steps(TablePlatform(x), s, m)
    ensures PagedSteps(x, Paged(s, w.b), n).s == Steps(TablePlatform(x), s, n)
  {
    hide PagedTick, PagedStep, Tick, Isa.Step;
    PagedRunIsRun(x, w, penalties);
    KeepsForLess(x, Paged(s, w.b), m, n);
    PagedStepsAreSteps(x, Paged(s, w.b), m);
    PagedStepsAreSteps(x, Paged(s, w.b), n);
  }

  /** Main result with translation through the buffer: if neither CPU loses a page in its run, then the
      pipeline's registers, PC, mode, privilege state and count are the scalar CPU's after exactly the
      retired instructions, and its memory is that of the scalar CPU one instruction ahead exactly if
      MEM/WB holds a plain one, although the two fill their buffers in different orders. */
  lemma PagedPipelineRefinesScalar<M(!new)>(
    x: Board<M>, s: State<M, Privilege.System>, start: PagedPipe<M>, penalties: seq<Penalty>, n: nat,
    p: Pipe<M, Privilege.System>, a: State<M, Privilege.System>, next: State<M, Privilege.System>)
    requires (forall a: Word :: x.tables(a).Some?) && Owns(x, s.sys, start.b)
    requires s.running && s.reg[0] == 0 && s.executed == 0 && s.dataFaults == 0
    requires start.p == Reset(s.reg, s.pc, s.mode, s.sys, s.mem)
    requires n == PipelineTheorems.RetiredIn(TablePlatform(x), start.p, penalties)
    requires RunKeeps(x, start, penalties) && p == PagedRun(x, start, penalties).p
    requires KeepsFor(x, Paged(s, start.b), n + PipelineTheorems.MemoryAhead(p))
    requires a == PagedSteps(x, Paged(s, start.b), n).s
    requires next == PagedSteps(x, Paged(s, start.b), n + PipelineTheorems.MemoryAhead(p)).s
    ensures Shown(p) == Expected(a, next)
  {
    hide PagedTick, PagedStep, TickKeeps, Keeps, Tick, Isa.Step, PipelineTheorems.RetiredBy;
    KeptRuns(x, s, start, penalties, n, n + PipelineTheorems.MemoryAhead(p));
    BoardRefines(x, s, penalties, n, p, a, next);
  }
}
