/**
 The five-stage pipelined CPU: IF / ID / EX / MEM / WB with forwarding, a load-use stall, a
 multi-cycle multiply/divide hold, static prediction of backward branches repaired in EX, and
 traps, MTSR and IRET that act at commit and flush. `Tick` is one clock.
 */
module Pipeline {
  import opened Isa
  import opened Wrappers

  datatype Slot<+T> = Empty | Full(e: T)

  /** IF/ID. A refused fetch carries its exception and a NOP. */
  datatype IfId = IfId(pc: Word, mode: Mode, insn: Decoded, fault: Option<Exception>)

  /** A decoded operation: `srcA` and `srcB` are R0 where the operation has fewer sources. */
  datatype Op = Op(
    pc: Word, mode: Mode, insn: Decoded, srcA: Reg, srcB: Reg, dest: Option<Reg>,
    isLoad: bool, isStore: bool, exception: Option<Exception>)

  datatype IdEx = IdEx(op: Op, predictedTaken: bool)

  datatype ExMem = ExMem(
    pc: Word, mode: Mode, dest: Option<Reg>, isLoad: bool, isStore: bool,
    result: Word, storeValue: Word, addr: Word, width: Width,
    taken: bool, target: Word, newMode: Option<Mode>,
    halt: bool, iret: bool, cpuid: bool, exception: Option<Exception>, mtsr: Option<(Half, Word)>)

  datatype MemWb = MemWb(
    pc: Word, mode: Mode, dest: Option<Reg>, value: Word,
    taken: bool, target: Word, newMode: Option<Mode>,
    halt: bool, iret: bool, cpuid: bool, exception: Option<Exception>, mtsr: Option<(Half, Word)>)

  datatype Pipe<!M, !S> = Pipe(
    reg: Regs, fetchPc: Word, fetchMode: Mode, retirePc: Word, retireMode: Mode, running: bool,
    sys: S, mem: M, executed: nat,
    ifId: Slot<IfId>, idEx: Slot<IdEx>, exMem: Slot<ExMem>, memWb: Slot<MemWb>,
    exLeft: nat, exArmed: bool, cacheStall: nat)

  /** Penalty cycles the L1 model charges in one tick for the fetch and for the load. */
  datatype Penalty = Penalty(fetch: nat, load: nat)

  type Redirect = Option<(Word, Mode)>

  // ---- IF and ID ----

  function FetchEntry<M, S>(env: Platform<M, S>, sys: S, pc: Word, mode: Mode): (f: IfId)
    ensures f.pc == pc && f.mode == mode && (f.fault.Some? ==> f.insn == N(Nop))
  {
    match env.check(sys, pc, Size(mode), Fetch)
    case Some(e) => IfId(pc, mode, N(Nop), Some(e))
    case None => IfId(pc, mode, Code(env, sys, pc, mode), None)
  }

  /** Sources the hazard unit looks at while the instruction waits in IF/ID. */
  function HazardSources(d: Decoded): (Reg, Reg) {
    match d
    case N(i) =>
      (match i
       case Load(_, base, _, _) => (base, 0)
       case Store(rd, base, _, _) => (base, rd)
       case Alu(_, _, rs1, rs2) => (rs1, rs2)
       case Addi(_, rs1, _) => (rs1, 0)
       case Branch(_, rs1, rs2, _) => (rs1, rs2)
       case JumpReg(_, _, rd) => (rd, 0)
       case Ldil(rd, _) => (rd, 0)
       case Ldih(rd, _) => (rd, 0)
       case Mtsr(rs, _) => (rs, 0)
       case _ => (0, 0))
    case Sh(i) =>
      match i
      case SMov(_, rs1) => (Gpr(rs1), 0)
      case SAdd(_, rs1, rs2) => (Gpr(rs1), Gpr(rs2))
      case SAddi(rd, _) => (Gpr(rd), 0)
      case SLoad(_, rs1) => (Gpr(rs1), 0)
      case SStore(rd, rs1) => (Gpr(rd), Gpr(rs1))
      case SBranch(_, rd, _) => (Gpr(rd), 0)
      case SJumpReg(rd) => (Gpr(rd), 0)
      case _ => (0, 0)
  }

  function DecodeId(f: IfId): (op: Op)
    ensures op.pc == f.pc && op.mode == f.mode
  {
    var nop := Op(f.pc, f.mode, f.insn, 0, 0, None, false, false, None);
    if f.fault.Some? then nop.(insn := N(Nop), exception := f.fault)
    else
      match f.insn
      case N(i) =>
        (match i
         case Load(rd, base, _, _) => nop.(srcA := base, dest := Some(rd), isLoad := true)
         case Store(rd, base, _, _) => nop.(srcA := base, srcB := rd, isStore := true)
         case Alu(_, rd, rs1, rs2) => nop.(srcA := rs1, srcB := rs2, dest := Some(rd))
         case Addi(rd, rs1, _) => nop.(srcA := rs1, dest := Some(rd))
         case Branch(_, rs1, rs2, _) => nop.(srcA := rs1, srcB := rs2)
         case Jump(link, _, _) => nop.(dest := if link then Some(REG_LR) else None)
         case JumpReg(link, _, rd) => nop.(srcA := rd, dest := if link then Some(REG_LR) else None)
         case Ldil(rd, _) => nop.(srcA := rd, dest := Some(rd))
         case Ldih(rd, _) => nop.(srcA := rd, dest := Some(rd))
         case Mfsr(rd, _) => nop.(dest := Some(rd))
         case Mtsr(rs, _) => nop.(srcA := rs)
         case _ => nop)
      case Sh(i) =>
        match i
        case SMov(rd, rs1) => nop.(srcA := Gpr(rs1), dest := Some(Gpr(rd)))
        case SAdd(rd, rs1, rs2) => nop.(srcA := Gpr(rs1), srcB := Gpr(rs2), dest := Some(Gpr(rd)))
        case SAddi(rd, _) => nop.(srcA := Gpr(rd), dest := Some(Gpr(rd)))
        case SLoad(rd, rs1) => nop.(srcA := Gpr(rs1), dest := Some(Gpr(rd)), isLoad := true)
        case SStore(rd, rs1) => nop.(srcA := Gpr(rd), srcB := Gpr(rs1), isStore := true)
        case SBranch(_, rd, _) => nop.(srcA := Gpr(rd))
        case SJumpReg(rd) => nop.(srcA := Gpr(rd))
        case SJal(_) => nop.(dest := Some(REG_LR))
        case SLdi(rd, _) => nop.(dest := Some(Gpr(rd)))
        case _ => nop
  }

  /** Offset of a conditional backward branch, the only kind that is predicted taken. */
  function BackwardOffset(op: Op): Option<Offset> {
    if op.exception.Some? then None
    else
      match op.insn
      case N(Branch(_, _, _, offset)) => if offset < 0 then Some(offset) else None
      case Sh(SBranch(_, _, offset)) => if offset < 0 then Some(offset) else None
      case _ => None
  }

  predicate LoadUse(id: Slot<IdEx>, f: Slot<IfId>) {
    && id.Full? && f.Full?
    && id.e.op.isLoad && id.e.op.dest.Some? && id.e.op.dest.value != 0
    && var (a, b) := HazardSources(f.e.insn); (a == id.e.op.dest.value || b == id.e.op.dest.value)
  }

  /** EX cycles of a multiply or divide, 0 for everything else. */
  function MulDivLatency(d: Decoded): nat {
    if d.N? && d.insn.Alu? then
      match d.insn.op
      case Mul => 3
      case Mulh => 3
      case Div => 16
      case Divu => 16
      case Mod => 16
      case _ => 0
    else 0
  }

  // ---- EX ----

  function Forwarded<M, S>(env: Platform<M, S>, p: Pipe<M, S>, r: Reg): Word {
    if r == 0 then 0
    else if p.exMem.Full? && !p.exMem.e.isLoad && p.exMem.e.dest == Some(r) then p.exMem.e.result
    else if p.exMem.Full? && p.exMem.e.cpuid && r == REG_CPUID then CPU_ID
    else if p.exMem.Full? && p.exMem.e.cpuid && r == REG_FEATURES then env.features
    else if p.memWb.Full? && p.memWb.e.dest == Some(r) then p.memWb.e.value
    else if p.memWb.Full? && p.memWb.e.cpuid && r == REG_CPUID then CPU_ID
    else if p.memWb.Full? && p.memWb.e.cpuid && r == REG_FEATURES then env.features
    else ReadReg(p.reg, r)
  }

  /** The exception an operation carries out of EX. */
  function ExException<M, S>(env: Platform<M, S>, sys: S, reg: Regs, op: Op): Option<Exception> {
    if op.exception.Some? then op.exception
    else
      match op.insn
      case N(i) =>
        if Privileged(i) && env.user(sys) then Some(PrivilegedInstruction)
        else (match i
              case Unknown => Some(IllegalInstruction)
              case Syscall(number) => Some(SyscallTrap(number))
              case Mfsr(_, sr) => if env.readSr(sys, reg, sr).None? then Some(IllegalInstruction) else None
              case _ => None)
      case Sh(i) => if i.SUnknown? then Some(IllegalInstruction) else None
  }

  function Bubble(op: Op): ExMem {
    ExMem(op.pc, op.mode, op.dest, op.isLoad, op.isStore, 0, 0, 0, 1, false, 0, None, false, false, false, None, None)
  }

  function ExecuteNormalEx<M, S>(env: Platform<M, S>, sys: S, reg: Regs, i: Instr, o: ExMem, a: Word, b: Word): ExMem {
    var next := Plus(o.pc, 4);
    match i
    case Nop => o.(dest := None)
    case Alu(op, _, _, _) => o.(result := env.alu(op, a, b))
    case Addi(_, _, imm) => o.(result := Plus(a, imm))
    case Ldil(_, imm) => o.(result := MergeLow(a, imm))
    case Ldih(_, imm) => o.(result := MergeHigh(a, imm))
    case Load(_, _, offset, width) => o.(addr := Plus(a, offset), width := width)
    case Store(_, _, offset, width) =>
      o.(addr := Plus(a, offset), width := width, storeValue := b, dest := None)
    case Branch(onEqual, _, _, offset) =>
      if (a == b) == onEqual then o.(dest := None, taken := true, target := Plus(next, offset))
      else o.(dest := None)
    case Jump(link, toShort, offset) =>
      o.(dest := if link then o.dest else None, result := if link then next else 0,
         taken := true, target := Plus(next, offset), newMode := if toShort then Some(Short) else None)
    case JumpReg(link, toShort, _) =>
      o.(dest := if link then o.dest else None, result := if link then next else 0,
         taken := true, target := a, newMode := if toShort then Some(Short) else None)
    case Cpuid => o.(dest := None, cpuid := true)
    case Halt => o.(dest := None, halt := true)
    case Iret => o.(dest := None, iret := true)
    case Mfsr(_, sr) => o.(result := match env.readSr(sys, reg, sr) case Some(v) => v case None => 0)
    case Mtsr(_, sr) => o.(dest := None, mtsr := Some((sr, a)))
    case Syscall(_) => o
    case Unknown => o
  }

  function ExecuteShortEx(i: ShortInstr, o: ExMem, a: Word, b: Word): ExMem {
    var next := Plus(o.pc, 2);
    match i
    case SMov(_, _) => o.(result := a)
    case SAdd(_, _, _) => o.(result := Plus(a, b))
    case SAddi(_, imm) => o.(result := Plus(a, imm))
    case SLdi(_, imm) => o.(result := imm)
    case SLoad(_, _) => o.(addr := a, width := 4)
    case SStore(_, _) => o.(addr := a, storeValue := b, width := 4, dest := None)
    case SBranch(onZero, _, offset) =>
      if (a == 0) == onZero then o.(dest := None, taken := true, target := Plus(next, offset))
      else o.(dest := None)
    case SJumpReg(_) => o.(dest := None, taken := true, target := a)
    case SJal(offset) => o.(result := next, taken := true, target := Plus(next, offset))
    case SRet => o.(dest := None, taken := true, target := next, newMode := Some(Normal))
    case SUnknown => o
  }

  function ExecuteEx<M, S>(env: Platform<M, S>, sys: S, reg: Regs, op: Op, a: Word, b: Word): ExMem {
    var o := Bubble(op);
    var exception := ExException(env, sys, reg, op);
    if exception.Some? then o.(dest := None, isLoad := false, isStore := false, exception := exception)
    else
      match op.insn
      case N(i) => ExecuteNormalEx(env, sys, reg, i, o, a, b)
      case Sh(i) => ExecuteShortEx(i, o, a, b)
  }

  /** Mode in which fetch resumes when the executed instruction redirects it. */
  function RedirectMode(em: ExMem): Mode {
    match em.newMode case Some(m) => m case None => em.mode
  }

  function BranchRedirect(em: ExMem): Redirect {
    if em.taken then Some((em.target, RedirectMode(em))) else None
  }

  /** Prediction repair: a correctly predicted taken branch redirects nothing, a wrong one goes
      back to the fall-through. */
  function RepairedRedirect(id: IdEx, em: ExMem): Redirect {
    if id.predictedTaken then
      if em.taken then None else Some((Next(id.op.pc, id.op.mode), id.op.mode))
    else BranchRedirect(em)
  }

  // ---- MEM ----

  function MemCheck<M, S>(env: Platform<M, S>, sys: S, em: ExMem): Option<Exception> {
    if em.isLoad || em.isStore then env.check(sys, em.addr, em.width, if em.isLoad then Read else Write) else None
  }

  function MemStage<M, S>(env: Platform<M, S>, sys: S, mem: M, em: ExMem): (MemWb, M) {
    var w := MemWb(em.pc, em.mode, em.dest, em.result, em.taken, em.target, em.newMode,
                   em.halt, em.iret, em.cpuid, em.exception, em.mtsr);
    if em.isLoad then
      var (value, mem') := env.load(mem, sys, em.addr, em.width);
      (w.(value := value), mem')
    else if em.isStore then
      (w.(dest := None), env.store(mem, sys, em.addr, em.width, Narrow(em.width, em.storeValue)))
    else (w, mem)
  }

  // ---- WB ----

  /** Drop every in-flight instruction and restart fetch at `pc`. */
  function RedirectEmpty<M, S>(p: Pipe<M, S>, pc: Word, mode: Mode): Pipe<M, S> {
    p.(fetchPc := pc, retirePc := pc, fetchMode := mode, retireMode := mode,
       ifId := Empty, idEx := Empty, exMem := Empty, memWb := Empty, exLeft := 0, exArmed := false)
  }

  function EnterTrap<M, S>(env: Platform<M, S>, p: Pipe<M, S>, e: Exception, epc: Word, mode: Mode): Pipe<M, S> {
    var (sys, reg) := env.trap(p.sys, p.reg, e, epc, mode);
    var (pc, mem) := env.readVector(p.mem, e);
    RedirectEmpty(p.(sys := sys, reg := reg, mem := mem), pc, Normal).(running := pc != env.vectorAddress(e))
  }

  function WriteBack<M, S>(env: Platform<M, S>, reg: Regs, wb: MemWb): Regs {
    var r := if wb.cpuid then reg[REG_CPUID := CPU_ID][REG_FEATURES := env.features][0 := 0] else reg;
    if wb.dest.Some? then (if wb.dest.value != 0 then r[wb.dest.value := wb.value] else r)[0 := 0] else r
  }

  datatype Committed<!M, !S> = Committed(p: Pipe<M, S>, flushed: bool, halted: bool)

  function Commit<M, S>(env: Platform<M, S>, p0: Pipe<M, S>): Committed<M, S> {
    if p0.memWb.Empty? then Committed(p0, false, false)
    else
      var wb := p0.memWb.e;
      var fallthrough := Next(wb.pc, wb.mode);
      var p := if wb.exception.Some? && IsFetchFault(wb.exception.value) then p0 else p0.(executed := p0.executed + 1);
      if wb.exception.Some? then
        var epc := if wb.exception.value.SyscallTrap? then fallthrough else wb.pc;
        Committed(EnterTrap(env, p, wb.exception.value, epc, wb.mode), true, false)
      else if wb.mtsr.Some? then
        (match env.writeSr(p.sys, p.reg, wb.mtsr.value.0, wb.mtsr.value.1)
         case Some(w) => Committed(RedirectEmpty(p.(sys := w.0, reg := w.1), fallthrough, wb.mode), true, false)
         case None => Committed(EnterTrap(env, p, IllegalInstruction, wb.pc, wb.mode), true, false))
      else
        var q := p.(retirePc := if wb.taken then wb.target else if wb.iret then p.retirePc else fallthrough,
                    reg := WriteBack(env, p.reg, wb),
                    fetchMode := if wb.newMode.Some? then wb.newMode.value else p.fetchMode,
                    retireMode := if wb.newMode.Some? then wb.newMode.value else p.retireMode);
        if wb.iret then
          var (sys, reg, pc, mode) := env.iret(q.sys, q.reg);
          Committed(RedirectEmpty(q.(sys := sys, reg := reg), pc, mode), true, false)
        else if wb.halt then
          Committed(q.(running := false, ifId := Empty, idEx := Empty, exMem := Empty, exArmed := false, exLeft := 0),
                    false, true)
        else Committed(q, false, false)
  }

  // ---- one clock ----

  predicate IsEmpty<M, S>(p: Pipe<M, S>) {
    p.ifId.Empty? && p.idEx.Empty? && p.exMem.Empty? && p.memWb.Empty?
  }

  /** An empty pipeline reloads its state from the CPU register block, which holds `retirePc` and
      the fetch mode. */
  function SyncFromBlock<M, S>(p: Pipe<M, S>): Pipe<M, S> {
    if IsEmpty(p) then p.(fetchPc := p.retirePc, retireMode := p.fetchMode) else p
  }

  /** ID and prediction. */
  function Steered<M, S>(p: Pipe<M, S>, loadUse: bool, redirect: Redirect): Pipe<M, S> {
    var id := if p.ifId.Full? && !loadUse then Full(IdEx(DecodeId(p.ifId.e), false)) else Empty;
    var back := if redirect.None? && id.Full? then BackwardOffset(id.e.op) else None;
    if back.None? then p.(idEx := id)
    else p.(idEx := Full(id.e.(predictedTaken := true)),
            fetchPc := Plus(Next(id.e.op.pc, id.e.op.mode), back.value),
            fetchMode := id.e.op.mode)
  }

  /** The front end after EX: ID, prediction, IF and the redirect flush. */
  function FrontEnd<M, S>(env: Platform<M, S>, p: Pipe<M, S>, loadUse: bool, halted: bool, redirect: Redirect): Pipe<M, S> {
    var p1 := Steered(p, loadUse, redirect);
    var p2 := if loadUse then p1
              else if halted then p1.(ifId := Empty)
              else p1.(ifId := Full(FetchEntry(env, p1.sys, p1.fetchPc, p1.fetchMode)),
                       fetchPc := Next(p1.fetchPc, p1.fetchMode));
    match redirect
    case None => p2
    case Some(r) => p2.(fetchPc := r.0, fetchMode := r.1, ifId := Empty, idEx := Empty)
  }

  /** EX and the front end; `next` is what MEM produced. The old MEM/WB entry is still in place
      for forwarding. */
  function Advance<M, S>(env: Platform<M, S>, p: Pipe<M, S>, next: Slot<MemWb>, halted: bool): Pipe<M, S> {
    var loadUse := LoadUse(p.idEx, p.ifId);
    if p.idEx.Empty? then FrontEnd(env, p, loadUse, halted, None).(exMem := Empty, memWb := next)
    else
      var op := p.idEx.e.op;
      var em := ExecuteEx(env, p.sys, p.reg, op, Forwarded(env, p, op.srcA), Forwarded(env, p, op.srcB));
      FrontEnd(env, p, loadUse, halted, RepairedRedirect(p.idEx.e, em)).(exMem := Full(em), memWb := next)
  }

  /** Everything after MEM: the multiply/divide countdown, arming it, or an ordinary advance. */
  function Drain<M, S>(env: Platform<M, S>, p: Pipe<M, S>, next: Slot<MemWb>, halted: bool): Pipe<M, S> {
    if p.exArmed && p.exLeft > 1 then p.(exLeft := p.exLeft - 1, memWb := next, exMem := Empty)
    else if p.exArmed then Advance(env, p.(exLeft := 0, exArmed := false), next, halted)
    else if p.idEx.Full? && !LoadUse(p.idEx, p.ifId) && MulDivLatency(p.idEx.e.op.insn) > 0 then
      p.(exLeft := MulDivLatency(p.idEx.e.op.insn) - 1, exArmed := true, memWb := next, exMem := Empty)
    else Advance(env, p, next, halted)
  }

  function ChargePenalty<M, S>(p: Pipe<M, S>, penalty: Penalty): Pipe<M, S> {
    p.(cacheStall := p.cacheStall + penalty.fetch + penalty.load)
  }

  /** MEM of one clock and everything after it; a refused access traps before the bus sees it. */
  function Memory<M, S>(env: Platform<M, S>, p: Pipe<M, S>, halted: bool): Pipe<M, S> {
    if p.exMem.Empty? then Drain(env, p, Empty, halted)
    else
      var em := p.exMem.e;
      match MemCheck(env, p.sys, em)
      case Some(e) => EnterTrap(env, p, e, em.pc, em.mode)
      case None =>
        var (wb, mem) := MemStage(env, p.sys, p.mem, em);
        Drain(env, p.(mem := mem), Full(wb), halted)
  }

  function Work<M, S>(env: Platform<M, S>, p: Pipe<M, S>): Pipe<M, S> {
    var c := Commit(env, p);
    if c.flushed then c.p else Memory(env, c.p, c.halted)
  }

  /** One clock; a frozen or stopped pipeline only waits. */
  function Tick<M, S>(env: Platform<M, S>, p: Pipe<M, S>, penalty: Penalty): Pipe<M, S> {
    var q := SyncFromBlock(p);
    if q.cacheStall > 0 then q.(cacheStall := q.cacheStall - 1)
    else if !q.running then q
    else ChargePenalty(Work(env, q), penalty)
  }

  function Reset<M, S>(reg: Regs, pc: Word, mode: Mode, sys: S, mem: M): Pipe<M, S> {
    Pipe(reg, pc, mode, pc, mode, true, sys, mem, 0, Empty, Empty, Empty, Empty, 0, false, 0)
  }
}
