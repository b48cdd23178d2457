/**
 The SRC32 instruction set as the scalar CPU executes it, one instruction a step.

 Everything the instruction set leaves to its surroundings (program memory, arithmetic,
 the bus, the privilege unit) is a field of `Platform`, so the statements about the faster
 engines hold for every program, every bus and every privilege unit.
 */
module Isa {
  import opened Wrappers

  /** A 32-bit word as an unsigned number. */
  type Word = w: int | 0 <= w < 0x1_0000_0000
  /** Sign-extended 16-bit offsets and immediates (`i16`), and unsigned ones (`u16`). */
  type Offset = i: int | -0x8000 <= i < 0x8000
  type Half = i: int | 0 <= i < 0x1_0000
  type Reg = r: nat | r < 32
  type ShortReg = r: nat | r < 16
  type Regs = r: seq<Word> | |r| == 32 witness seq(32, i => 0)

  const REG_CPUID: Reg := 1
  const REG_FEATURES: Reg := 2
  const REG_LR: Reg := 31
  const CPU_ID: Word := 0x5352_4332

  datatype Mode = Normal | Short

  datatype Access = Read | Write | Fetch

  datatype Exception =
    | IllegalInstruction
    | BusError
    | SyscallTrap(number: Half)
    | PrivilegedInstruction
    | ProtectionFault(access: Access)
    | PageFault(access: Access, protection: bool, addr: Word)

  datatype AluOp =
    | Add | Sub | Slt | Sltu | And | Or | Xor | Sll | Srl | Sla | Sra
    | Mul | Mulh | Div | Mod | Divu

  /** Access width in bytes: 1, 2 or 4. */
  type Width = w: nat | w == 1 || w == 2 || w == 4 witness 1

  /** Normal-mode instructions. `Jump` is JMP, JAL, JMPS and JALS; `JumpReg` is JR, JALR,
      JRS and JALRS; `Branch` is BEQ and BNE. */
  datatype Instr =
    | Nop
    | Alu(op: AluOp, rd: Reg, rs1: Reg, rs2: Reg)
    | Addi(rd: Reg, rs1: Reg, imm: Offset)
    | Ldil(rd: Reg, half: Half)
    | Ldih(rd: Reg, half: Half)
    | Load(rd: Reg, base: Reg, offset: Offset, width: Width)
    | Store(rd: Reg, base: Reg, offset: Offset, width: Width)
    | Branch(onEqual: bool, rs1: Reg, rs2: Reg, offset: Offset)
    | Jump(link: bool, toShort: bool, offset: Offset)
    | JumpReg(link: bool, toShort: bool, rd: Reg)
    | Cpuid
    | Halt
    | Iret
    | Syscall(number: Half)
    | Mfsr(rd: Reg, sr: Half)
    | Mtsr(rs: Reg, sr: Half)
    | Unknown

  /** Short-mode instructions; register fields are still the 4-bit encodings. */
  datatype ShortInstr =
    | SMov(rd: ShortReg, rs1: ShortReg)
    | SAdd(rd: ShortReg, rs1: ShortReg, rs2: ShortReg)
    | SAddi(rd: ShortReg, imm: Offset)
    | SLoad(rd: ShortReg, rs1: ShortReg)
    | SStore(rd: ShortReg, rs1: ShortReg)
    | SBranch(onZero: bool, rd: ShortReg, offset: Offset)
    | SJumpReg(rd: ShortReg)
    | SJal(offset: Offset)
    | SLdi(rd: ShortReg, half: Half)
    | SRet
    | SUnknown

  datatype Decoded = N(insn: Instr) | Sh(short: ShortInstr)

  /** The surroundings of a CPU core: read-only program memory as the privilege unit maps it
      (`normal`, `short`), the value of
      CPUID's feature word, the arithmetic unit, a bus with state `M` and a privilege unit with
      state `S`. Bus reads may change the bus state. */
  datatype Platform<!M, !S> = Platform(
    normal: (S, Word) -> Instr,
    short: (S, Word) -> ShortInstr,
    features: Word,
    alu: (AluOp, Word, Word) -> Word,
    load: (M, S, Word, Width) -> (Word, M),
    store: (M, S, Word, Width, Word) -> M,
    vectorAddress: Exception -> Word,
    readVector: (M, Exception) -> (Word, M),
    user: S -> bool,
    check: (S, Word, nat, Access) -> Option<Exception>,
    trap: (S, Regs, Exception, Word, Mode) -> (S, Regs),
    iret: (S, Regs) -> (S, Regs, Word, Mode),
    readSr: (S, Regs, Half) -> Option<Word>,
    writeSr: (S, Regs, Half, Word) -> Option<(S, Regs)>)

  predicate IsFetchFault(e: Exception) {
    (e.ProtectionFault? || e.PageFault?) && e.access == Fetch
  }

  /** What the cores rely on: R0 survives the privilege unit's register-bank changes, reading a
      system register in supervisor mode does not look at the live registers, supervisor accesses
      are never refused, and a refused fetch is a protection or page fault (page tables are read
      without bus errors). */
  ghost predicate Wired<M(!new), S(!new)>(env: Platform<M, S>) {
    && (forall s: S, r: Regs, e: Exception, pc: Word, m: Mode :: env.trap(s, r, e, pc, m).1[0] == r[0])
    && (forall s: S, r: Regs :: env.iret(s, r).1[0] == r[0])
    && (forall s: S, r: Regs, n: Half, v: Word ::
          env.writeSr(s, r, n, v).Some? ==> env.writeSr(s, r, n, v).value.1[0] == r[0])
    && (forall s: S, r: Regs, q: Regs, n: Half ::
          !env.user(s) ==> env.readSr(s, r, n) == env.readSr(s, q, n))
    && (forall s: S, a: Word, n: nat, access: Access :: !env.user(s) ==> env.check(s, a, n, access).None?)
    && (forall s: S, a: Word, n: nat ::
          env.check(s, a, n, Fetch).Some? ==> IsFetchFault(env.check(s, a, n, Fetch).value))
  }

  /** Architectural state. `executed` is the instruction counter; `dataFaults` counts the loads
      and stores that the privilege unit refused. */
  datatype State<!M, !S> = State(
    reg: Regs, pc: Word, mode: Mode, running: bool, sys: S, mem: M, executed: nat, dataFaults: nat)

  function Size(mode: Mode): nat {
    if mode == Normal then 4 else 2
  }

  function Next(pc: Word, mode: Mode): Word {
    if mode == Normal then Plus(pc, 4) else Plus(pc, 2)
  }

  /** Wrapping 32-bit addition of a signed amount. */
  function Plus(a: Word, b: int): Word {
    (a + b) % 0x1_0000_0000
  }

  /** LDIL and LDIH replace one half of a register. */
  function MergeLow(a: Word, imm: Half): Word {
    a - a % 0x1_0000 + imm
  }

  function MergeHigh(a: Word, imm: Half): Word {
    a % 0x1_0000 + imm * 0x1_0000
  }

  function Gpr(r: ShortReg): Reg {
    if r < 15 then r else REG_LR
  }

  function ReadReg(reg: Regs, r: Reg): Word {
    if r == 0 then 0 else reg[r]
  }

  function SetReg(reg: Regs, r: Reg, v: Word): Regs {
    if r == 0 then reg else reg[r := v]
  }

  function Narrow(width: Width, v: Word): Word {
    if width == 1 then v % 0x100 else if width == 2 then v % 0x1_0000 else v
  }

  function Code<M, S>(env: Platform<M, S>, sys: S, pc: Word, mode: Mode): Decoded {
    if mode == Normal then N(env.normal(sys, pc)) else Sh(env.short(sys, pc))
  }

  predicate Privileged(i: Instr) {
    i.Halt? || i.Iret? || i.Mfsr? || i.Mtsr?
  }

  /** Exception entry; a vector word that still holds its own address stops the CPU there. */
  function EnterException<M, S>(env: Platform<M, S>, s: State<M, S>, e: Exception, epc: Word): State<M, S> {
    var (sys, reg) := env.trap(s.sys, s.reg, e, epc, s.mode);
    var (pc, mem) := env.readVector(s.mem, e);
    s.(sys := sys, reg := reg, pc := pc, mem := mem, mode := Normal, running := pc != env.vectorAddress(e))
  }

  function DataFault<M, S>(env: Platform<M, S>, s: State<M, S>, e: Exception, epc: Word): State<M, S> {
    EnterException(env, s, e, epc).(dataFaults := s.dataFaults + 1)
  }

  /** Normal-mode execution. `s` is at the instruction, already counted. */
  function ExecuteNormal<M, S>(env: Platform<M, S>, s: State<M, S>, i: Instr): State<M, S> {
    var pc, next := s.pc, Plus(s.pc, 4);
    var t := s.(pc := next);
    if env.user(s.sys) && Privileged(i) then
      EnterException(env, s, PrivilegedInstruction, pc)
    else
      match i
      case Nop => t
      case Alu(op, rd, rs1, rs2) =>
        t.(reg := SetReg(s.reg, rd, env.alu(op, ReadReg(s.reg, rs1), ReadReg(s.reg, rs2))))
      case Addi(rd, rs1, imm) => t.(reg := SetReg(s.reg, rd, Plus(ReadReg(s.reg, rs1), imm)))
      case Ldil(rd, imm) =>
        t.(reg := SetReg(s.reg, rd, MergeLow(ReadReg(s.reg, rd), imm)))
      case Ldih(rd, imm) =>
        t.(reg := SetReg(s.reg, rd, MergeHigh(ReadReg(s.reg, rd), imm)))
      case Load(rd, base, offset, width) =>
        var addr := Plus(ReadReg(s.reg, base), offset);
        (match env.check(s.sys, addr, width, Read)
         case Some(e) => DataFault(env, s, e, pc)
         case None =>
           var (value, mem) := env.load(s.mem, s.sys, addr, width);
           t.(reg := SetReg(s.reg, rd, value), mem := mem))
      case Store(rd, base, offset, width) =>
        var addr := Plus(ReadReg(s.reg, base), offset);
        (match env.check(s.sys, addr, width, Write)
         case Some(e) => DataFault(env, s, e, pc)
         case None =>
           t.(mem := env.store(s.mem, s.sys, addr, width, Narrow(width, ReadReg(s.reg, rd)))))
      case Branch(onEqual, rs1, rs2, offset) =>
        if (ReadReg(s.reg, rs1) == ReadReg(s.reg, rs2)) == onEqual then t.(pc := Plus(next, offset)) else t
      case Jump(link, toShort, offset) =>
        t.(reg := if link then SetReg(s.reg, REG_LR, next) else s.reg,
           pc := Plus(next, offset), mode := if toShort then Short else s.mode)
      case JumpReg(link, toShort, rd) =>
        t.(reg := if link then SetReg(s.reg, REG_LR, next) else s.reg,
           pc := ReadReg(s.reg, rd), mode := if toShort then Short else s.mode)
      case Cpuid => t.(reg := SetReg(SetReg(s.reg, REG_CPUID, CPU_ID), REG_FEATURES, env.features))
      case Halt => t.(running := false)
      case Iret =>
        var (sys, reg, target, mode) := env.iret(s.sys, s.reg);
        t.(sys := sys, reg := reg, pc := target, mode := mode)
      case Syscall(number) => EnterException(env, s, SyscallTrap(number), next)
      case Mfsr(rd, sr) =>
        (match env.readSr(s.sys, s.reg, sr)
         case Some(value) => t.(reg := SetReg(s.reg, rd, value))
         case None => EnterException(env, s, IllegalInstruction, pc))
      case Mtsr(rs, sr) =>
        (match env.writeSr(s.sys, s.reg, sr, ReadReg(s.reg, rs))
         case Some(w) => t.(sys := w.0, reg := w.1)
         case None => EnterException(env, s, IllegalInstruction, pc))
      case Unknown => EnterException(env, s, IllegalInstruction, pc)
  }

  /** Short-mode execution. */
  function ExecuteShort<M, S>(env: Platform<M, S>, s: State<M, S>, i: ShortInstr): State<M, S> {
    var pc, next := s.pc, Plus(s.pc, 2);
    var t := s.(pc := next);
    match i
    case SMov(rd, rs1) => t.(reg := SetReg(s.reg, Gpr(rd), ReadReg(s.reg, Gpr(rs1))))
    case SAdd(rd, rs1, rs2) =>
      t.(reg := SetReg(s.reg, Gpr(rd), Plus(ReadReg(s.reg, Gpr(rs1)), ReadReg(s.reg, Gpr(rs2)))))
    case SAddi(rd, imm) => t.(reg := SetReg(s.reg, Gpr(rd), Plus(ReadReg(s.reg, Gpr(rd)), imm)))
    case SLoad(rd, rs1) =>
      var addr := ReadReg(s.reg, Gpr(rs1));
      (match env.check(s.sys, addr, 4, Read)
       case Some(e) => DataFault(env, s, e, pc)
       case None =>
         var (value, mem) := env.load(s.mem, s.sys, addr, 4);
         t.(reg := SetReg(s.reg, Gpr(rd), value), mem := mem))
    case SStore(rd, rs1) =>
      var addr := ReadReg(s.reg, Gpr(rd));
      (match env.check(s.sys, addr, 4, Write)
       case Some(e) => DataFault(env, s, e, pc)
       case None => t.(mem := env.store(s.mem, s.sys, addr, 4, ReadReg(s.reg, Gpr(rs1)))))
    case SBranch(onZero, rd, offset) =>
      if (ReadReg(s.reg, Gpr(rd)) == 0) == onZero then t.(pc := Plus(next, offset)) else t
    case SJumpReg(rd) => t.(pc := ReadReg(s.reg, Gpr(rd)))
    case SJal(offset) => t.(reg := SetReg(s.reg, REG_LR, next), pc := Plus(next, offset))
    case SLdi(rd, imm) => t.(reg := SetReg(s.reg, Gpr(rd), imm))
    case SRet => t.(mode := Normal)
    case SUnknown => EnterException(env, s, IllegalInstruction, pc)
  }

  /** One instruction of the scalar CPU: a refused fetch traps uncounted; a stopped CPU stays put. */
  function Step<M, S>(env: Platform<M, S>, s: State<M, S>): State<M, S> {
    if !s.running then s
    else
      match env.check(s.sys, s.pc, Size(s.mode), Fetch)
      case Some(e) => EnterException(env, s, e, s.pc)
      case None =>
        var t := s.(executed := s.executed + 1);
        if s.mode == Normal then ExecuteNormal(env, t, env.normal(s.sys, s.pc)) else ExecuteShort(env, t, env.short(s.sys, s.pc))
  }

  /** `n` instructions. */
  function Steps<M, S>(env: Platform<M, S>, s: State<M, S>, n: nat): State<M, S> {
    if n == 0 then s else Step(env, Steps(env, s, n - 1))
  }

  lemma {:induction false} StepsAdd<M, S>(env: Platform<M, S>, s: State<M, S>, m: nat, n: nat)
    ensures Steps(env, Steps(env, s, m), n) == Steps(env, s, m + n)
  {
    if n == 0 {
    } else {
      StepsAdd(env, s, m, n - 1);
    }
  }

  lemma FewSteps<M, S>(env: Platform<M, S>, s: State<M, S>)
    ensures Steps(env, s, 0) == s && Steps(env, s, 1) == Step(env, s) && Steps(env, s, 2) == Step(env, Step(env, s))
  {
    assert Steps(env, s, 2) == Step(env, Steps(env, s, 1));
  }

  lemma StepsSucc<M, S>(env: Platform<M, S>, s: State<M, S>, n: nat)
    ensures Steps(env, s, n + 1) == Step(env, Steps(env, s, n))
  {
  }
}
